/**
 * The PostgreSQL database the handlers share, as one object: the rows of
 * every table, the SERIAL counter of each table whose ids the handlers
 * generate, the clock behind `NOW()`/`CURRENT_TIMESTAMP`, and the log of
 * every `io.emit`.
 *
 * A transaction that rolls back restores the rows but not the counters:
 * PostgreSQL never hands out a value drawn from a sequence twice.
 */
module Store {
  import opened Base
  import opened Schema

  /** The next value of each SERIAL sequence. */
  datatype Serials = Serials(usuario: int, cuenta: int, pedido: int, pago: int)

  /** The integrity rules hold and every sequence is past the ids already in use. */
  ghost predicate Sound(t: Tables, s: Serials) {
    && Consistent(t)
    && (forall k :: k in t.usuarios ==> k < s.usuario)
    && (forall k :: k in t.cuentas ==> k < s.cuenta)
    && (forall k :: k in t.pedidos ==> k < s.pedido)
    && 0 < s.usuario && 0 < s.cuenta && 0 < s.pedido && 0 < s.pago
  }

  /** `s` is no further along than `s'` in any sequence. */
  predicate NotAfter(s: Serials, s': Serials) {
    s.usuario <= s'.usuario && s.cuenta <= s'.cuenta && s.pedido <= s'.pedido && s.pago <= s'.pago
  }

  /** Drawing values from the sequences (even in a transaction that rolls back) keeps the rows sound. */
  lemma Advance(t: Tables, s: Serials, s': Serials)
    requires Sound(t, s) && NotAfter(s, s')
    ensures Sound(t, s')
  {
  }

  /** Rewriting rows consistently without adding any id keeps the rows sound. */
  lemma Replace(t: Tables, s: Serials, t': Tables)
    requires Sound(t, s) && Consistent(t')
    requires t'.usuarios.Keys <= t.usuarios.Keys
    requires t'.cuentas.Keys <= t.cuentas.Keys
    requires t'.pedidos.Keys <= t.pedidos.Keys
    ensures Sound(t', s)
  {
  }

  /** `INSERT INTO cuentas` with the next id of its sequence. */
  lemma {:induction false} DrawCuenta(t: Tables, s: Serials, c: Cuenta)
    requires Sound(t, s) && c.id == s.cuenta && c.mesaId in t.mesas
    requires c.estado == Abierta ==> CuentaAbiertaDe(t.cuentas, c.mesaId).None?
    ensures c.id !in t.cuentas
    ensures Sound(t.(cuentas := t.cuentas[c.id := c]), s.(cuenta := s.cuenta + 1))
  {
    CuentaInsertKeeps(t, c);
  }

  /** `INSERT INTO pedidos` with the next id of its sequence. */
  lemma {:induction false} DrawPedido(t: Tables, s: Serials, p: Pedido)
    requires Sound(t, s) && p.id == s.pedido && p.cuentaId in t.cuentas && p.productoId in t.productos
    ensures p.id !in t.pedidos
    ensures Sound(t.(pedidos := t.pedidos[p.id := p]), s.(pedido := s.pedido + 1))
  {
    PedidoInsertKeeps(t, p);
  }

  /** `INSERT INTO usuarios` with the next id of its sequence. */
  lemma {:induction false} DrawUsuario(t: Tables, s: Serials, u: Usuario)
    requires Sound(t, s) && u.id == s.usuario && u.rolId in t.roles
    requires forall k :: k in t.usuarios ==> t.usuarios[k].username != u.username
    ensures u.id !in t.usuarios
    ensures Sound(t.(usuarios := t.usuarios[u.id := u]), s.(usuario := s.usuario + 1))
  {
    UsuarioInsertKeeps(t, u);
  }

  /** The roles src/scripts/setup.js inserts: Gerente, Recepcionista, Mesero, Cocinero. */
  const ROLES_SEMILLA: set<int> := {1, 2, 3, 4}

  /** The user src/scripts/setup.js inserts: 'admin', role 1, with the bcrypt hash of its password. */
  function Admin(passwordHash: string): Usuario {
    Usuario(1, "Admin", "admin", passwordHash, 1, true, 0)
  }

  /**
   * The database. Each method is one SQL statement the handlers issue, with
   * the rows, sequences, clock and broadcast log it leaves behind.
   */
  class Db {
    var rows: Tables
    var serials: Serials
    var clock: nat
    var events: seq<Event>

    ghost predicate Valid()
      reads this
    {
      Sound(rows, serials)
    }

    /**
     * The database as setup.js leaves it, with the tables, categories and
     * products of the seed data: the four roles and the one user 'admin'
     * (stamped at time 0, with the hash bcrypt gave), and no tab, line or
     * payment.
     */
    constructor Provision(adminHash: string, mesas: map<int, Mesa>, categorias: map<int, Categoria>,
                          productos: map<int, Producto>)
      requires |adminHash| <= HASH_LEN
      requires Consistent(Tables(ROLES_SEMILLA, map[], mesas, categorias, productos, map[], map[], []))
      ensures Valid()
      ensures rows == Tables(ROLES_SEMILLA, map[1 := Admin(adminHash)], mesas, categorias, productos, map[], map[], [])
      ensures serials == Serials(2, 1, 1, 1) && clock == 1 && events == []
    {
      var semilla := Tables(ROLES_SEMILLA, map[], mesas, categorias, productos, map[], map[], []);
      UsuarioInsertKeeps(semilla, Admin(adminHash));
      rows := semilla.(usuarios := map[1 := Admin(adminHash)]);
      serials := Serials(2, 1, 1, 1);
      clock := 1;
      events := [];
    }

    /**
     * BEGIN, or the start of a statement that commits on its own: fixes the
     * `NOW()`/`CURRENT_TIMESTAMP` that the transaction's rows receive.
     */
    method Begin() returns (now: nat)
      requires Valid()
      modifies this
      ensures now == old(clock) && clock == now + 1
      ensures rows == old(rows) && serials == old(serials) && events == old(events)
      ensures Valid()
    {
      now := clock;
      clock := clock + 1;
    }

    /** ROLLBACK to the rows saved at BEGIN; values drawn from the sequences stay drawn. */
    method Rollback(saved: Tables, ghost before: Serials)
      requires Valid() && Sound(saved, before) && NotAfter(before, serials)
      modifies this
      ensures rows == saved && serials == old(serials) && clock == old(clock) && events == old(events)
      ensures Valid()
    {
      Advance(saved, before, serials);
      rows := saved;
    }

    /** `io.emit`. */
    method Emit(e: Event)
      requires Valid()
      modifies this
      ensures events == old(events) + [e]
      ensures rows == old(rows) && serials == old(serials) && clock == old(clock)
      ensures Valid()
    {
      events := events + [e];
    }

    /**
     * `INSERT INTO cuentas (mesa_id, estado) VALUES ($1, 'abierta')` (or with
     * the column default, which is the same): fails on the foreign key when the
     * table does not exist. Only a table without an open tab gets one. A
     * `mesa_id` that is no INTEGER fails before the sequence is drawn from.
     */
    method InsertCuenta(mesaId: int, now: nat) returns (c: Option<Cuenta>)
      requires Valid() && CuentaAbiertaDe(rows.cuentas, mesaId).None?
      modifies this
      ensures serials == old(serials).(cuenta := old(serials.cuenta) + if EnteroCabe(mesaId) then 1 else 0)
      ensures c.Some? <==> mesaId in old(rows.mesas)
      ensures c.Some? ==>
                && c.value == Cuenta(old(serials.cuenta), mesaId, Abierta, now)
                && c.value.id !in old(rows.cuentas)
                && rows == old(rows).(cuentas := old(rows.cuentas)[c.value.id := c.value])
      ensures c.None? ==> rows == old(rows)
      ensures clock == old(clock) && events == old(events)
      ensures NotAfter(old(serials), serials) && Valid()
    {
      var id := serials.cuenta;
      if !EnteroCabe(mesaId) {
        return None;
      }
      if mesaId !in rows.mesas {
        Advance(rows, serials, serials.(cuenta := id + 1));
        serials := serials.(cuenta := id + 1);
        return None;
      }
      var cuenta := Cuenta(id, mesaId, Abierta, now);
      DrawCuenta(rows, serials, cuenta);
      rows := rows.(cuentas := rows.cuentas[id := cuenta]);
      serials := serials.(cuenta := id + 1);
      c := Some(cuenta);
    }

    /** `UPDATE mesas SET estado = 'ocupada' WHERE id = $1`: raises when the id is no INTEGER. */
    method OcuparMesa(id: int) returns (ok: bool)
      requires Valid()
      modifies this
      ensures ok <==> EnteroCabe(id)
      ensures ok ==> rows == old(rows).(mesas := Ocupar(old(rows.mesas), id))
      ensures !ok ==> rows == old(rows)
      ensures serials == old(serials) && clock == old(clock) && events == old(events)
      ensures Valid()
    {
      ok := EnteroCabe(id);
      if !ok {
        return;
      }
      OcuparKeeps(rows, id);
      Replace(rows, serials, rows.(mesas := Ocupar(rows.mesas, id)));
      rows := rows.(mesas := Ocupar(rows.mesas, id));
    }

    /**
     * `UPDATE mesas SET estado = 'ocupada', mesa_padre_id = $1 WHERE id = ANY($2)`:
     * raises when an id is no INTEGER, and fails on the foreign key when a
     * listed table exists but the principal does not.
     */
    method FusionarEn(principal: int, ids: seq<int>) returns (ok: bool)
      requires Valid()
      modifies this
      ensures ok <==> && EnteroCabe(principal) && IdsCaben(ids)
                      && (principal in old(rows.mesas) || forall k :: k in ids ==> k !in old(rows.mesas))
      ensures ok ==> rows == old(rows).(mesas := Fusionadas(old(rows.mesas), principal, ids))
      ensures !ok ==> rows == old(rows)
      ensures serials == old(serials) && clock == old(clock) && events == old(events)
      ensures Valid()
    {
      ok := && EnteroCabe(principal) && IdsCaben(ids)
            && (principal in rows.mesas || forall k :: k in ids ==> k !in rows.mesas);
      if ok {
        FusionKeeps(rows, principal, ids);
        Replace(rows, serials, rows.(mesas := Fusionadas(rows.mesas, principal, ids)));
        rows := rows.(mesas := Fusionadas(rows.mesas, principal, ids));
      }
    }

    /** `UPDATE mesas SET estado = 'disponible', mesa_padre_id = NULL WHERE id = $1 OR mesa_padre_id = $1`. */
    method LiberarMesas(p: int)
      requires Valid()
      modifies this
      ensures rows == old(rows).(mesas := Liberadas(old(rows.mesas), p))
      ensures serials == old(serials) && clock == old(clock) && events == old(events)
      ensures Valid()
    {
      LiberacionKeeps(rows, p);
      Replace(rows, serials, rows.(mesas := Liberadas(rows.mesas, p)));
      rows := rows.(mesas := Liberadas(rows.mesas, p));
    }

    /**
     * `INSERT INTO pedidos (cuenta_id, producto_id, cantidad, cliente_nombre, estado, creado_en)`
     * with 'pendiente' and the transaction's time (the column defaults give the same):
     * fails on either foreign key or when a value does not fit its column. An
     * INTEGER parameter out of range fails before the sequence is drawn from.
     */
    method InsertPedido(cuentaId: int, productoId: int, cantidad: int, clienteNombre: string, now: nat)
      returns (l: Option<Pedido>)
      requires Valid()
      modifies this
      ensures serials == old(serials).(pedido := old(serials.pedido) +
                                         if EnteroCabe(cuentaId) && EnteroCabe(productoId) && EnteroCabe(cantidad) then 1 else 0)
      ensures l.Some? <==>
                && EnteroCabe(cuentaId) && cuentaId in old(rows.cuentas) && productoId in old(rows.productos)
                && PedidoCabe(cantidad, clienteNombre)
      ensures l.Some? ==>
                && l.value == Pedido(old(serials.pedido), cuentaId, productoId, cantidad, clienteNombre, Pendiente, now)
                && l.value.id !in old(rows.pedidos)
                && rows == old(rows).(pedidos := old(rows.pedidos)[l.value.id := l.value])
      ensures l.None? ==> rows == old(rows)
      ensures clock == old(clock) && events == old(events)
      ensures NotAfter(old(serials), serials) && Valid()
    {
      var id := serials.pedido;
      if !(EnteroCabe(cuentaId) && EnteroCabe(productoId) && EnteroCabe(cantidad)) {
        return None;
      }
      if !(cuentaId in rows.cuentas && productoId in rows.productos && PedidoCabe(cantidad, clienteNombre)) {
        Advance(rows, serials, serials.(pedido := id + 1));
        serials := serials.(pedido := id + 1);
        return None;
      }
      var linea := Pedido(id, cuentaId, productoId, cantidad, clienteNombre, Pendiente, now);
      DrawPedido(rows, serials, linea);
      rows := rows.(pedidos := rows.pedidos[id := linea]);
      serials := serials.(pedido := id + 1);
      l := Some(linea);
    }

    /**
     * `UPDATE pedidos SET estado = $1 WHERE id = $2 RETURNING ...`: raises (`ok`
     * false) when the id is no INTEGER, otherwise the updated row, if there was one.
     */
    method SetPedidoEstado(id: int, e: PedidoEstado) returns (ok: bool, l: Option<Pedido>)
      requires Valid()
      modifies this
      ensures ok <==> EnteroCabe(id)
      ensures l.Some? <==> EnteroCabe(id) && id in old(rows.pedidos)
      ensures l.Some? ==>
                && l.value == old(rows.pedidos)[id].(estado := e)
                && rows == old(rows).(pedidos := old(rows.pedidos)[id := l.value])
      ensures l.None? ==> rows == old(rows)
      ensures serials == old(serials) && clock == old(clock) && events == old(events)
      ensures Valid()
    {
      ok := EnteroCabe(id);
      if !ok || id !in rows.pedidos {
        return ok, None;
      }
      var linea := rows.pedidos[id].(estado := e);
      PedidoEstadoKeeps(rows, id, e);
      Replace(rows, serials, rows.(pedidos := rows.pedidos[id := linea]));
      rows := rows.(pedidos := rows.pedidos[id := linea]);
      l := Some(linea);
    }

    /**
     * `INSERT INTO pagos`: fails on the foreign key to `cuentas` or when a value
     * does not fit its column; a `cuenta_id` that is no INTEGER fails before the
     * sequence is drawn from. `monto` is None where the statement gives none.
     */
    method InsertPago(cuentaId: int, monto: Option<int>, metodoPago: string, clienteNombre: string,
                      referencia: Option<string>, now: nat) returns (ok: bool)
      requires Valid()
      modifies this
      ensures serials == old(serials).(pago := old(serials.pago) + if EnteroCabe(cuentaId) then 1 else 0)
      ensures ok <==> EnteroCabe(cuentaId) && cuentaId in old(rows.cuentas) && PagoCabe(monto, metodoPago, clienteNombre)
      ensures ok ==>
                rows == old(rows).(pagos := old(rows.pagos) +
                                     [Pago(old(serials.pago), cuentaId, monto, metodoPago, clienteNombre, referencia, now)])
      ensures !ok ==> rows == old(rows)
      ensures clock == old(clock) && events == old(events)
      ensures NotAfter(old(serials), serials) && Valid()
    {
      var id := serials.pago;
      if !EnteroCabe(cuentaId) {
        return false;
      }
      Advance(rows, serials, serials.(pago := id + 1));
      serials := serials.(pago := id + 1);
      ok := cuentaId in rows.cuentas && PagoCabe(monto, metodoPago, clienteNombre);
      if ok {
        var pago := Pago(id, cuentaId, monto, metodoPago, clienteNombre, referencia, now);
        PagoAppendKeeps(rows, pago);
        Replace(rows, serials, rows.(pagos := rows.pagos + [pago]));
        rows := rows.(pagos := rows.pagos + [pago]);
      }
    }

    /** `UPDATE cuentas SET estado = 'pagada' WHERE id = $1`. */
    method MarcarPagada(id: int)
      requires Valid()
      modifies this
      ensures id in old(rows.cuentas) ==>
                rows == old(rows).(cuentas := old(rows.cuentas)[id := old(rows.cuentas)[id].(estado := Pagada)])
      ensures id !in old(rows.cuentas) ==> rows == old(rows)
      ensures serials == old(serials) && clock == old(clock) && events == old(events)
      ensures Valid()
    {
      if id in rows.cuentas {
        CuentaPagadaKeeps(rows, id);
        Replace(rows, serials, rows.(cuentas := rows.cuentas[id := rows.cuentas[id].(estado := Pagada)]));
        rows := rows.(cuentas := rows.cuentas[id := rows.cuentas[id].(estado := Pagada)]);
      }
    }

    /**
     * `INSERT INTO usuarios (nombre, username, password_hash, rol_id)`, active by
     * default: fails on the foreign key to `roles`, on the UNIQUE username, or
     * when a value does not fit its column; a `rol_id` that is no INTEGER fails
     * before the sequence is drawn from.
     */
    method InsertUsuario(nombre: string, username: string, passwordHash: string, rolId: int, now: nat)
      returns (u: Option<Usuario>)
      requires Valid()
      modifies this
      ensures serials == old(serials).(usuario := old(serials.usuario) + if EnteroCabe(rolId) then 1 else 0)
      ensures u.Some? <==>
                && rolId in old(rows.roles)
                && (forall k :: k in old(rows.usuarios) ==> old(rows.usuarios)[k].username != username)
                && UsuarioCabe(nombre, username, passwordHash)
      ensures u.Some? ==>
                && u.value == Usuario(old(serials.usuario), nombre, username, passwordHash, rolId, true, now)
                && u.value.id !in old(rows.usuarios)
                && rows == old(rows).(usuarios := old(rows.usuarios)[u.value.id := u.value])
      ensures u.None? ==> rows == old(rows)
      ensures clock == old(clock) && events == old(events)
      ensures NotAfter(old(serials), serials) && Valid()
    {
      var id := serials.usuario;
      if !EnteroCabe(rolId) {
        return None;
      }
      if !(&& rolId in rows.roles
           && (forall k :: k in rows.usuarios ==> rows.usuarios[k].username != username)
           && UsuarioCabe(nombre, username, passwordHash)) {
        Advance(rows, serials, serials.(usuario := id + 1));
        serials := serials.(usuario := id + 1);
        return None;
      }
      var usuario := Usuario(id, nombre, username, passwordHash, rolId, true, now);
      DrawUsuario(rows, serials, usuario);
      rows := rows.(usuarios := rows.usuarios[id := usuario]);
      serials := serials.(usuario := id + 1);
      u := Some(usuario);
    }
  }
}
