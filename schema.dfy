/**
 * The relational store of the restaurant: one datatype per row kind, the
 * store as a whole (`Tables`), the events broadcast to connected clients,
 * the outcome of a request, and the integrity rules that the DDL and the
 * handlers together maintain.
 *
 * Money is kept in integer cents: `precio` and `monto` are DECIMAL(10,2).
 */
module Schema {
  import opened Base
  import opened Collections

  // Column limits of the DDL (src/scripts/setup.js).
  const CLIENTE_LEN := 50        // pedidos.cliente_nombre, pagos.cliente_nombre VARCHAR(50)
  const METODO_LEN := 50         // pagos.metodo_pago VARCHAR(50)
  const NOMBRE_LEN := 100        // usuarios.nombre VARCHAR(100)
  const USERNAME_LEN := 50       // usuarios.username VARCHAR(50)
  const HASH_LEN := 255          // usuarios.password_hash VARCHAR(255)
  const INT4_MAX := 0x7fff_ffff  // largest INTEGER
  const MONTO_MAX := 9_999_999_999  // largest DECIMAL(10,2), in cents

  // zod's default messages, for the checks a schema states without a message of its own.
  const MSG_POSITIVO := "Number must be greater than 0"
  const MSG_TEXTO_VACIO := "String must contain at least 1 character(s)"

  // Column defaults of the DDL.
  const CLIENTE_DEFAULT := "General"

  datatype MesaEstado = Disponible | Ocupada
  datatype CuentaEstado = Abierta | Pagada
  datatype PedidoEstado = Pendiente | Preparando | Listo | Entregado

  datatype Mesa = Mesa(id: int, numero: int, capacidad: int, estado: MesaEstado, mesaPadre: Option<int>)
  datatype Cuenta = Cuenta(id: int, mesaId: int, estado: CuentaEstado, creadaEn: nat)
  datatype Categoria = Categoria(id: int, nombre: string)
  datatype Producto = Producto(id: int, categoriaId: Option<int>, nombre: string, descripcion: string,
                               precio: int, disponible: bool)
  datatype Pedido = Pedido(id: int, cuentaId: int, productoId: int, cantidad: int, clienteNombre: string,
                           estado: PedidoEstado, creadoEn: nat)
  datatype Pago = Pago(id: int, cuentaId: int, monto: Option<int>, metodoPago: string, clienteNombre: string,
                       referencia: Option<string>, creadoEn: nat)
  datatype Usuario = Usuario(id: int, nombre: string, username: string, passwordHash: string, rolId: int,
                             activo: bool, creadoEn: nat)

  /** Every row of the store (the SERIAL counters and the clock are kept apart). */
  datatype Tables = Tables(
    roles: set<int>,
    usuarios: map<int, Usuario>,
    mesas: map<int, Mesa>,
    categorias: map<int, Categoria>,
    productos: map<int, Producto>,
    cuentas: map<int, Cuenta>,
    pedidos: map<int, Pedido>,
    pagos: seq<Pago>)

  /** The `accion` field of a `mesas_actualizadas` event. */
  datatype Accion = OcupacionIndividual | FusionYOcupacion | Liberacion

  /** One row of the kitchen detail sent with `nueva_orden_cocina`. */
  datatype DetalleCocina = DetalleCocina(pedidoId: int, platillo: string, cantidad: int, estado: PedidoEstado,
                                         mesaNumero: int)

  /** A broadcast; `mesaId` in `MesasActualizadas` is the table id its message names, if any. */
  datatype Event =
    | MesasActualizadas(accion: Accion, mesaId: Option<int>)
    | NuevaOrdenCocina(mesa: int, detalles: seq<DetalleCocina>)
    | PedidoListo(mesa: int, cliente: string, pedidoId: int)

  /** Why a request was answered with 400. */
  datatype Reason =
    | Invalid(errores: seq<string>)    // the schema's messages
    | CuentaYaAbierta(cuentaId: int)   // the table already has an open tab
    | CuentaNoValida                   // no open tab with that id
    | ProductoNoValido(productoId: int)
    | CuentaYaPagada
    | DatosIncompletos
    | UsernameEnUso

  /** The outcome of a handler, one variant per HTTP status family it answers with. */
  datatype Status<+T> =
    | Ok(value: T)
    | BadRequest(why: Reason)
    | Unauthorized
    | Forbidden
    | NotFound
    | InternalError

  // ---------------------------------------------------------------- integrity

  /**
   * Each row is stored under its own positive id (SERIAL PRIMARY KEY). The
   * seeded tables, whose ids no handler draws, hold INTEGER ids.
   */
  ghost predicate Keyed(t: Tables) {
    && (forall r :: r in t.roles ==> 0 < r <= INT4_MAX)
    && (forall k :: k in t.usuarios ==> 0 < k && t.usuarios[k].id == k)
    && (forall k :: k in t.mesas ==> 0 < k <= INT4_MAX && t.mesas[k].id == k)
    && (forall k :: k in t.categorias ==> 0 < k <= INT4_MAX && t.categorias[k].id == k)
    && (forall k :: k in t.productos ==> 0 < k <= INT4_MAX && t.productos[k].id == k)
    && (forall k :: k in t.cuentas ==> 0 < k && t.cuentas[k].id == k)
    && (forall k :: k in t.pedidos ==> 0 < k && t.pedidos[k].id == k)
  }

  /** Every REFERENCES clause of the DDL holds. */
  ghost predicate Referenced(t: Tables) {
    && (forall k {:trigger t.usuarios[k]} :: k in t.usuarios ==> t.usuarios[k].rolId in t.roles)
    && (forall k {:trigger t.mesas[k]} :: k in t.mesas && t.mesas[k].mesaPadre.Some? ==>
          t.mesas[k].mesaPadre.value in t.mesas)
    && (forall k {:trigger t.productos[k]} :: k in t.productos && t.productos[k].categoriaId.Some? ==>
          t.productos[k].categoriaId.value in t.categorias)
    && (forall k {:trigger t.cuentas[k]} :: k in t.cuentas ==> t.cuentas[k].mesaId in t.mesas)
    && (forall k {:trigger t.pedidos[k]} :: k in t.pedidos ==>
          t.pedidos[k].cuentaId in t.cuentas && t.pedidos[k].productoId in t.productos)
    && (forall i :: 0 <= i < |t.pagos| ==> t.pagos[i].cuentaId in t.cuentas)
  }

  /** No two users share a username (UNIQUE). */
  ghost predicate UsernamesUnique(usuarios: map<int, Usuario>) {
    forall a, b :: a in usuarios && b in usuarios && usuarios[a].username == usuarios[b].username ==> a == b
  }

  /** A tab is open on table `mesaId`. */
  predicate AbiertaEn(cuentas: map<int, Cuenta>, k: int, mesaId: int) {
    k in cuentas && cuentas[k].mesaId == mesaId && cuentas[k].estado == Abierta
  }

  /** At most one tab per table is in state 'abierta'. */
  ghost predicate AtMostOneOpenTab(cuentas: map<int, Cuenta>) {
    forall a, b, m :: AbiertaEn(cuentas, a, m) && AbiertaEn(cuentas, b, m) ==> a == b
  }

  ghost predicate Consistent(t: Tables) {
    Keyed(t) && Referenced(t) && UsernamesUnique(t.usuarios) && AtMostOneOpenTab(t.cuentas)
  }

  /**
   * `SELECT id FROM cuentas WHERE mesa_id = $1 AND estado = 'abierta'`, first row:
   * the open tab of a table, if it has one.
   */
  function CuentaAbiertaDe(cuentas: map<int, Cuenta>, mesaId: int): (r: Option<int>)
    ensures r.Some? ==> AbiertaEn(cuentas, r.value, mesaId)
    ensures r.None? ==> forall k :: !AbiertaEn(cuentas, k, mesaId)
  {
    var ks := AbiertasIds(cuentas, mesaId);
    if ks == [] then None else Some(ks[0])
  }

  /** The ids of the open tabs of a table, smallest first. */
  function AbiertasIds(cuentas: map<int, Cuenta>, mesaId: int): (ks: seq<int>)
    ensures Increasing(ks)
    ensures forall k :: k in ks <==> AbiertaEn(cuentas, k, mesaId)
  {
    Filter(SortedKeys(cuentas.Keys), k => AbiertaEn(cuentas, k, mesaId))
  }

  /** Under the one-open-tab rule the open tab found is the only one. */
  lemma {:induction false} CuentaAbiertaUnica(cuentas: map<int, Cuenta>, mesaId: int, k: int)
    requires AtMostOneOpenTab(cuentas) && AbiertaEn(cuentas, k, mesaId)
    ensures CuentaAbiertaDe(cuentas, mesaId) == Some(k)
  {
    var r := CuentaAbiertaDe(cuentas, mesaId);
    assert r.Some? && AbiertaEn(cuentas, r.value, mesaId);
  }

  // ------------------------------------------------------- updates of `mesas`

  /** `UPDATE mesas SET estado = 'ocupada' WHERE id = $1`. */
  function Ocupar(mesas: map<int, Mesa>, id: int): (r: map<int, Mesa>)
    ensures r.Keys == mesas.Keys
    ensures id in r ==> r[id] == mesas[id].(estado := Ocupada)
    ensures forall k :: k in r && k != id ==> r[k] == mesas[k]
  {
    if id in mesas then mesas[id := mesas[id].(estado := Ocupada)] else mesas
  }

  /** `UPDATE mesas SET estado = 'ocupada', mesa_padre_id = $1 WHERE id = ANY($2)`. */
  function Fusionadas(mesas: map<int, Mesa>, principal: int, ids: seq<int>): (r: map<int, Mesa>)
    ensures r.Keys == mesas.Keys
    ensures forall k :: k in r && k in ids ==> r[k] == mesas[k].(estado := Ocupada, mesaPadre := Some(principal))
    ensures forall k :: k in r && k !in ids ==> r[k] == mesas[k]
  {
    map k | k in mesas :: if k in ids then mesas[k].(estado := Ocupada, mesaPadre := Some(principal)) else mesas[k]
  }

  /** Table `k` is the principal `p` or one of the tables merged into it. */
  predicate DelGrupo(mesas: map<int, Mesa>, p: int, k: int)
    requires k in mesas
  {
    k == p || mesas[k].mesaPadre == Some(p)
  }

  /** `UPDATE mesas SET estado = 'disponible', mesa_padre_id = NULL WHERE id = $1 OR mesa_padre_id = $1`. */
  function Liberadas(mesas: map<int, Mesa>, p: int): (r: map<int, Mesa>)
    ensures r.Keys == mesas.Keys
    ensures forall k :: k in r && DelGrupo(mesas, p, k) ==> r[k] == mesas[k].(estado := Disponible, mesaPadre := None)
    ensures forall k :: k in r && !DelGrupo(mesas, p, k) ==> r[k] == mesas[k]
  {
    map k | k in mesas :: if DelGrupo(mesas, p, k) then mesas[k].(estado := Disponible, mesaPadre := None) else mesas[k]
  }

  // ------------------------------------------------ what a row must fit to be stored

  /**
   * `x` is an INTEGER. A statement that compares a larger parameter with an
   * INTEGER column, or stores it in one, raises "integer out of range".
   */
  predicate EnteroCabe(x: int) {
    -INT4_MAX - 1 <= x <= INT4_MAX
  }

  /** Every element of an `int[]` parameter is an INTEGER. */
  predicate IdsCaben(ids: seq<int>) {
    forall i :: 0 <= i < |ids| ==> EnteroCabe(ids[i])
  }

  /** `pedidos.cliente_nombre` VARCHAR(50) and `pedidos.cantidad` INTEGER. */
  predicate PedidoCabe(cantidad: int, clienteNombre: string) {
    |clienteNombre| <= CLIENTE_LEN && EnteroCabe(cantidad)
  }

  /** `pagos.monto` DECIMAL(10,2), `pagos.metodo_pago` VARCHAR(50), `pagos.cliente_nombre` VARCHAR(50). */
  predicate PagoCabe(monto: Option<int>, metodoPago: string, clienteNombre: string) {
    && (monto.Some? ==> -MONTO_MAX <= monto.value <= MONTO_MAX)
    && |metodoPago| <= METODO_LEN
    && |clienteNombre| <= CLIENTE_LEN
  }

  /** `usuarios.nombre` VARCHAR(100), `usuarios.username` VARCHAR(50), `usuarios.password_hash` VARCHAR(255). */
  predicate UsuarioCabe(nombre: string, username: string, passwordHash: string) {
    |nombre| <= NOMBRE_LEN && |username| <= USERNAME_LEN && |passwordHash| <= HASH_LEN
  }

  // ------------------------------------------- each kind of write keeps the rules

  /** Rewriting rows of `mesas` in place (estado, mesa_padre_id) keeps the rules. */
  lemma {:induction false} MesasUpdateKeeps(t: Tables, mesas: map<int, Mesa>)
    requires Consistent(t)
    requires mesas.Keys == t.mesas.Keys
    requires forall k :: k in mesas ==> mesas[k].id == k
    requires forall k :: k in mesas && mesas[k].mesaPadre.Some? ==> mesas[k].mesaPadre.value in mesas
    ensures Consistent(t.(mesas := mesas))
  {
    var t' := t.(mesas := mesas);
    assert Keyed(t');
    assert Referenced(t');
  }

  lemma {:induction false} OcuparKeeps(t: Tables, id: int)
    requires Consistent(t)
    ensures Consistent(t.(mesas := Ocupar(t.mesas, id)))
  {
    MesasUpdateKeeps(t, Ocupar(t.mesas, id));
  }

  /** A merge keeps the rules when the principal exists or no listed table does (the foreign key). */
  lemma {:induction false} FusionKeeps(t: Tables, principal: int, ids: seq<int>)
    requires Consistent(t)
    requires principal in t.mesas || forall k :: k in ids ==> k !in t.mesas
    ensures Consistent(t.(mesas := Fusionadas(t.mesas, principal, ids)))
  {
    var mesas := Fusionadas(t.mesas, principal, ids);
    forall k | k in mesas && mesas[k].mesaPadre.Some? ensures mesas[k].mesaPadre.value in mesas {
      if k !in ids {
        assert mesas[k] == t.mesas[k];
      }
    }
    MesasUpdateKeeps(t, mesas);
  }

  lemma {:induction false} LiberacionKeeps(t: Tables, p: int)
    requires Consistent(t)
    ensures Consistent(t.(mesas := Liberadas(t.mesas, p)))
  {
    var mesas := Liberadas(t.mesas, p);
    forall k | k in mesas && mesas[k].mesaPadre.Some? ensures mesas[k].mesaPadre.value in mesas {
      assert !DelGrupo(t.mesas, p, k) && mesas[k] == t.mesas[k];
    }
    MesasUpdateKeeps(t, mesas);
  }

  /** Adding a tab under a fresh id keeps one open tab per table when its table had none open. */
  lemma AbiertasTrasInsertar(cuentas: map<int, Cuenta>, c: Cuenta)
    requires AtMostOneOpenTab(cuentas) && c.id !in cuentas
    requires c.estado == Abierta ==> forall k :: !AbiertaEn(cuentas, k, c.mesaId)
    ensures AtMostOneOpenTab(cuentas[c.id := c])
  {
    var cuentas' := cuentas[c.id := c];
    forall a, b, m | AbiertaEn(cuentas', a, m) && AbiertaEn(cuentas', b, m) ensures a == b {
      if a != b {
        if a == c.id {
          assert AbiertaEn(cuentas, b, c.mesaId);
        } else if b == c.id {
          assert AbiertaEn(cuentas, a, c.mesaId);
        } else {
          assert AbiertaEn(cuentas, a, m) && AbiertaEn(cuentas, b, m);
        }
      }
    }
  }

  /** Inserting a tab under a fresh id, on an existing table that has no open tab, keeps the rules. */
  lemma {:induction false} CuentaInsertKeeps(t: Tables, c: Cuenta)
    requires Consistent(t)
    requires 0 < c.id && c.id !in t.cuentas && c.mesaId in t.mesas
    requires c.estado == Abierta ==> CuentaAbiertaDe(t.cuentas, c.mesaId).None?
    ensures Consistent(t.(cuentas := t.cuentas[c.id := c]))
  {
    AbiertasTrasInsertar(t.cuentas, c);
    var t' := t.(cuentas := t.cuentas[c.id := c]);
    assert Keyed(t');
    assert Referenced(t');
  }

  /** Marking a tab 'pagada' keeps the rules. */
  lemma {:induction false} CuentaPagadaKeeps(t: Tables, id: int)
    requires Consistent(t) && id in t.cuentas
    ensures Consistent(t.(cuentas := t.cuentas[id := t.cuentas[id].(estado := Pagada)]))
  {
    var cuentas := t.cuentas[id := t.cuentas[id].(estado := Pagada)];
    forall a, b, m | AbiertaEn(cuentas, a, m) && AbiertaEn(cuentas, b, m) ensures a == b {
      assert AbiertaEn(t.cuentas, a, m) && AbiertaEn(t.cuentas, b, m);
    }
    var t' := t.(cuentas := cuentas);
    assert Keyed(t');
    assert Referenced(t');
  }

  /** Inserting an order line under a fresh id, on an existing tab and product, keeps the rules. */
  lemma {:induction false} PedidoInsertKeeps(t: Tables, p: Pedido)
    requires Consistent(t)
    requires 0 < p.id && p.id !in t.pedidos && p.cuentaId in t.cuentas && p.productoId in t.productos
    ensures Consistent(t.(pedidos := t.pedidos[p.id := p]))
  {
    var t' := t.(pedidos := t.pedidos[p.id := p]);
    assert Keyed(t');
    assert Referenced(t');
  }

  /** Changing the kitchen state of an order line keeps the rules. */
  lemma {:induction false} PedidoEstadoKeeps(t: Tables, id: int, e: PedidoEstado)
    requires Consistent(t) && id in t.pedidos
    ensures Consistent(t.(pedidos := t.pedidos[id := t.pedidos[id].(estado := e)]))
  {
    var t' := t.(pedidos := t.pedidos[id := t.pedidos[id].(estado := e)]);
    assert Keyed(t');
    assert Referenced(t');
  }

  /** Appending a payment of an existing tab keeps the rules. */
  lemma {:induction false} PagoAppendKeeps(t: Tables, p: Pago)
    requires Consistent(t) && p.cuentaId in t.cuentas
    ensures Consistent(t.(pagos := t.pagos + [p]))
  {
    var t' := t.(pagos := t.pagos + [p]);
    assert Keyed(t');
    assert Referenced(t') by {
      forall i | 0 <= i < |t'.pagos| ensures t'.pagos[i].cuentaId in t'.cuentas {
        if i < |t.pagos| { assert t'.pagos[i] == t.pagos[i]; }
      }
    }
  }

  /** Inserting a user with an unused username and an existing role keeps the rules. */
  lemma {:induction false} UsuarioInsertKeeps(t: Tables, u: Usuario)
    requires Consistent(t)
    requires 0 < u.id && u.id !in t.usuarios && u.rolId in t.roles
    requires forall k :: k in t.usuarios ==> t.usuarios[k].username != u.username
    ensures Consistent(t.(usuarios := t.usuarios[u.id := u]))
  {
    var t' := t.(usuarios := t.usuarios[u.id := u]);
    assert Keyed(t');
    assert Referenced(t');
  }
}
