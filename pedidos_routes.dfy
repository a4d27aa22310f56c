/**
 * src/routes/pedidos.js: the versions of the menu, opening a tab and taking
 * an order that the server actually mounts, each behind the token and role
 * middlewares. Unlike the controller, opening a tab leaves the table as it
 * is and broadcasts nothing, and taking an order checks neither that the tab
 * is open nor that the products are available: only the foreign keys and
 * the column types of `pedidos` stop an entry.
 */
module PedidosRoutes {
  import opened Base
  import opened Schema
  import opened Store
  import opened Orden
  import opened PedidosController
  import opened AuthMiddleware

  const ROLES_MENU := [1, 2, 3]
  const ROLES_MESERO := [1, 3]
  const MSG_MESA_INVALIDA := "ID de mesa inválido"
  const MSG_ORDEN_VACIA := "La orden no puede estar vacía"
  const MSG_IDENTIFICAR := "Debes identificar quién pidió esto"

  // ------------------------------------------------------------------ /menu

  /** GET /menu: the controller's menu query, for any of the three roles. */
  method Menu(db: Db, req: Request, verificar: string -> Option<Payload>) returns (r: Status<seq<MenuItem>>)
    requires req.usuario.None? && req.siguientes == 0
    modifies req
    ensures !Autenticado(old(req.authorization), verificar) ==> r == Unauthorized
    ensures Autenticado(old(req.authorization), verificar) && !Autorizado(old(req.authorization), verificar, ROLES_MENU) ==>
              r == Forbidden
    ensures Autorizado(old(req.authorization), verificar, ROLES_MENU) ==>
              r == Ok(ObtenerMenu(db.rows.productos, db.rows.categorias))
  {
    var paso := Proteger(req, verificar, ROLES_MENU);
    if paso.Rechazo? {
      return if paso.status == 401 then Unauthorized else Forbidden;
    }
    r := Ok(ObtenerMenu(db.rows.productos, db.rows.categorias));
  }

  // ---------------------------------------------------------- /abrir-cuenta

  /**
   * POST /abrir-cuenta: refuse a table with an open tab, otherwise insert an
   * open tab on its own (no transaction); the foreign key turns an unknown
   * table into a 500, and so does a `mesa_id` beyond `INTEGER` at the first SELECT.
   */
  method AbrirCuenta(db: Db, req: Request, verificar: string -> Option<Payload>, mesaId: int)
    returns (r: Status<Cuenta>)
    requires db.Valid() && req.usuario.None? && req.siguientes == 0
    modifies db, req
    ensures !Autorizado(old(req.authorization), verificar, ROLES_MESERO) ==> unchanged(db)
    ensures !Autenticado(old(req.authorization), verificar) ==> r == Unauthorized
    ensures Autenticado(old(req.authorization), verificar) && !Autorizado(old(req.authorization), verificar, ROLES_MESERO) ==>
              r == Forbidden
    ensures Autorizado(old(req.authorization), verificar, ROLES_MESERO) ==>
              var abierta := CuentaAbiertaDe(old(db.rows.cuentas), mesaId);
              && (mesaId <= 0 ==> r == BadRequest(Invalid([MSG_MESA_INVALIDA])) && unchanged(db))
              && (mesaId > 0 && !EnteroCabe(mesaId) ==> r == InternalError && unchanged(db))
              && (mesaId > 0 && EnteroCabe(mesaId) && abierta.Some? ==>
                    r == BadRequest(CuentaYaAbierta(abierta.value)) && unchanged(db))
              && (mesaId > 0 && abierta.None? && mesaId !in old(db.rows.mesas) ==> r == InternalError)
              && (r.Ok? <==> mesaId > 0 && abierta.None? && mesaId in old(db.rows.mesas))
    ensures r.Ok? ==>
              && r.value == Cuenta(old(db.serials.cuenta), mesaId, Abierta, old(db.clock))
              && r.value.id !in old(db.rows.cuentas)
              && db.rows == old(db.rows).(cuentas := old(db.rows.cuentas)[r.value.id := r.value])
    ensures !r.Ok? ==> db.rows == old(db.rows)
    ensures db.events == old(db.events)
    ensures db.Valid()
  {
    var paso := Proteger(req, verificar, ROLES_MESERO);
    if paso.Rechazo? {
      return if paso.status == 401 then Unauthorized else Forbidden;
    }
    var errs := CuentaErrores(mesaId, MSG_MESA_INVALIDA);
    if errs != [] {
      return BadRequest(Invalid(errs));
    }
    // the SELECT compares mesa_id with an INTEGER column
    if !EnteroCabe(mesaId) {
      return InternalError;
    }
    var existente := CuentaAbiertaDe(db.rows.cuentas, mesaId);
    if existente.Some? {
      return BadRequest(CuentaYaAbierta(existente.value));
    }
    var now := db.Begin();
    var cuenta := db.InsertCuenta(mesaId, now);
    if cuenta.None? {
      return InternalError;
    }
    r := Ok(cuenta.value);
  }

  // --------------------------------------------------------------- /ordenar

  /** The INSERT of entry `p` succeeds: the tab id is an INTEGER, both foreign keys hold and the row fits its columns. */
  predicate Insertable(cuentas: map<int, Cuenta>, productos: map<int, Producto>, cuentaId: int, p: Platillo) {
    EnteroCabe(cuentaId) && cuentaId in cuentas && p.productoId in productos && Cabe(p)
  }

  /** The index of the first entry whose INSERT fails, or `|ps|` when none does. */
  function PrimerFallo(cuentas: map<int, Cuenta>, productos: map<int, Producto>, cuentaId: int, ps: seq<Platillo>)
    : (k: nat)
    ensures k <= |ps|
    ensures forall i :: 0 <= i < k ==> Insertable(cuentas, productos, cuentaId, ps[i])
    ensures k < |ps| ==> !Insertable(cuentas, productos, cuentaId, ps[k])
  {
    if ps == [] then 0
    else if !Insertable(cuentas, productos, cuentaId, ps[0]) then 0
    else
      var k := PrimerFallo(cuentas, productos, cuentaId, ps[1..]);
      assert forall i :: 1 <= i < k + 1 ==> ps[i] == ps[1..][i - 1];
      k + 1
  }

  /** The loop of /ordenar has inserted the lines of the first `i` entries, and none of them failed. */
  ghost predicate Ingresadas(saved: Tables, before: Serials, cuentaId: int, ps: seq<Platillo>, now: nat,
                             i: nat, insertados: seq<Pedido>, rows: Tables, serials: Serials) {
    && i <= PrimerFallo(saved.cuentas, saved.productos, cuentaId, ps)
    && Insertadas(saved, before, cuentaId, ps, now, i, insertados, rows, serials)
  }

  /** One pass of the loop of /ordenar: the INSERT of entry `i`, which may throw. */
  method InsertarItem(db: Db, cuentaId: int, ps: seq<Platillo>, i: nat, now: nat,
                      ghost saved: Tables, ghost before: Serials, ghost insertados: seq<Pedido>)
    returns (l: Option<Pedido>)
    requires db.Valid() && i < |ps|
    requires Ingresadas(saved, before, cuentaId, ps, now, i, insertados, db.rows, db.serials)
    modifies db
    ensures l.Some? ==> Ingresadas(saved, before, cuentaId, ps, now, i + 1, insertados + [l.value], db.rows, db.serials)
    ensures l.None? ==> PrimerFallo(saved.cuentas, saved.productos, cuentaId, ps) == i
    ensures NotAfter(old(db.serials), db.serials)
    ensures db.events == old(db.events) && db.clock == old(db.clock)
    ensures db.Valid()
  {
    var item := ps[i];
    ghost var antes := db.rows;
    l := db.InsertPedido(cuentaId, item.productoId, item.cantidad, item.clienteNombre, now);
    if l.Some? {
      AgregadosSnoc(saved, insertados, l.value, antes, db.rows);
      LineasSnoc(cuentaId, ps, i, before.pedido, now, insertados, l.value);
    }
  }

  /** The `for` loop of /ordenar: one INSERT per entry, stopping at the first that throws. */
  method InsertarItems(db: Db, cuentaId: int, ps: seq<Platillo>, now: nat) returns (r: Option<seq<Pedido>>)
    requires db.Valid()
    modifies db
    ensures r.Some? <==> PrimerFallo(old(db.rows.cuentas), old(db.rows.productos), cuentaId, ps) == |ps|
    ensures r.Some? ==> r.value == Lineas(cuentaId, ps, old(db.serials.pedido), now)
    ensures r.Some? ==> db.rows == old(db.rows).(pedidos := Agregados(old(db.rows.pedidos), r.value))
    ensures NotAfter(old(db.serials), db.serials)
    ensures db.events == old(db.events) && db.clock == old(db.clock)
    ensures db.Valid()
  {
    ghost var saved := db.rows;
    ghost var before := db.serials;
    var insertados: seq<Pedido> := [];
    var i := 0;
    assert ps[..0] == [];
    while i < |ps|
      invariant Ingresadas(saved, before, cuentaId, ps, now, i, insertados, db.rows, db.serials)
      invariant db.events == old(db.events) && db.clock == old(db.clock)
      invariant db.Valid()
    {
      var l := InsertarItem(db, cuentaId, ps, i, now, saved, before, insertados);
      if l.None? {
        return None;
      }
      insertados := insertados + [l.value];
      i := i + 1;
    }
    assert ps[..i] == ps;
    r := Some(insertados);
  }

  /** Every line of an accepted order names a product that exists. */
  lemma ProductosDeLineas(t: Tables, cuentaId: int, ps: seq<Platillo>, first: int, now: nat)
    requires PrimerFallo(t.cuentas, t.productos, cuentaId, ps) == |ps|
    ensures forall i :: 0 <= i < |ps| ==> Lineas(cuentaId, ps, first, now)[i].productoId in t.productos
  {
  }

  /**
   * POST /ordenar: validate, then in one transaction insert one pending line
   * per entry; any failing INSERT rolls everything back with a 500. On commit,
   * broadcast the kitchen detail of the new lines.
   */
  method Ordenar(db: Db, req: Request, verificar: string -> Option<Payload>, cuentaId: int, ps: seq<Platillo>)
    returns (r: Status<seq<Pedido>>)
    requires db.Valid() && req.usuario.None? && req.siguientes == 0
    modifies db, req
    ensures !Autorizado(old(req.authorization), verificar, ROLES_MESERO) ==> unchanged(db)
    ensures !Autenticado(old(req.authorization), verificar) ==> r == Unauthorized
    ensures Autenticado(old(req.authorization), verificar) && !Autorizado(old(req.authorization), verificar, ROLES_MESERO) ==>
              r == Forbidden
    ensures Autorizado(old(req.authorization), verificar, ROLES_MESERO) && !OrdenValida(cuentaId, ps) ==>
              r == BadRequest(Invalid(OrdenErrores(cuentaId, ps, MSG_ORDEN_VACIA, MSG_IDENTIFICAR))) && unchanged(db)
    ensures Autorizado(old(req.authorization), verificar, ROLES_MESERO) && OrdenValida(cuentaId, ps) ==>
              (r.Ok? <==> PrimerFallo(old(db.rows.cuentas), old(db.rows.productos), cuentaId, ps) == |ps|)
    ensures !r.Ok? ==> db.rows == old(db.rows) && db.events == old(db.events)
    ensures !r.Ok? && r != InternalError ==> db.serials == old(db.serials)
    ensures r.Ok? ==> cuentaId in old(db.rows.cuentas)
    ensures r.Ok? ==> r.value == Lineas(cuentaId, ps, old(db.serials.pedido), old(db.clock))
    ensures r.Ok? ==> db.rows == old(db.rows).(pedidos := Agregados(old(db.rows.pedidos), r.value))
    ensures r.Ok? ==> Extended(old(db.rows.pedidos), db.rows.pedidos, r.value)
    ensures r.Ok? ==>
              var mesa := MesaNumeroDe(old(db.rows), cuentaId);
              db.events == old(db.events) + [NuevaOrdenCocina(mesa, Detalles(r.value, db.rows.productos, mesa))]
    ensures db.Valid()
  {
    var paso := Proteger(req, verificar, ROLES_MESERO);
    if paso.Rechazo? {
      return if paso.status == 401 then Unauthorized else Forbidden;
    }
    var errs := OrdenErrores(cuentaId, ps, MSG_ORDEN_VACIA, MSG_IDENTIFICAR);
    if errs != [] {
      return BadRequest(Invalid(errs));
    }
    var saved := db.rows;
    ghost var before := db.serials;
    var now := db.Begin();
    var insertados := InsertarItems(db, cuentaId, ps, now);
    if insertados.None? {
      db.Rollback(saved, before);
      return InternalError;
    }
    LineasDesde(cuentaId, ps, before.pedido, now);
    InsertadosIds(insertados.value, cuentaId, ps, before.pedido, now);
    AgregadosExtended(saved.pedidos, insertados.value, before.pedido);
    ProductosDeLineas(saved, cuentaId, ps, before.pedido, now);
    var mesa := db.rows.mesas[db.rows.cuentas[cuentaId].mesaId].numero;
    var detalles := Detalles(insertados.value, db.rows.productos, mesa);
    // COMMIT
    db.Emit(NuevaOrdenCocina(mesa, detalles));
    r := Ok(insertados.value);
  }
}
