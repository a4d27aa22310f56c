/**
 * src/controllers/pedidosController.js: the menu, opening a tab, and taking
 * an order (the controller versions, which check that the tab is open and
 * that every product is available).
 */
module PedidosController {
  import opened Base
  import opened Collections
  import opened Schema
  import opened Store

  import opened Orden

  const MSG_SIN_PLATILLOS := "Debe agregar al menos un platillo"

  // ------------------------------------------------------------------ menu

  datatype MenuItem = MenuItem(id: int, nombre: string, descripcion: string, precio: int, categoria: string)

  /** `JOIN categorias ... WHERE p.disponible = true`: product `k` is on the menu. */
  predicate EnMenu(productos: map<int, Producto>, categorias: map<int, Categoria>, k: int) {
    && k in productos
    && productos[k].disponible
    && productos[k].categoriaId.Some?
    && productos[k].categoriaId.value in categorias
  }

  function ItemDe(productos: map<int, Producto>, categorias: map<int, Categoria>, k: int): MenuItem
    requires EnMenu(productos, categorias, k)
  {
    var p := productos[k];
    MenuItem(p.id, p.nombre, p.descripcion, p.precio, categorias[p.categoriaId.value].nombre)
  }

  /** The ids of the products on the menu, smallest first. */
  function MenuIds(productos: map<int, Producto>, categorias: map<int, Categoria>): (ks: seq<int>)
    ensures Increasing(ks)
    ensures forall k :: k in ks <==> EnMenu(productos, categorias, k)
  {
    Filter(SortedKeys(productos.Keys), k => EnMenu(productos, categorias, k))
  }

  /** The menu rows of the products `ks`, in that order. */
  function MenuItems(productos: map<int, Producto>, categorias: map<int, Categoria>, ks: seq<int>): (r: seq<MenuItem>)
    requires forall k :: k in ks ==> EnMenu(productos, categorias, k)
    ensures |r| == |ks|
    ensures forall i :: 0 <= i < |r| ==> r[i] == ItemDe(productos, categorias, ks[i])
  {
    if ks == [] then [] else [ItemDe(productos, categorias, ks[0])] + MenuItems(productos, categorias, ks[1..])
  }

  /** The menu rows before ordering, by product id. */
  function MenuRows(productos: map<int, Producto>, categorias: map<int, Categoria>): seq<MenuItem>
  {
    MenuItems(productos, categorias, MenuIds(productos, categorias))
  }

  /** `ORDER BY c.nombre, p.nombre`. */
  predicate MenuLe(a: MenuItem, b: MenuItem) {
    if a.categoria != b.categoria then LexLe(a.categoria, b.categoria) else LexLe(a.nombre, b.nombre)
  }

  lemma MenuLeTotal()
    ensures Total(MenuLe)
  {
    forall a, b ensures MenuLe(a, b) || MenuLe(b, a) {
      LexTotal(a.categoria, b.categoria);
      LexTotal(a.nombre, b.nombre);
    }
  }

  /**
   * obtenerMenu: the menu rows, ordered by category name and then product name
   * (an ORDER BY, so a permutation of the rows in any other order).
   */
  function ObtenerMenu(productos: map<int, Producto>, categorias: map<int, Categoria>): (r: seq<MenuItem>)
    ensures multiset(r) == multiset(MenuRows(productos, categorias))
    ensures forall i :: 0 < i < |r| ==>
              if r[i - 1].categoria != r[i].categoria then LexLe(r[i - 1].categoria, r[i].categoria)
              else LexLe(r[i - 1].nombre, r[i].nombre)
  {
    MenuLeTotal();
    SortBy(MenuRows(productos, categorias), MenuLe)
  }

  /**
   * The menu lists exactly the available products whose category exists,
   * with its own name, description, price and category name.
   */
  lemma {:induction false} MenuExacto(productos: map<int, Producto>, categorias: map<int, Categoria>)
    requires forall k :: k in productos ==> productos[k].id == k
    ensures forall it :: it in ObtenerMenu(productos, categorias) ==>
              EnMenu(productos, categorias, it.id) && it == ItemDe(productos, categorias, it.id)
    ensures forall k :: EnMenu(productos, categorias, k) ==>
              exists it :: it in ObtenerMenu(productos, categorias) && it.id == k
  {
    var r := ObtenerMenu(productos, categorias);
    var ks := MenuIds(productos, categorias);
    var rows := MenuRows(productos, categorias);
    forall it | it in r ensures EnMenu(productos, categorias, it.id) && it == ItemDe(productos, categorias, it.id) {
      assert it in multiset(rows);
      var i :| 0 <= i < |rows| && rows[i] == it;
      assert ks[i] in ks;
    }
    forall k | EnMenu(productos, categorias, k) ensures exists it :: it in r && it.id == k {
      var i :| 0 <= i < |ks| && ks[i] == k;
      assert rows[i] in multiset(r);
      assert rows[i].id == k;
    }
  }

  /** Each product on the menu is listed exactly once, and the menu has one row per such product. */
  lemma {:induction false} MenuUnaVez(productos: map<int, Producto>, categorias: map<int, Categoria>)
    requires forall k :: k in productos ==> productos[k].id == k
    ensures |ObtenerMenu(productos, categorias)| == |MenuIds(productos, categorias)|
    ensures forall k :: EnMenu(productos, categorias, k) ==>
              multiset(ObtenerMenu(productos, categorias))[ItemDe(productos, categorias, k)] == 1
  {
    var ks := MenuIds(productos, categorias);
    var rows := MenuRows(productos, categorias);
    assert SinRepetir(rows) by {
      forall i, j | 0 <= i < j < |rows| ensures rows[i] != rows[j] {
        assert rows[i].id == ks[i] && rows[j].id == ks[j];
      }
    }
    forall k | EnMenu(productos, categorias, k)
      ensures multiset(ObtenerMenu(productos, categorias))[ItemDe(productos, categorias, k)] == 1
    {
      var i :| 0 <= i < |ks| && ks[i] == k;
      assert rows[i] == ItemDe(productos, categorias, k);
      UnaVez(rows, ItemDe(productos, categorias, k));
    }
  }

  // ------------------------------------------------------------ abrirCuenta

  /** cuentaSchema: `mesa_id` a positive integer. */
  function CuentaErrores(mesaId: int, msg: string): (errs: seq<string>)
    ensures errs == [] <==> mesaId > 0
    ensures errs != [] ==> errs == [msg]
  {
    if mesaId > 0 then [] else [msg]
  }

  /**
   * abrirCuenta: refuse a table that already has an open tab; otherwise, in one
   * transaction, insert an open tab and mark the table occupied, then broadcast.
   * A `mesa_id` beyond `INTEGER` fails the first SELECT, which is a 500.
   */
  method AbrirCuenta(db: Db, mesaId: int) returns (r: Status<Cuenta>)
    requires db.Valid()
    modifies db
    ensures mesaId <= 0 ==> r == BadRequest(Invalid([MSG_POSITIVO])) && unchanged(db)
    ensures mesaId > 0 && !EnteroCabe(mesaId) ==> r == InternalError && unchanged(db)
    ensures mesaId > 0 && EnteroCabe(mesaId) && CuentaAbiertaDe(old(db.rows.cuentas), mesaId).Some? ==>
              r == BadRequest(CuentaYaAbierta(CuentaAbiertaDe(old(db.rows.cuentas), mesaId).value)) && unchanged(db)
    ensures mesaId > 0 && CuentaAbiertaDe(old(db.rows.cuentas), mesaId).None? && mesaId !in old(db.rows.mesas) ==>
              r == InternalError && db.rows == old(db.rows) && db.events == old(db.events)
    ensures r.Ok? <==> mesaId > 0 && CuentaAbiertaDe(old(db.rows.cuentas), mesaId).None? && mesaId in old(db.rows.mesas)
    ensures r.Ok? ==>
              && r.value == Cuenta(old(db.serials.cuenta), mesaId, Abierta, old(db.clock))
              && r.value.id !in old(db.rows.cuentas)
              && db.rows == old(db.rows).(cuentas := old(db.rows.cuentas)[r.value.id := r.value],
                                          mesas := Ocupar(old(db.rows.mesas), mesaId))
              && db.events == old(db.events) + [MesasActualizadas(OcupacionIndividual, Some(mesaId))]
    ensures db.Valid()
  {
    var errs := CuentaErrores(mesaId, MSG_POSITIVO);
    if errs != [] {
      return BadRequest(Invalid(errs));
    }
    // the SELECT compares mesa_id with an INTEGER column
    if !EnteroCabe(mesaId) {
      return InternalError;
    }
    var existente := CuentaAbiertaDe(db.rows.cuentas, mesaId);
    if existente.Some? {
      return BadRequest(CuentaYaAbierta(existente.value));
    }
    var saved := db.rows;
    ghost var before := db.serials;
    var now := db.Begin();
    var cuenta := db.InsertCuenta(mesaId, now);
    if cuenta.None? {
      db.Rollback(saved, before);
      return InternalError;
    }
    var ocupada := db.OcuparMesa(mesaId);
    // COMMIT
    db.Emit(MesasActualizadas(OcupacionIndividual, Some(mesaId)));
    r := Ok(cuenta.value);
  }

  // ------------------------------------------------------------- tomarOrden

  /** `SELECT id FROM productos WHERE id = $1 AND disponible = true` finds a row. */
  predicate Disponible(productos: map<int, Producto>, productoId: int) {
    productoId in productos && productos[productoId].disponible
  }

  /** The row fits its columns: `cliente_nombre` VARCHAR(50) and `cantidad` INTEGER. */
  predicate Cabe(p: Platillo) {
    PedidoCabe(p.cantidad, p.clienteNombre)
  }

  /** The product SELECT runs (the id is an INTEGER) and finds no available product. */
  predicate NoDisponible(productos: map<int, Producto>, productoId: int) {
    EnteroCabe(productoId) && !Disponible(productos, productoId)
  }

  /** The loop of tomarOrden gets past entry `p` without a rollback. */
  predicate Aceptado(productos: map<int, Producto>, p: Platillo) {
    EnteroCabe(p.productoId) && Disponible(productos, p.productoId) && Cabe(p)
  }

  /** The index of the first entry the loop rejects, or `|ps|` when there is none. */
  function PrimerRechazo(productos: map<int, Producto>, ps: seq<Platillo>): (k: nat)
    ensures k <= |ps|
    ensures forall i :: 0 <= i < k ==> Aceptado(productos, ps[i])
    ensures k < |ps| ==> !Aceptado(productos, ps[k])
  {
    if ps == [] then 0
    else if !Aceptado(productos, ps[0]) then 0
    else
      var k := PrimerRechazo(productos, ps[1..]);
      assert forall i :: 1 <= i < k + 1 ==> ps[i] == ps[1..][i - 1];
      k + 1
  }

  /** Tab `cuentaId` exists and is 'abierta'. */
  predicate CuentaAbierta(cuentas: map<int, Cuenta>, cuentaId: int) {
    cuentaId in cuentas && cuentas[cuentaId].estado == Abierta
  }

  /**
   * The loop of tomarOrden has inserted, into the tables `saved`, the lines of
   * the first `i` entries, drawing their ids from `before`, and none of these
   * entries was refused.
   */
  ghost predicate Cargadas(saved: Tables, before: Serials, cuentaId: int, platillos: seq<Platillo>, now: nat,
                           i: nat, insertados: seq<Pedido>, rows: Tables, serials: Serials) {
    && i <= PrimerRechazo(saved.productos, platillos)
    && Insertadas(saved, before, cuentaId, platillos, now, i, insertados, rows, serials)
  }

  /**
   * One pass of the loop of tomarOrden, on entry `i`: look the product up
   * (500 when its id is no INTEGER, 400 when it is missing or unavailable),
   * then insert the line (500 when the row does not fit its columns).
   */
  method InsertarPlatillo(db: Db, cuentaId: int, platillos: seq<Platillo>, i: nat, now: nat,
                          ghost saved: Tables, ghost before: Serials, ghost insertados: seq<Pedido>)
    returns (r: Status<Pedido>)
    requires db.Valid() && EnteroCabe(cuentaId) && cuentaId in saved.cuentas && i < |platillos|
    requires Cargadas(saved, before, cuentaId, platillos, now, i, insertados, db.rows, db.serials)
    modifies db
    ensures r.Ok? ==> Cargadas(saved, before, cuentaId, platillos, now, i + 1, insertados + [r.value], db.rows, db.serials)
    ensures !r.Ok? ==> PrimerRechazo(saved.productos, platillos) == i
    ensures NoDisponible(saved.productos, platillos[i].productoId) ==> r == BadRequest(ProductoNoValido(platillos[i].productoId))
    ensures !NoDisponible(saved.productos, platillos[i].productoId) && !r.Ok? ==> r == InternalError
    ensures NotAfter(old(db.serials), db.serials)
    ensures db.events == old(db.events) && db.clock == old(db.clock)
    ensures db.Valid()
  {
    var item := platillos[i];
    // SELECT id FROM productos WHERE id = $1 AND disponible = true
    if !EnteroCabe(item.productoId) {
      return InternalError;
    }
    if !Disponible(db.rows.productos, item.productoId) {
      return BadRequest(ProductoNoValido(item.productoId));
    }
    ghost var antes := db.rows;
    var linea := db.InsertPedido(cuentaId, item.productoId, item.cantidad, item.clienteNombre, now);
    if linea.None? {
      return InternalError;
    }
    AgregadosSnoc(saved, insertados, linea.value, antes, db.rows);
    LineasSnoc(cuentaId, platillos, i, before.pedido, now, insertados, linea.value);
    r := Ok(linea.value);
  }

  /**
   * The `for` loop of tomarOrden: insert one line per entry, stopping at the
   * first entry refused. The caller rolls back.
   */
  method InsertarLineas(db: Db, cuentaId: int, platillos: seq<Platillo>, now: nat) returns (r: Status<seq<Pedido>>)
    requires db.Valid() && EnteroCabe(cuentaId) && CuentaAbierta(db.rows.cuentas, cuentaId)
    modifies db
    ensures var k := PrimerRechazo(old(db.rows.productos), platillos);
            && (r.Ok? <==> k == |platillos|)
            && (k < |platillos| && NoDisponible(old(db.rows.productos), platillos[k].productoId) ==>
                  r == BadRequest(ProductoNoValido(platillos[k].productoId)))
            && (k < |platillos| && !NoDisponible(old(db.rows.productos), platillos[k].productoId) ==> r == InternalError)
    ensures r.Ok? ==> r.value == Lineas(cuentaId, platillos, old(db.serials.pedido), now)
    ensures r.Ok? ==> db.rows == old(db.rows).(pedidos := Agregados(old(db.rows.pedidos), r.value))
    ensures NotAfter(old(db.serials), db.serials)
    ensures db.events == old(db.events) && db.clock == old(db.clock)
    ensures db.Valid()
  {
    ghost var saved := db.rows;
    ghost var before := db.serials;
    var insertados: seq<Pedido> := [];
    var i := 0;
    assert platillos[..0] == [];
    while i < |platillos|
      invariant Cargadas(saved, before, cuentaId, platillos, now, i, insertados, db.rows, db.serials)
      invariant db.events == old(db.events) && db.clock == old(db.clock)
      invariant db.Valid()
    {
      var paso := InsertarPlatillo(db, cuentaId, platillos, i, now, saved, before, insertados);
      if !paso.Ok? {
        r := if paso.BadRequest? then BadRequest(paso.why) else InternalError;
        return;
      }
      insertados := insertados + [paso.value];
      i := i + 1;
    }
    assert platillos[..i] == platillos;
    r := Ok(insertados);
  }

  /**
   * tomarOrden: validate, require an open tab, then insert one pending line per
   * entry in order, rolling back everything at the first unavailable product
   * (400) or failing statement (500; an id that is no INTEGER makes its
   * SELECT raise); on commit, broadcast the kitchen detail.
   */
  method TomarOrden(db: Db, cuentaId: int, platillos: seq<Platillo>) returns (r: Status<seq<Pedido>>)
    requires db.Valid()
    modifies db
    ensures !OrdenValida(cuentaId, platillos) ==>
              r == BadRequest(Invalid(OrdenErrores(cuentaId, platillos, MSG_SIN_PLATILLOS, MSG_TEXTO_VACIO)))
              && unchanged(db)
    ensures OrdenValida(cuentaId, platillos) && !EnteroCabe(cuentaId) ==>
              && r == InternalError
              && db.rows == old(db.rows) && db.serials == old(db.serials) && db.events == old(db.events)
    ensures OrdenValida(cuentaId, platillos) && EnteroCabe(cuentaId) && !CuentaAbierta(old(db.rows.cuentas), cuentaId) ==>
              && r == BadRequest(CuentaNoValida)
              && db.rows == old(db.rows) && db.serials == old(db.serials) && db.events == old(db.events)
    ensures OrdenValida(cuentaId, platillos) && EnteroCabe(cuentaId) && CuentaAbierta(old(db.rows.cuentas), cuentaId) ==>
              var k := PrimerRechazo(old(db.rows.productos), platillos);
              && (k < |platillos| && NoDisponible(old(db.rows.productos), platillos[k].productoId) ==>
                    r == BadRequest(ProductoNoValido(platillos[k].productoId)))
              && (k < |platillos| && !NoDisponible(old(db.rows.productos), platillos[k].productoId) ==> r == InternalError)
              && (k < |platillos| ==> db.rows == old(db.rows) && db.events == old(db.events))
              && (k == |platillos| ==> r.Ok?)
    ensures r.Ok? ==> EnteroCabe(cuentaId) && CuentaAbierta(old(db.rows.cuentas), cuentaId)
    ensures r.Ok? ==> r.value == Lineas(cuentaId, platillos, old(db.serials.pedido), old(db.clock))
    ensures r.Ok? ==> db.rows == old(db.rows).(pedidos := Agregados(old(db.rows.pedidos), r.value))
    ensures r.Ok? ==> Extended(old(db.rows.pedidos), db.rows.pedidos, r.value)
    ensures r.Ok? ==>
              var mesa := MesaNumeroDe(old(db.rows), cuentaId);
              db.events == old(db.events) + [NuevaOrdenCocina(mesa, Detalles(r.value, db.rows.productos, mesa))]
    ensures db.Valid()
  {
    var errs := OrdenErrores(cuentaId, platillos, MSG_SIN_PLATILLOS, MSG_TEXTO_VACIO);
    if errs != [] {
      return BadRequest(Invalid(errs));
    }
    var saved := db.rows;
    ghost var before := db.serials;
    var now := db.Begin();
    // SELECT id, mesa_id FROM cuentas WHERE id = $1 AND estado = 'abierta'
    if !EnteroCabe(cuentaId) {
      db.Rollback(saved, before);
      return InternalError;
    }
    if !CuentaAbierta(db.rows.cuentas, cuentaId) {
      db.Rollback(saved, before);
      return BadRequest(CuentaNoValida);
    }
    r := InsertarLineas(db, cuentaId, platillos, now);
    if !r.Ok? {
      db.Rollback(saved, before);
      return r;
    }
    var insertados := r.value;
    LineasDesde(cuentaId, platillos, before.pedido, now);
    InsertadosIds(insertados, cuentaId, platillos, before.pedido, now);
    AgregadosExtended(saved.pedidos, insertados, before.pedido);
    var mesa := db.rows.mesas[db.rows.cuentas[cuentaId].mesaId].numero;
    var detalles := Detalles(insertados, db.rows.productos, mesa);
    // COMMIT
    db.Emit(NuevaOrdenCocina(mesa, detalles));
  }
}
