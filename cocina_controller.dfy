/**
 * src/controllers/cocinaController.js: the kitchen queue, and moving an order
 * line through its kitchen states with a broadcast when it is ready.
 */
module CocinaController {
  import opened Base
  import opened Collections
  import opened Schema
  import opened Store
  import opened Orden

  // ------------------------------------------------------- obtenerPendientes

  /** One row of the kitchen queue. */
  datatype Comanda = Comanda(pedidoId: int, cantidad: int, clienteNombre: string, estado: PedidoEstado,
                             creadoEn: nat, platillo: string, mesaNumero: int)

  /** `WHERE p.estado IN ('pendiente', 'preparando')`. */
  predicate EnCocina(e: PedidoEstado) {
    e == Pendiente || e == Preparando
  }

  /** Line `k` is waiting in the kitchen and survives the three inner joins. */
  predicate EnCola(t: Tables, k: int) {
    && k in t.pedidos
    && EnCocina(t.pedidos[k].estado)
    && t.pedidos[k].productoId in t.productos
    && t.pedidos[k].cuentaId in t.cuentas
    && t.cuentas[t.pedidos[k].cuentaId].mesaId in t.mesas
  }

  function ComandaDe(t: Tables, k: int): (c: Comanda)
    requires EnCola(t, k)
    ensures c.pedidoId == t.pedidos[k].id && EnCocina(c.estado)
  {
    var p := t.pedidos[k];
    Comanda(p.id, p.cantidad, p.clienteNombre, p.estado, p.creadoEn, t.productos[p.productoId].nombre,
            t.mesas[t.cuentas[p.cuentaId].mesaId].numero)
  }

  /** The ids of the waiting lines, smallest first. */
  function ColaIds(t: Tables): (ks: seq<int>)
    ensures Increasing(ks)
    ensures forall k :: k in ks <==> EnCola(t, k)
  {
    Filter(SortedKeys(t.pedidos.Keys), k => EnCola(t, k))
  }

  /** `c` is the queue row of some waiting line. */
  ghost predicate EsComanda(t: Tables, c: Comanda) {
    exists k :: EnCola(t, k) && c == ComandaDe(t, k)
  }

  /** The queue rows of the lines `ks`, in that order. */
  function Comandas(t: Tables, ks: seq<int>): (r: seq<Comanda>)
    requires forall i :: 0 <= i < |ks| ==> EnCola(t, ks[i])
    ensures |r| == |ks|
    ensures forall i :: 0 <= i < |ks| ==> r[i] == ComandaDe(t, ks[i])
    ensures forall k :: k in ks ==> ComandaDe(t, k) in r
    ensures forall c :: c in r ==> EsComanda(t, c)
  {
    if ks == [] then []
    else
      var c := ComandaDe(t, ks[0]);
      assert EsComanda(t, c);
      var rest := ks[1..];
      assert forall k :: k in ks ==> k == ks[0] || k in rest;
      [c] + Comandas(t, rest)
  }

  /** The queue rows by line id, before the ORDER BY. */
  function ComandasPorId(t: Tables): (r: seq<Comanda>)
    ensures |r| == |ColaIds(t)|
    ensures forall i :: 0 <= i < |r| ==> r[i] == ComandaDe(t, ColaIds(t)[i])
    ensures forall k :: EnCola(t, k) ==> ComandaDe(t, k) in r
    ensures forall c :: c in r ==> EsComanda(t, c)
  {
    var ks := ColaIds(t);
    assert forall i :: 0 <= i < |ks| ==> ks[i] in ks;
    Comandas(t, ks)
  }

  /** `ORDER BY p.creado_en ASC`. */
  predicate AntesQue(a: Comanda, b: Comanda) {
    a.creadoEn <= b.creadoEn
  }

  /** obtenerPendientes: the waiting lines, oldest first. */
  function ObtenerPendientes(t: Tables): (r: seq<Comanda>)
    ensures multiset(r) == multiset(ComandasPorId(t))
    ensures forall i :: 0 < i < |r| ==> r[i - 1].creadoEn <= r[i].creadoEn
  {
    SortBy(ComandasPorId(t), AntesQue)
  }

  /**
   * With every reference in place, the queue holds exactly the lines in state
   * 'pendiente' or 'preparando', each with its dish name and table number, one
   * row per such line.
   */
  lemma PendientesExactos(t: Tables)
    requires Referenced(t)
    ensures |ObtenerPendientes(t)| == |ColaIds(t)|
    ensures forall k :: k in t.pedidos && EnCocina(t.pedidos[k].estado) ==> ComandaDe(t, k) in ObtenerPendientes(t)
    ensures forall c :: c in ObtenerPendientes(t) ==> EnCocina(c.estado) && EsComanda(t, c)
  {
    var r := ObtenerPendientes(t);
    var p := ComandasPorId(t);
    MismosElementos(r, p);
    forall k | k in t.pedidos && EnCocina(t.pedidos[k].estado) ensures ComandaDe(t, k) in r {
      assert EnCola(t, k);
      assert ComandaDe(t, k) in p;
    }
    forall c | c in r ensures EnCocina(c.estado) && EsComanda(t, c) {
      assert c in p;
      var k :| EnCola(t, k) && c == ComandaDe(t, k);
    }
  }

  /** With every line stored under its own id, each waiting line is in the queue exactly once. */
  lemma {:induction false} PendientesUnaVez(t: Tables)
    requires forall k :: k in t.pedidos ==> t.pedidos[k].id == k
    ensures forall k :: EnCola(t, k) ==> multiset(ObtenerPendientes(t))[ComandaDe(t, k)] == 1
  {
    var ks := ColaIds(t);
    var p := ComandasPorId(t);
    assert SinRepetir(p) by {
      forall i, j | 0 <= i < j < |p| ensures p[i] != p[j] {
        assert p[i].pedidoId == ks[i] && p[j].pedidoId == ks[j];
      }
    }
    forall k | EnCola(t, k) ensures multiset(ObtenerPendientes(t))[ComandaDe(t, k)] == 1 {
      var i :| 0 <= i < |ks| && ks[i] == k;
      assert p[i] == ComandaDe(t, k);
      UnaVez(p, ComandaDe(t, k));
    }
  }

  // ----------------------------------------------------- cambiarEstadoPedido

  /** `RETURNING id, cuenta_id, producto_id, cantidad, cliente_nombre, estado`: the line without its timestamp. */
  datatype LineaActualizada = LineaActualizada(id: int, cuentaId: int, productoId: int, cantidad: int,
                                               clienteNombre: string, estado: PedidoEstado)

  function Actualizada(p: Pedido): (l: LineaActualizada)
    ensures l.id == p.id && l.cuentaId == p.cuentaId && l.productoId == p.productoId
    ensures l.cantidad == p.cantidad && l.clienteNombre == p.clienteNombre && l.estado == p.estado
  {
    LineaActualizada(p.id, p.cuentaId, p.productoId, p.cantidad, p.clienteNombre, p.estado)
  }

  const MSG_ESTADO := "El estado debe ser 'preparando', 'listo' o 'entregado'"

  /** estadoSchema: the states the kitchen may set. */
  function EstadoDe(s: string): (e: Option<PedidoEstado>)
    ensures e.Some? ==> e.value != Pendiente
  {
    if s == "preparando" then Some(Preparando)
    else if s == "listo" then Some(Listo)
    else if s == "entregado" then Some(Entregado)
    else None
  }

  /** The text the database stores for a state. */
  function NombreEstado(e: PedidoEstado): string {
    match e
    case Pendiente => "pendiente"
    case Preparando => "preparando"
    case Listo => "listo"
    case Entregado => "entregado"
  }

  /** The schema accepts exactly the names of the three states after 'pendiente', and reads each as its own. */
  lemma EstadoDeNombre(s: string, e: PedidoEstado)
    ensures EstadoDe(s) == Some(e) <==> e != Pendiente && s == NombreEstado(e)
  {
  }

  /**
   * cambiarEstadoPedido: set any of the three states, whatever the current
   * one (no transition check); 404 when there is no such line, 500 when the
   * id is no INTEGER. Only 'listo' is broadcast, with the table number, the
   * diner and the line id.
   */
  method CambiarEstadoPedido(db: Db, pedidoId: int, nuevoEstado: string) returns (r: Status<LineaActualizada>)
    requires db.Valid()
    modifies db
    ensures EstadoDe(nuevoEstado).None? ==> r == BadRequest(Invalid([MSG_ESTADO])) && unchanged(db)
    ensures EstadoDe(nuevoEstado).Some? && !EnteroCabe(pedidoId) ==>
              r == InternalError && db.rows == old(db.rows) && db.events == old(db.events)
    ensures EstadoDe(nuevoEstado).Some? && EnteroCabe(pedidoId) && pedidoId !in old(db.rows.pedidos) ==>
              r == NotFound && db.rows == old(db.rows) && db.events == old(db.events)
    ensures r.Ok? <==> EstadoDe(nuevoEstado).Some? && EnteroCabe(pedidoId) && pedidoId in old(db.rows.pedidos)
    ensures r.Ok? ==>
              var linea := old(db.rows.pedidos[pedidoId]).(estado := EstadoDe(nuevoEstado).value);
              && r.value == Actualizada(linea)
              && db.rows == old(db.rows).(pedidos := old(db.rows.pedidos)[pedidoId := linea])
    ensures r.Ok? && nuevoEstado == "listo" ==>
              db.events == old(db.events) +
                           [PedidoListo(MesaNumeroDe(old(db.rows), r.value.cuentaId), r.value.clienteNombre, r.value.id)]
    ensures nuevoEstado != "listo" ==> db.events == old(db.events)
    ensures db.serials == old(db.serials) && db.clock == old(db.clock)
    ensures db.Valid()
  {
    var e := EstadoDe(nuevoEstado);
    if e.None? {
      return BadRequest(Invalid([MSG_ESTADO]));
    }
    var ok, linea := db.SetPedidoEstado(pedidoId, e.value);
    if !ok {
      return InternalError;
    }
    if linea.None? {
      return NotFound;
    }
    if nuevoEstado == "listo" {
      // SELECT m.numero FROM cuentas c JOIN mesas m ON c.mesa_id = m.id WHERE c.id = $1
      var mesa := db.rows.mesas[db.rows.cuentas[linea.value.cuentaId].mesaId].numero;
      db.Emit(PedidoListo(mesa, linea.value.clienteNombre, linea.value.id));
    }
    r := Ok(Actualizada(linea.value));
  }
}
