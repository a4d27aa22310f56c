/**
 * What the two order handlers share: the shape of an order and its schema,
 * the rows an accepted order inserts, and the kitchen detail broadcast for them.
 */
module Orden {
  import opened Base
  import opened Schema
  import opened Store

  /** One entry of `platillos`. */
  datatype Platillo = Platillo(productoId: int, cantidad: int, clienteNombre: string)

  predicate PlatilloValido(p: Platillo) {
    p.productoId > 0 && p.cantidad > 0 && |p.clienteNombre| >= 1
  }

  /** ordenSchema's conditions. */
  predicate OrdenValida(cuentaId: int, platillos: seq<Platillo>) {
    cuentaId > 0 && |platillos| >= 1 && forall i :: 0 <= i < |platillos| ==> PlatilloValido(platillos[i])
  }

  /** The messages of one entry, field by field. */
  function PlatilloErrores(p: Platillo, msgCliente: string): (errs: seq<string>)
    ensures errs == [] <==> PlatilloValido(p)
  {
    (if p.productoId > 0 then [] else [MSG_POSITIVO])
    + (if p.cantidad > 0 then [] else [MSG_POSITIVO])
    + (if |p.clienteNombre| >= 1 then [] else [msgCliente])
  }

  /** The messages of every entry, in order. */
  function PlatillosErrores(ps: seq<Platillo>, msgCliente: string): (errs: seq<string>)
    ensures errs == [] <==> forall i :: 0 <= i < |ps| ==> PlatilloValido(ps[i])
  {
    if ps == [] then []
    else
      var rest := PlatillosErrores(ps[1..], msgCliente);
      assert (forall i :: 0 <= i < |ps| ==> PlatilloValido(ps[i])) <==>
             PlatilloValido(ps[0]) && forall i :: 0 <= i < |ps[1..]| ==> PlatilloValido(ps[1..][i]) by {
        if forall i :: 0 <= i < |ps[1..]| ==> PlatilloValido(ps[1..][i]) {
          forall i | 1 <= i < |ps| ensures PlatilloValido(ps[i]) {
            assert ps[i] == ps[1..][i - 1];
          }
        }
      }
      PlatilloErrores(ps[0], msgCliente) + rest
  }

  /** A schema with `cuenta_id` and `platillos`, parameterised by the two messages that differ between versions. */
  function OrdenErrores(cuentaId: int, ps: seq<Platillo>, msgVacia: string, msgCliente: string): (errs: seq<string>)
    ensures errs == [] <==> OrdenValida(cuentaId, ps)
    ensures ps == [] ==> msgVacia in errs
    ensures cuentaId <= 0 ==> MSG_POSITIVO in errs
  {
    (if cuentaId > 0 then [] else [MSG_POSITIVO])
    + (if |ps| >= 1 then [] else [msgVacia])
    + PlatillosErrores(ps, msgCliente)
  }

  /** The pending line inserted for entry `p` of tab `cuentaId`, under id `id`. */
  function Linea(cuentaId: int, p: Platillo, id: int, now: nat): Pedido {
    Pedido(id, cuentaId, p.productoId, p.cantidad, p.clienteNombre, Pendiente, now)
  }

  /** The pedidos rows inserted for the entries, ids drawn in order from `first`. */
  predicate InsertadosDesde(lineas: seq<Pedido>, cuentaId: int, ps: seq<Platillo>, first: int, now: nat) {
    && |lineas| == |ps|
    && forall i :: 0 <= i < |ps| ==> lineas[i] == Linea(cuentaId, ps[i], first + i, now)
  }

  /** The rows the loop of tomarOrden inserts for the entries `ps`, in order, ids drawn from `first`. */
  function Lineas(cuentaId: int, ps: seq<Platillo>, first: int, now: nat): (r: seq<Pedido>)
    ensures |r| == |ps|
  {
    seq(|ps|, j requires 0 <= j < |ps| => Linea(cuentaId, ps[j], first + j, now))
  }

  /** The line inserted for entry `i` extends the lines of the entries before it. */
  lemma LineasSnoc(cuentaId: int, ps: seq<Platillo>, i: nat, first: int, now: nat,
                    lineas: seq<Pedido>, l: Pedido)
    requires i < |ps|
    requires lineas == Lineas(cuentaId, ps[..i], first, now)
    requires l == Linea(cuentaId, ps[i], first + i, now)
    ensures lineas + [l] == Lineas(cuentaId, ps[..i + 1], first, now)
  {
  }

  /** Entry `i` becomes the pending line numbered `first + i`, carrying that entry's fields. */
  lemma LineasDesde(cuentaId: int, ps: seq<Platillo>, first: int, now: nat)
    ensures InsertadosDesde(Lineas(cuentaId, ps, first, now), cuentaId, ps, first, now)
  {
  }

  /** The order-line table after inserting `lineas` one after the other into `pedidos`. */
  function Agregados(pedidos: map<int, Pedido>, lineas: seq<Pedido>): map<int, Pedido>
  {
    if lineas == [] then pedidos
    else
      var last := lineas[|lineas| - 1];
      Agregados(pedidos, lineas[..|lineas| - 1])[last.id := last]
  }

  /** Inserting one more line into the tables adds exactly its row. */
  lemma {:induction false} AgregadosSnoc(saved: Tables, lineas: seq<Pedido>, l: Pedido, antes: Tables, despues: Tables)
    requires antes == saved.(pedidos := Agregados(saved.pedidos, lineas))
    requires despues == antes.(pedidos := antes.pedidos[l.id := l])
    ensures despues == saved.(pedidos := Agregados(saved.pedidos, lineas + [l]))
  {
    assert (lineas + [l])[..|lineas|] == lineas;
  }

  /**
   * A loop over the entries `ps` has inserted, into the tables `saved`, the
   * lines of the first `i` entries, drawing their ids from `before`.
   */
  ghost predicate Insertadas(saved: Tables, before: Serials, cuentaId: int, ps: seq<Platillo>, now: nat,
                             i: nat, insertados: seq<Pedido>, rows: Tables, serials: Serials) {
    && i <= |ps|
    && serials == before.(pedido := before.pedido + i)
    && insertados == Lineas(cuentaId, ps[..i], before.pedido, now)
    && rows == saved.(pedidos := Agregados(saved.pedidos, insertados))
  }

  /** `after` is `before` with exactly the rows `lineas` added under their ids. */
  ghost predicate Extended(before: map<int, Pedido>, after: map<int, Pedido>, lineas: seq<Pedido>) {
    && (forall k :: k in after <==> k in before || exists i :: 0 <= i < |lineas| && lineas[i].id == k)
    && (forall k :: k in before ==> k in after && after[k] == before[k])
    && (forall i :: 0 <= i < |lineas| ==> lineas[i].id in after && after[lineas[i].id] == lineas[i])
  }

  /** The ids of `lineas` are drawn in order from `first`. */
  predicate IdsDesde(lineas: seq<Pedido>, first: int) {
    forall i :: 0 <= i < |lineas| ==> lineas[i].id == first + i
  }

  /** The rows of `Agregados` are the old ones and the inserted ones. */
  lemma {:induction false} AgregadosKeys(pedidos: map<int, Pedido>, lineas: seq<Pedido>)
    ensures forall k :: k in Agregados(pedidos, lineas) <==> k in pedidos || exists i :: 0 <= i < |lineas| && lineas[i].id == k
    decreases |lineas|
  {
    if lineas != [] {
      var n := |lineas| - 1;
      var init := lineas[..n];
      AgregadosKeys(pedidos, init);
      forall k | k in Agregados(pedidos, init) && k !in pedidos
        ensures exists i :: 0 <= i < |lineas| && lineas[i].id == k
      {
        var i :| 0 <= i < |init| && init[i].id == k;
        assert lineas[i].id == k;
      }
      assert forall i :: 0 <= i < n ==> init[i] == lineas[i];
    }
  }

  /**
   * Inserting lines whose ids are drawn in order from a sequence that is past
   * every id in use adds exactly those lines and overwrites no row.
   */
  lemma {:induction false} AgregadosExtended(pedidos: map<int, Pedido>, lineas: seq<Pedido>, first: int)
    requires forall k :: k in pedidos ==> k < first
    requires IdsDesde(lineas, first)
    ensures Extended(pedidos, Agregados(pedidos, lineas), lineas)
    ensures forall i :: 0 <= i < |lineas| ==> lineas[i].id !in pedidos
    decreases |lineas|
  {
    AgregadosKeys(pedidos, lineas);
    if lineas != [] {
      var n := |lineas| - 1;
      var init := lineas[..n];
      assert IdsDesde(init, first);
      AgregadosExtended(pedidos, init, first);
      var after := Agregados(pedidos, lineas);
      forall i | 0 <= i < |lineas| ensures lineas[i].id in after && after[lineas[i].id] == lineas[i] {
        if i < n {
          assert init[i] == lineas[i];
        }
      }
    }
  }

  /** Lines inserted for the entries of an order carry ids drawn in order. */
  lemma InsertadosIds(lineas: seq<Pedido>, cuentaId: int, ps: seq<Platillo>, first: int, now: nat)
    requires InsertadosDesde(lineas, cuentaId, ps, first, now)
    ensures IdsDesde(lineas, first)
  {
  }

  /** The kitchen detail of the inserted rows, all on the table numbered `mesaNumero`. */
  function Detalles(lineas: seq<Pedido>, productos: map<int, Producto>, mesaNumero: int): (d: seq<DetalleCocina>)
    requires forall i :: 0 <= i < |lineas| ==> lineas[i].productoId in productos
    ensures |d| == |lineas|
    ensures forall i :: 0 <= i < |d| ==> d[i].pedidoId == lineas[i].id && d[i].mesaNumero == mesaNumero
  {
    seq(|lineas|, i requires 0 <= i < |lineas| =>
      DetalleCocina(lineas[i].id, productos[lineas[i].productoId].nombre, lineas[i].cantidad, lineas[i].estado,
                    mesaNumero))
  }

  /** The number of the table that tab `cuentaId` belongs to. */
  function MesaNumeroDe(t: Tables, cuentaId: int): int
    requires Referenced(t) && cuentaId in t.cuentas
  {
    t.mesas[t.cuentas[cuentaId].mesaId].numero
  }

}
