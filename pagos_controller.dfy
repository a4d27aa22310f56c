/**
 * src/controllers/pagosController.js: the bill of a tab, split per diner,
 * and settling a tab with one payment per diner (the controller version,
 * which releases the table group and broadcasts it).
 */
module PagosController {
  import opened Base
  import opened Collections
  import opened Schema
  import opened Store

  // ---------------------------------------------------------- obtenerCuenta

  /** One row of `pedidos p JOIN productos prod`: who ordered what, how many, at what unit price. */
  datatype Fila = Fila(clienteNombre: string, platillo: string, cantidad: int, precio: int)

  /** One element of a diner's `detalle` (`json_build_object`). */
  datatype Concepto = Concepto(platillo: string, cantidad: int, precioUnitario: int)

  /** One row of the GROUP BY: a diner, what that diner owes, and the diner's lines. */
  datatype Grupo = Grupo(clienteNombre: string, totalAPagar: int, detalle: seq<Concepto>)

  /** The answer of obtenerCuenta. */
  datatype Resumen = Resumen(cuentaId: int, estado: CuentaEstado, granTotal: int, cuentasSeparadas: seq<Grupo>)

  /** Line `k` belongs to tab `cuentaId` and survives the inner join with `productos`. */
  predicate DeLaCuenta(t: Tables, cuentaId: int, k: int) {
    k in t.pedidos && t.pedidos[k].cuentaId == cuentaId && t.pedidos[k].productoId in t.productos
  }

  function FilaDe(t: Tables, k: int): Fila
    requires k in t.pedidos && t.pedidos[k].productoId in t.productos
  {
    var p := t.pedidos[k];
    var prod := t.productos[p.productoId];
    Fila(p.clienteNombre, prod.nombre, p.cantidad, prod.precio)
  }

  /** The joined rows of the tab's lines, one per line, by line id. */
  function Filas(t: Tables, cuentaId: int): (fs: seq<Fila>)
    ensures fs == [] <==> forall k :: !DeLaCuenta(t, cuentaId, k)
  {
    var ks := LineasDe(t, cuentaId);
    assert forall i :: 0 <= i < |ks| ==> ks[i] in ks;
    assert ks != [] ==> DeLaCuenta(t, cuentaId, ks[0]);
    var fs := seq(|ks|, i requires 0 <= i < |ks| => FilaDe(t, ks[i]));
    assert |fs| == |ks|;
    fs
  }

  /** The ids of the tab's lines that survive the join, smallest first. */
  function LineasDe(t: Tables, cuentaId: int): (ks: seq<int>)
    ensures forall k :: k in ks <==> DeLaCuenta(t, cuentaId, k)
  {
    Filter(SortedKeys(t.pedidos.Keys), k => DeLaCuenta(t, cuentaId, k))
  }

  /** `prod.precio * p.cantidad`, in cents. */
  function Importe(f: Fila): int {
    f.precio * f.cantidad
  }

  /** Σ precio × cantidad over the rows. */
  function Suma(fs: seq<Fila>): int {
    if fs == [] then 0 else Importe(fs[0]) + Suma(fs[1..])
  }

  /** The rows of diner `c`, in order: each of them as often as it occurs, and no other row. */
  function DelCliente(fs: seq<Fila>, c: string): (r: seq<Fila>)
    ensures forall f {:trigger multiset(r)[f]} :: multiset(r)[f] == if f.clienteNombre == c then multiset(fs)[f] else 0
    ensures forall f :: f in r <==> f in fs && f.clienteNombre == c
  {
    if fs == [] then []
    else
      assert fs == [fs[0]] + fs[1..];
      (if fs[0].clienteNombre == c then [fs[0]] else []) + DelCliente(fs[1..], c)
  }

  /** No name occurs twice. */
  predicate Distintos(cs: seq<string>) {
    forall i, j :: 0 <= i < j < |cs| ==> cs[i] != cs[j]
  }

  /** Diner `c` has a row among `fs`. */
  predicate Comio(fs: seq<Fila>, c: string) {
    exists i :: 0 <= i < |fs| && fs[i].clienteNombre == c
  }

  /** The diners who have rows, each once, in the order of their first row. */
  function Clientes(fs: seq<Fila>): (cs: seq<string>)
    ensures Distintos(cs)
    ensures forall c :: c in cs <==> Comio(fs, c)
  {
    if fs == [] then []
    else
      var n := |fs| - 1;
      var cs := Clientes(fs[..n]);
      assert forall c :: Comio(fs[..n], c) ==> Comio(fs, c) by {
        forall c | Comio(fs[..n], c) ensures Comio(fs, c) {
          var i :| 0 <= i < n && fs[..n][i].clienteNombre == c;
          assert fs[i].clienteNombre == c;
        }
      }
      assert forall c :: Comio(fs, c) ==> Comio(fs[..n], c) || c == fs[n].clienteNombre by {
        forall c | Comio(fs, c) && c != fs[n].clienteNombre ensures Comio(fs[..n], c) {
          var i :| 0 <= i < |fs| && fs[i].clienteNombre == c;
          assert fs[..n][i].clienteNombre == c;
        }
      }
      if fs[n].clienteNombre in cs then cs else cs + [fs[n].clienteNombre]
  }

  /** The `json_agg` of a diner's rows: element i names row i's dish, quantity and unit price. */
  function Conceptos(fs: seq<Fila>): (ds: seq<Concepto>)
    ensures |ds| == |fs|
    ensures forall i :: 0 <= i < |fs| ==> ds[i] == Concepto(fs[i].platillo, fs[i].cantidad, fs[i].precio)
  {
    if fs == [] then [] else [Concepto(fs[0].platillo, fs[0].cantidad, fs[0].precio)] + Conceptos(fs[1..])
  }

  /** Σ precio_unitario × cantidad over a detail. */
  function SumaDetalle(ds: seq<Concepto>): int {
    if ds == [] then 0 else ds[0].precioUnitario * ds[0].cantidad + SumaDetalle(ds[1..])
  }

  /**
   * The group row of diner `c`: the diner owes Σ precio × cantidad over
   * exactly that diner's rows, which is also what the detail adds up to, and
   * the detail lists those rows in order.
   */
  function GrupoDe(fs: seq<Fila>, c: string): (g: Grupo)
    ensures g.clienteNombre == c
    ensures g.totalAPagar == Suma(DelCliente(fs, c))
    ensures g.totalAPagar == SumaDetalle(g.detalle)
    ensures |g.detalle| == |DelCliente(fs, c)|
    ensures forall i :: 0 <= i < |g.detalle| ==>
              var f := DelCliente(fs, c)[i];
              g.detalle[i] == Concepto(f.platillo, f.cantidad, f.precio)
  {
    var mias := DelCliente(fs, c);
    DetalleSuma(mias);
    Grupo(c, Suma(mias), Conceptos(mias))
  }

  /** The total of a group is what its own detail adds up to. */
  lemma {:induction false} DetalleSuma(fs: seq<Fila>)
    ensures SumaDetalle(Conceptos(fs)) == Suma(fs)
  {
    if fs != [] {
      DetalleSuma(fs[1..]);
    }
  }

  /** One group row per diner of `cs`, in that order. */
  function Grupos(fs: seq<Fila>, cs: seq<string>): (gs: seq<Grupo>)
    ensures |gs| == |cs|
    ensures forall i :: 0 <= i < |cs| ==> gs[i] == GrupoDe(fs, cs[i])
  {
    if cs == [] then [] else [GrupoDe(fs, cs[0])] + Grupos(fs, cs[1..])
  }

  /** The `reduce` of obtenerCuenta: Σ total_a_pagar over the groups. */
  function SumaTotales(gs: seq<Grupo>): int {
    if gs == [] then 0 else gs[0].totalAPagar + SumaTotales(gs[1..])
  }

  /** The group names, in order. */
  function Nombres(gs: seq<Grupo>): (ns: seq<string>)
    ensures |ns| == |gs|
    ensures forall i :: 0 <= i < |gs| ==> ns[i] == gs[i].clienteNombre
  {
    seq(|gs|, i requires 0 <= i < |gs| => gs[i].clienteNombre)
  }

  /** Without rows every group is empty. */
  lemma {:induction false} GruposVacios(cs: seq<string>)
    ensures SumaTotales(Grupos([], cs)) == 0
  {
    if cs != [] {
      GruposVacios(cs[1..]);
    }
  }

  /** A row in front adds its amount to the group of its diner, if that diner is listed, and to no other. */
  lemma {:induction false} GruposCons(fs: seq<Fila>, cs: seq<string>)
    requires fs != [] && Distintos(cs)
    ensures SumaTotales(Grupos(fs, cs)) ==
            (if fs[0].clienteNombre in cs then Importe(fs[0]) else 0) + SumaTotales(Grupos(fs[1..], cs))
  {
    var x, rest := fs[0], fs[1..];
    assert fs == [x] + rest;
    if cs != [] {
      assert Distintos(cs[1..]) by {
        forall i, j | 0 <= i < j < |cs[1..]| ensures cs[1..][i] != cs[1..][j] {
          assert cs[1..][i] == cs[i + 1] && cs[1..][j] == cs[j + 1];
        }
      }
      GruposCons(fs, cs[1..]);
      assert x.clienteNombre in cs <==> x.clienteNombre == cs[0] || x.clienteNombre in cs[1..];
      var mias := DelCliente(fs, cs[0]);
      assert Suma(mias) == (if x.clienteNombre == cs[0] then Importe(x) else 0) + Suma(DelCliente(rest, cs[0])) by {
        if x.clienteNombre == cs[0] {
          assert mias == [x] + DelCliente(rest, cs[0]);
          assert mias[1..] == DelCliente(rest, cs[0]);
        } else {
          assert mias == DelCliente(rest, cs[0]);
        }
      }
    }
  }

  /** Every diner of the rows after the first is listed too. */
  lemma ColaListada(fs: seq<Fila>, cs: seq<string>)
    requires fs != [] && forall i :: 0 <= i < |fs| ==> fs[i].clienteNombre in cs
    ensures forall i :: 0 <= i < |fs[1..]| ==> fs[1..][i].clienteNombre in cs
  {
    forall i | 0 <= i < |fs[1..]| ensures fs[1..][i].clienteNombre in cs {
      assert fs[1..][i] == fs[i + 1];
    }
  }

  /**
   * Splitting the rows by diner loses and duplicates nothing: when every diner
   * with rows is listed exactly once, the group totals add up to Σ precio × cantidad
   * over all the rows.
   */
  lemma {:induction false} PartirPorCliente(fs: seq<Fila>, cs: seq<string>)
    requires Distintos(cs)
    requires forall i :: 0 <= i < |fs| ==> fs[i].clienteNombre in cs
    ensures SumaTotales(Grupos(fs, cs)) == Suma(fs)
  {
    if fs == [] {
      GruposVacios(cs);
    } else {
      ColaListada(fs, cs);
      GruposCons(fs, cs);
      PartirPorCliente(fs[1..], cs);
    }
  }

  /**
   * obtenerCuenta: 500 for an id that is no INTEGER (the SELECT raises), 404
   * for an unknown tab; otherwise the tab's estado, one group per diner with
   * what that diner owes, and the grand total.
   */
  function ObtenerCuenta(t: Tables, cuentaId: int): (r: Status<Resumen>)
    ensures r.InternalError? <==> !EnteroCabe(cuentaId)
    ensures r.NotFound? <==> EnteroCabe(cuentaId) && cuentaId !in t.cuentas
    ensures r.Ok? <==> EnteroCabe(cuentaId) && cuentaId in t.cuentas
    ensures r.Ok? ==> r.value.cuentaId == cuentaId && r.value.estado == t.cuentas[cuentaId].estado
    ensures r.Ok? ==> r.value.granTotal == Suma(Filas(t, cuentaId))
    ensures r.Ok? && Filas(t, cuentaId) == [] ==> r.value.cuentasSeparadas == [] && r.value.granTotal == 0
  {
    if !EnteroCabe(cuentaId) then InternalError
    else if cuentaId !in t.cuentas then NotFound
    else
      var fs := Filas(t, cuentaId);
      var cs := Clientes(fs);
      var gs := Grupos(fs, cs);
      CadaClienteListado(fs);
      PartirPorCliente(fs, cs);
      Ok(Resumen(cuentaId, t.cuentas[cuentaId].estado, SumaTotales(gs), gs))
  }

  /** Every row's diner is among the diners found. */
  lemma CadaClienteListado(fs: seq<Fila>)
    ensures forall i :: 0 <= i < |fs| ==> fs[i].clienteNombre in Clientes(fs)
  {
    assert forall i :: 0 <= i < |fs| ==> Comio(fs, fs[i].clienteNombre);
  }

  /**
   * The breakdown of a tab has one group per diner with lines on it, each
   * diner once; each group's total is Σ precio × cantidad over that diner's
   * lines and is what its own detail adds up to, the detail holding one
   * element per line of that diner.
   */
  lemma CuentasSeparadas(t: Tables, cuentaId: int)
    requires EnteroCabe(cuentaId) && cuentaId in t.cuentas
    ensures var gs := ObtenerCuenta(t, cuentaId).value.cuentasSeparadas;
            && Distintos(Nombres(gs))
            && (forall c :: c in Nombres(gs) <==> Comio(Filas(t, cuentaId), c))
            && (forall g :: g in gs ==>
                  && g.totalAPagar == Suma(DelCliente(Filas(t, cuentaId), g.clienteNombre))
                  && g.totalAPagar == SumaDetalle(g.detalle)
                  && |g.detalle| == |DelCliente(Filas(t, cuentaId), g.clienteNombre)|)
  {
    var fs := Filas(t, cuentaId);
    assert ObtenerCuenta(t, cuentaId).value.cuentasSeparadas == Grupos(fs, Clientes(fs));
    GruposDeClientes(fs, Clientes(fs));
  }

  /**
   * The groups carry the given names in order; each one's total is Σ over its
   * diner's rows and what its own detail adds up to.
   */
  lemma GruposDeClientes(fs: seq<Fila>, cs: seq<string>)
    ensures Nombres(Grupos(fs, cs)) == cs
    ensures forall g :: g in Grupos(fs, cs) ==>
              && g.totalAPagar == Suma(DelCliente(fs, g.clienteNombre))
              && g.totalAPagar == SumaDetalle(g.detalle) && |g.detalle| == |DelCliente(fs, g.clienteNombre)|
  {
    var gs := Grupos(fs, cs);
    forall g | g in gs
      ensures && g.totalAPagar == Suma(DelCliente(fs, g.clienteNombre))
              && g.totalAPagar == SumaDetalle(g.detalle) && |g.detalle| == |DelCliente(fs, g.clienteNombre)|
    {
      var i :| 0 <= i < |gs| && gs[i] == g;
      assert g == GrupoDe(fs, cs[i]);
    }
  }

  // ------------------------------------------------------------ procesarPago

  /** One entry of `pagos`; `monto` in cents. */
  datatype PagoIn = PagoIn(clienteNombre: string, monto: int, metodoPago: string)

  const METODOS := ["efectivo", "terminal"]
  const MSG_SIN_PAGOS := "Debe registrar al menos un pago"

  /** zod's message for a value outside `z.enum(['efectivo', 'terminal'])`. */
  function MsgMetodo(recibido: string): string {
    "Invalid enum value. Expected 'efectivo' | 'terminal', received '" + recibido + "'"
  }

  predicate PagoValido(p: PagoIn) {
    |p.clienteNombre| >= 1 && p.monto > 0 && p.metodoPago in METODOS
  }

  /** pagoSchema's conditions. */
  predicate SolicitudValida(cuentaId: int, ps: seq<PagoIn>) {
    cuentaId > 0 && |ps| >= 1 && forall i :: 0 <= i < |ps| ==> PagoValido(ps[i])
  }

  /** The messages of one entry, field by field. */
  function PagoInErrores(p: PagoIn): (errs: seq<string>)
    ensures errs == [] <==> PagoValido(p)
  {
    (if |p.clienteNombre| >= 1 then [] else [MSG_TEXTO_VACIO])
    + (if p.monto > 0 then [] else [MSG_POSITIVO])
    + (if p.metodoPago in METODOS then [] else [MsgMetodo(p.metodoPago)])
  }

  function PagosInErrores(ps: seq<PagoIn>): (errs: seq<string>)
    ensures errs == [] <==> forall i :: 0 <= i < |ps| ==> PagoValido(ps[i])
  {
    if ps == [] then []
    else
      var rest := PagosInErrores(ps[1..]);
      assert (forall i :: 0 <= i < |ps| ==> PagoValido(ps[i])) <==>
             PagoValido(ps[0]) && forall i :: 0 <= i < |ps[1..]| ==> PagoValido(ps[1..][i]) by {
        if forall i :: 0 <= i < |ps[1..]| ==> PagoValido(ps[1..][i]) {
          forall i | 1 <= i < |ps| ensures PagoValido(ps[i]) {
            assert ps[i] == ps[1..][i - 1];
          }
        }
      }
      PagoInErrores(ps[0]) + rest
  }

  /** pagoSchema's messages, in field order. */
  function PagoErrores(cuentaId: int, ps: seq<PagoIn>): (errs: seq<string>)
    ensures errs == [] <==> SolicitudValida(cuentaId, ps)
    ensures ps == [] ==> MSG_SIN_PAGOS in errs
    ensures cuentaId <= 0 ==> MSG_POSITIVO in errs
  {
    (if cuentaId > 0 then [] else [MSG_POSITIVO])
    + (if |ps| >= 1 then [] else [MSG_SIN_PAGOS])
    + PagosInErrores(ps)
  }

  /** The payment row inserted for entry `p`, under id `id`; the statement gives no `referencia`. */
  function Registro(cuentaId: int, p: PagoIn, id: int, now: nat): Pago {
    Pago(id, cuentaId, Some(p.monto), p.metodoPago, p.clienteNombre, None, now)
  }

  /** The payment rows the loop of procesarPago appends, in input order, ids drawn from `first`. */
  function Registros(cuentaId: int, ps: seq<PagoIn>, first: int, now: nat): (r: seq<Pago>)
    ensures |r| == |ps|
  {
    seq(|ps|, j requires 0 <= j < |ps| => Registro(cuentaId, ps[j], first + j, now))
  }

  /** The row of entry `p` fits the columns of `pagos`. */
  predicate PagoEntra(p: PagoIn) {
    PagoCabe(Some(p.monto), p.metodoPago, p.clienteNombre)
  }

  /** The index of the first entry whose INSERT fails, or `|ps|` when none does. */
  function PrimerPagoFallido(ps: seq<PagoIn>): (k: nat)
    ensures k <= |ps|
    ensures forall i :: 0 <= i < k ==> PagoEntra(ps[i])
    ensures k < |ps| ==> !PagoEntra(ps[k])
  {
    if ps == [] then 0
    else if !PagoEntra(ps[0]) then 0
    else
      var k := PrimerPagoFallido(ps[1..]);
      assert forall i :: 1 <= i < k + 1 ==> ps[i] == ps[1..][i - 1];
      k + 1
  }

  /** The loop of procesarPago has appended the rows of the first `i` entries to the payments of `saved`. */
  ghost predicate Registrados(saved: Tables, before: Serials, cuentaId: int, ps: seq<PagoIn>, now: nat,
                              i: nat, rows: Tables, serials: Serials) {
    && i <= PrimerPagoFallido(ps)
    && serials == before.(pago := before.pago + i)
    && rows == saved.(pagos := saved.pagos + Registros(cuentaId, ps[..i], before.pago, now))
  }

  /** Appending the row of entry `i` extends the rows of the entries before it. */
  lemma RegistrosSnoc(saved: Tables, cuentaId: int, ps: seq<PagoIn>, i: nat, first: int, now: nat,
                      antes: Tables, despues: Tables)
    requires i < |ps|
    requires antes == saved.(pagos := saved.pagos + Registros(cuentaId, ps[..i], first, now))
    requires despues == antes.(pagos := antes.pagos + [Registro(cuentaId, ps[i], first + i, now)])
    ensures despues == saved.(pagos := saved.pagos + Registros(cuentaId, ps[..i + 1], first, now))
  {
    assert Registros(cuentaId, ps[..i + 1], first, now) ==
           Registros(cuentaId, ps[..i], first, now) + [Registro(cuentaId, ps[i], first + i, now)];
  }

  /** One pass of the loop of procesarPago: the INSERT of entry `i`, which may throw. */
  method RegistrarPago(db: Db, cuentaId: int, ps: seq<PagoIn>, i: nat, now: nat,
                       ghost saved: Tables, ghost before: Serials) returns (ok: bool)
    requires db.Valid() && EnteroCabe(cuentaId) && cuentaId in saved.cuentas && i < |ps|
    requires Registrados(saved, before, cuentaId, ps, now, i, db.rows, db.serials)
    modifies db
    ensures ok ==> Registrados(saved, before, cuentaId, ps, now, i + 1, db.rows, db.serials)
    ensures !ok ==> PrimerPagoFallido(ps) == i
    ensures NotAfter(old(db.serials), db.serials)
    ensures db.events == old(db.events) && db.clock == old(db.clock)
    ensures db.Valid()
  {
    ghost var antes := db.rows;
    ok := db.InsertPago(cuentaId, Some(ps[i].monto), ps[i].metodoPago, ps[i].clienteNombre, None, now);
    if ok {
      RegistrosSnoc(saved, cuentaId, ps, i, before.pago, now, antes, db.rows);
    }
  }

  /** The `for` loop of procesarPago: one INSERT per entry, stopping at the first that throws. */
  method RegistrarPagos(db: Db, cuentaId: int, ps: seq<PagoIn>, now: nat) returns (ok: bool)
    requires db.Valid() && EnteroCabe(cuentaId) && cuentaId in db.rows.cuentas
    modifies db
    ensures ok <==> PrimerPagoFallido(ps) == |ps|
    ensures ok ==> db.rows == old(db.rows).(pagos := old(db.rows.pagos) + Registros(cuentaId, ps, old(db.serials.pago), now))
    ensures NotAfter(old(db.serials), db.serials)
    ensures db.events == old(db.events) && db.clock == old(db.clock)
    ensures db.Valid()
  {
    ghost var saved := db.rows;
    ghost var before := db.serials;
    var i := 0;
    assert ps[..0] == [];
    while i < |ps|
      invariant Registrados(saved, before, cuentaId, ps, now, i, db.rows, db.serials)
      invariant db.events == old(db.events) && db.clock == old(db.clock)
      invariant db.Valid()
    {
      ok := RegistrarPago(db, cuentaId, ps, i, now, saved, before);
      if !ok {
        return;
      }
      i := i + 1;
    }
    assert ps[..i] == ps;
    ok := true;
  }

  /** Every tab belongs to a table with a positive id, so `if (mesaPrincipalId)` always holds. */
  lemma MesaDeCuentaPositiva(t: Tables, cuentaId: int)
    requires Consistent(t) && cuentaId in t.cuentas
    ensures t.cuentas[cuentaId].mesaId > 0
  {
  }

  /**
   * procesarPago: validate, then in one transaction append one payment per
   * entry, mark the tab 'pagada' and release its table and every table merged
   * into it; on commit, broadcast the release. A tab already 'pagada' is
   * settled again, and the amounts are not compared with the bill. A tab id
   * that is no INTEGER makes the first SELECT raise: 500.
   */
  method ProcesarPago(db: Db, cuentaId: int, ps: seq<PagoIn>) returns (r: Status<()>)
    requires db.Valid()
    modifies db
    ensures !SolicitudValida(cuentaId, ps) ==> r == BadRequest(Invalid(PagoErrores(cuentaId, ps))) && unchanged(db)
    ensures SolicitudValida(cuentaId, ps) && !EnteroCabe(cuentaId) ==> r == InternalError && db.serials == old(db.serials)
    ensures SolicitudValida(cuentaId, ps) && EnteroCabe(cuentaId) && cuentaId !in old(db.rows.cuentas) ==>
              r == NotFound && db.serials == old(db.serials)
    ensures r.Ok? <==>
              && SolicitudValida(cuentaId, ps) && EnteroCabe(cuentaId) && cuentaId in old(db.rows.cuentas)
              && PrimerPagoFallido(ps) == |ps|
    ensures SolicitudValida(cuentaId, ps) && cuentaId in old(db.rows.cuentas) && !r.Ok? ==> r == InternalError
    ensures !r.Ok? ==> db.rows == old(db.rows) && db.events == old(db.events)
    ensures r.Ok? ==>
              var mesaId := old(db.rows.cuentas[cuentaId].mesaId);
              && db.rows == old(db.rows).(pagos := old(db.rows.pagos) + Registros(cuentaId, ps, old(db.serials.pago), old(db.clock)),
                                          cuentas := old(db.rows.cuentas)[cuentaId := old(db.rows.cuentas[cuentaId]).(estado := Pagada)],
                                          mesas := Liberadas(old(db.rows.mesas), mesaId))
              && db.events == old(db.events) + [MesasActualizadas(Liberacion, Some(mesaId))]
    ensures db.Valid()
  {
    var errs := PagoErrores(cuentaId, ps);
    if errs != [] {
      return BadRequest(Invalid(errs));
    }
    var saved := db.rows;
    ghost var before := db.serials;
    var now := db.Begin();
    // SELECT id, mesa_id FROM cuentas WHERE id = $1
    if !EnteroCabe(cuentaId) {
      db.Rollback(saved, before);
      return InternalError;
    }
    if cuentaId !in db.rows.cuentas {
      db.Rollback(saved, before);
      return NotFound;
    }
    var mesaId := db.rows.cuentas[cuentaId].mesaId;
    MesaDeCuentaPositiva(db.rows, cuentaId);
    var ok := RegistrarPagos(db, cuentaId, ps, now);
    if !ok {
      db.Rollback(saved, before);
      return InternalError;
    }
    db.MarcarPagada(cuentaId);
    if mesaId != 0 {
      db.LiberarMesas(mesaId);
    }
    // COMMIT
    if mesaId != 0 {
      db.Emit(MesasActualizadas(Liberacion, Some(mesaId)));
    }
    r := Ok(());
  }
}
