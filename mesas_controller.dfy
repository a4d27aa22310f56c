/**
 * src/controllers/mesasController.js: the floor plan with each table's open
 * tab, and merging tables under a principal one. The mounted route for
 * merging (src/routes/mesas.js) runs the same statements, so it reuses
 * `FusionarMesas`.
 */
module MesasController {
  import opened Base
  import opened Collections
  import opened Schema
  import opened Store

  // ------------------------------------------------------------ obtenerMesas

  /** One row of `mesas m LEFT JOIN cuentas c ON m.id = c.mesa_id AND c.estado = 'abierta'`. */
  datatype MesaFila = MesaFila(mesa: Mesa, cuentaActivaId: Option<int>)

  /** The rows the LEFT JOIN yields for table `m`: one per open tab, or one without a tab. */
  function FilasDeMesa(m: Mesa, cuentas: map<int, Cuenta>): (r: seq<MesaFila>)
    ensures |r| >= 1
    ensures forall i :: 0 <= i < |r| ==> r[i].mesa == m
  {
    var ks := AbiertasIds(cuentas, m.id);
    if ks == [] then [MesaFila(m, None)] else ConCuentas(m, ks)
  }

  /** Table `m` paired with each of the tabs `ks`, in that order. */
  function ConCuentas(m: Mesa, ks: seq<int>): (r: seq<MesaFila>)
    ensures |r| == |ks|
    ensures forall i :: 0 <= i < |r| ==> r[i].mesa == m
  {
    if ks == [] then [] else [MesaFila(m, Some(ks[0]))] + ConCuentas(m, ks[1..])
  }

  /** The LEFT JOIN over the tables `ids`, in that order. */
  function Unir(mesas: map<int, Mesa>, cuentas: map<int, Cuenta>, ids: seq<int>): seq<MesaFila>
    requires forall i :: 0 <= i < |ids| ==> ids[i] in mesas
  {
    if ids == [] then []
    else
      FilasDeMesa(mesas[ids[0]], cuentas) + Unir(mesas, cuentas, ids[1..])
  }

  /** `ORDER BY m.numero ASC`. */
  predicate NumeroLe(a: MesaFila, b: MesaFila) {
    a.mesa.numero <= b.mesa.numero
  }

  /** obtenerMesas: the joined rows, ordered by table number. */
  function ObtenerMesas(t: Tables): (r: seq<MesaFila>)
    ensures multiset(r) == multiset(Unir(t.mesas, t.cuentas, SortedKeys(t.mesas.Keys)))
    ensures forall i :: 0 < i < |r| ==> r[i - 1].mesa.numero <= r[i].mesa.numero
  {
    SortBy(Unir(t.mesas, t.cuentas, SortedKeys(t.mesas.Keys)), NumeroLe)
  }

  /** Under the one-open-tab rule a table has at most one open tab. */
  lemma AlMasUnaAbierta(cuentas: map<int, Cuenta>, mesaId: int)
    requires AtMostOneOpenTab(cuentas)
    ensures |AbiertasIds(cuentas, mesaId)| <= 1
  {
    var ks := AbiertasIds(cuentas, mesaId);
    if |ks| >= 2 {
      PrimerosDistintos(ks);
      assert false;
    }
  }

  /** A table with at most one open tab joins with exactly one row: its open tab, or none. */
  lemma UnaFilaPorMesa(m: Mesa, cuentas: map<int, Cuenta>)
    requires |AbiertasIds(cuentas, m.id)| <= 1
    ensures FilasDeMesa(m, cuentas) == [MesaFila(m, CuentaAbiertaDe(cuentas, m.id))]
  {
    var ks := AbiertasIds(cuentas, m.id);
    if ks != [] {
      var r := FilasDeMesa(m, cuentas);
      assert |r| == 1 && r[0] == MesaFila(m, Some(ks[0]));
    }
  }

  /** The row of the table stored under `k`, with its open tab, if any. */
  function FilaConCuenta(t: Tables, k: int): MesaFila
    requires k in t.mesas
  {
    MesaFila(t.mesas[k], CuentaAbiertaDe(t.cuentas, t.mesas[k].id))
  }

  /** `f` is the row of some table, with its open tab. */
  ghost predicate EsFilaDeMesa(t: Tables, f: MesaFila) {
    exists k :: k in t.mesas && f == FilaConCuenta(t, k)
  }

  /** One row per table of `ids`, in that order. */
  function UnaPorMesa(t: Tables, ids: seq<int>): (r: seq<MesaFila>)
    requires forall i :: 0 <= i < |ids| ==> ids[i] in t.mesas
    ensures |r| == |ids|
  {
    seq(|ids|, i requires 0 <= i < |ids| => FilaConCuenta(t, ids[i]))
  }

  /** Under the one-open-tab rule each of the tables `ids` joins with exactly its own row. */
  lemma TodasUnaFila(t: Tables, ids: seq<int>)
    requires AtMostOneOpenTab(t.cuentas)
    requires forall i :: 0 <= i < |ids| ==> ids[i] in t.mesas
    ensures forall i :: 0 <= i < |ids| ==> FilasDeMesa(t.mesas[ids[i]], t.cuentas) == [FilaConCuenta(t, ids[i])]
  {
    forall i | 0 <= i < |ids| ensures FilasDeMesa(t.mesas[ids[i]], t.cuentas) == [FilaConCuenta(t, ids[i])] {
      AlMasUnaAbierta(t.cuentas, t.mesas[ids[i]].id);
      UnaFilaPorMesa(t.mesas[ids[i]], t.cuentas);
    }
  }

  /** The join over the tables, under the one-open-tab rule, is one row per table. */
  lemma {:induction false} UnirUnaPorMesa(t: Tables, ids: seq<int>)
    requires forall i :: 0 <= i < |ids| ==> ids[i] in t.mesas
    requires forall i :: 0 <= i < |ids| ==> FilasDeMesa(t.mesas[ids[i]], t.cuentas) == [FilaConCuenta(t, ids[i])]
    ensures Unir(t.mesas, t.cuentas, ids) == UnaPorMesa(t, ids)
  {
    if ids != [] {
      assert forall i :: 0 <= i < |ids[1..]| ==> ids[1..][i] == ids[i + 1];
      UnirUnaPorMesa(t, ids[1..]);
      assert UnaPorMesa(t, ids) == [FilaConCuenta(t, ids[0])] + UnaPorMesa(t, ids[1..]);
    }
  }

  /**
   * With at most one open tab per table, the floor plan lists every table
   * exactly once, each with the id of its open tab if it has one.
   */
  lemma {:induction false} MesasExactas(t: Tables)
    requires AtMostOneOpenTab(t.cuentas)
    ensures |ObtenerMesas(t)| == |t.mesas|
    ensures forall k :: k in t.mesas ==> FilaConCuenta(t, k) in ObtenerMesas(t)
    ensures forall f :: f in ObtenerMesas(t) ==> EsFilaDeMesa(t, f)
  {
    var ids := SortedKeys(t.mesas.Keys);
    OrdenDeUnaPorMesa(t);
    MismosElementos(ObtenerMesas(t), UnaPorMesa(t, ids));
    UnaPorMesaMiembros(t, ids);
  }

  /** Under the one-open-tab rule the floor plan is an ordering of the one-row-per-table list. */
  lemma OrdenDeUnaPorMesa(t: Tables)
    requires AtMostOneOpenTab(t.cuentas)
    ensures multiset(ObtenerMesas(t)) == multiset(UnaPorMesa(t, SortedKeys(t.mesas.Keys)))
  {
    var ids := SortedKeys(t.mesas.Keys);
    assert forall i :: 0 <= i < |ids| ==> ids[i] in ids;
    TodasUnaFila(t, ids);
    UnirUnaPorMesa(t, ids);
  }

  /** Over all the tables, the one-row-per-table list holds each table's row and nothing else. */
  lemma UnaPorMesaMiembros(t: Tables, ids: seq<int>)
    requires forall i :: 0 <= i < |ids| ==> ids[i] in t.mesas
    requires forall k :: k in t.mesas ==> k in ids
    ensures forall k :: k in t.mesas ==> FilaConCuenta(t, k) in UnaPorMesa(t, ids)
    ensures forall f :: f in UnaPorMesa(t, ids) ==> EsFilaDeMesa(t, f)
  {
    var u := UnaPorMesa(t, ids);
    forall k | k in t.mesas ensures FilaConCuenta(t, k) in u {
      var i :| 0 <= i < |ids| && ids[i] == k;
      assert u[i] == FilaConCuenta(t, k);
    }
    forall f | f in u ensures EsFilaDeMesa(t, f) {
      var i :| 0 <= i < |u| && u[i] == f;
      assert f == FilaConCuenta(t, ids[i]);
    }
  }

  // ------------------------------------------------------------ fusionarMesas

  const MSG_PRINCIPAL_INVALIDA := "ID de mesa principal inválido"
  const MSG_SIN_MESAS := "Debes incluir al menos una mesa para fusionar"

  /** fusionSchema's conditions. */
  predicate FusionValida(principal: int, ids: seq<int>) {
    principal > 0 && |ids| >= 1 && forall i :: 0 <= i < |ids| ==> ids[i] > 0
  }

  /** The messages of the listed ids, in order. */
  function IdsErrores(ids: seq<int>): (errs: seq<string>)
    ensures errs == [] <==> forall i :: 0 <= i < |ids| ==> ids[i] > 0
    ensures |errs| <= |ids|
  {
    if ids == [] then []
    else
      var rest := IdsErrores(ids[1..]);
      assert (forall i :: 0 <= i < |ids| ==> ids[i] > 0) <==>
             ids[0] > 0 && forall i :: 0 <= i < |ids[1..]| ==> ids[1..][i] > 0 by {
        if forall i :: 0 <= i < |ids[1..]| ==> ids[1..][i] > 0 {
          forall i | 1 <= i < |ids| ensures ids[i] > 0 {
            assert ids[i] == ids[1..][i - 1];
          }
        }
      }
      (if ids[0] > 0 then [] else [MSG_POSITIVO]) + rest
  }

  /** fusionSchema's messages, in field order. */
  function FusionErrores(principal: int, ids: seq<int>): (errs: seq<string>)
    ensures errs == [] <==> FusionValida(principal, ids)
    ensures principal <= 0 ==> errs[0] == MSG_PRINCIPAL_INVALIDA
    ensures ids == [] ==> MSG_SIN_MESAS in errs
  {
    (if principal > 0 then [] else [MSG_PRINCIPAL_INVALIDA])
    + (if |ids| >= 1 then [] else [MSG_SIN_MESAS])
    + IdsErrores(ids)
  }

  /** The table map after both UPDATEs of a merge. */
  function Fusion(mesas: map<int, Mesa>, principal: int, ids: seq<int>): map<int, Mesa> {
    Fusionadas(Ocupar(mesas, principal), principal, ids)
  }

  /**
   * A merge occupies the principal and every listed table, points every listed
   * table at the principal, leaves the principal's own parent alone unless it
   * is itself listed, and leaves every other table as it was.
   */
  lemma FusionResultado(mesas: map<int, Mesa>, principal: int, ids: seq<int>)
    ensures Fusion(mesas, principal, ids).Keys == mesas.Keys
    ensures principal in mesas && principal !in ids ==>
              Fusion(mesas, principal, ids)[principal] == mesas[principal].(estado := Ocupada)
    ensures forall k :: k in mesas && k in ids ==>
              Fusion(mesas, principal, ids)[k] == mesas[k].(estado := Ocupada, mesaPadre := Some(principal))
    ensures forall k :: k in mesas && k != principal && k !in ids ==> Fusion(mesas, principal, ids)[k] == mesas[k]
  {
  }

  /**
   * Paying the tab of the principal undoes a merge for the whole group: the
   * principal and every listed table end up free with no parent, and every
   * other table ends up as a release from the state before the merge leaves it.
   */
  lemma LiberarDeshaceFusion(mesas: map<int, Mesa>, principal: int, ids: seq<int>)
    ensures var r := Liberadas(Fusion(mesas, principal, ids), principal);
            && r.Keys == mesas.Keys
            && (forall k :: k in mesas && (k == principal || k in ids) ==>
                  r[k] == mesas[k].(estado := Disponible, mesaPadre := None))
            && (forall k :: k in mesas && k != principal && k !in ids ==> r[k] == Liberadas(mesas, principal)[k])
  {
  }

  /**
   * fusionarMesas: validate, then in one transaction occupy the principal and
   * merge the listed tables into it; a failing UPDATE (an id that is no
   * INTEGER, or the parent foreign key) rolls both back. On commit, broadcast
   * the change.
   */
  method FusionarMesas(db: Db, principal: int, ids: seq<int>) returns (r: Status<()>)
    requires db.Valid()
    modifies db
    ensures !FusionValida(principal, ids) ==> r == BadRequest(Invalid(FusionErrores(principal, ids))) && unchanged(db)
    ensures r.Ok? <==>
              && FusionValida(principal, ids) && EnteroCabe(principal) && IdsCaben(ids)
              && (principal in old(db.rows.mesas) || forall k :: k in ids ==> k !in old(db.rows.mesas))
    ensures FusionValida(principal, ids) && !r.Ok? ==> r == InternalError
    ensures !r.Ok? ==> db.rows == old(db.rows) && db.events == old(db.events)
    ensures r.Ok? ==>
              && db.rows == old(db.rows).(mesas := Fusion(old(db.rows.mesas), principal, ids))
              && db.events == old(db.events) + [MesasActualizadas(FusionYOcupacion, None)]
    ensures db.serials == old(db.serials)
    ensures db.Valid()
  {
    var errs := FusionErrores(principal, ids);
    if errs != [] {
      return BadRequest(Invalid(errs));
    }
    var saved := db.rows;
    ghost var before := db.serials;
    var now := db.Begin();
    var ok := db.OcuparMesa(principal);
    if ok {
      ok := db.FusionarEn(principal, ids);
    }
    if !ok {
      db.Rollback(saved, before);
      return InternalError;
    }
    // COMMIT
    db.Emit(MesasActualizadas(FusionYOcupacion, None));
    r := Ok(());
  }
}
