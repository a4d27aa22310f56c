/**
 * src/routes/mesas.js: the plain list of tables (no tab information) and
 * the mounted merge, which runs the same two UPDATEs as the controller but
 * only for roles 1 and 2.
 */
module MesasRoutes {
  import opened Base
  import opened Collections
  import opened Schema
  import opened Store
  import opened MesasController
  import opened AuthMiddleware

  const ROLES_LISTA := [1, 2, 3]
  const ROLES_FUSION := [1, 2]

  /** `m` is the row of some table. */
  ghost predicate EsMesa(mesas: map<int, Mesa>, m: Mesa) {
    exists k :: k in mesas && mesas[k] == m
  }

  /** The rows of the tables `ks`, in that order. */
  function MesasDe(mesas: map<int, Mesa>, ks: seq<int>): (r: seq<Mesa>)
    requires forall i :: 0 <= i < |ks| ==> ks[i] in mesas
    ensures |r| == |ks|
    ensures forall k :: k in ks ==> mesas[k] in r
    ensures forall m :: m in r ==> EsMesa(mesas, m)
  {
    if ks == [] then []
    else
      var k := ks[0];
      assert k in mesas && mesas[k] == mesas[ks[0]];
      assert EsMesa(mesas, mesas[ks[0]]);
      [mesas[ks[0]]] + MesasDe(mesas, ks[1..])
  }

  /** The rows of `mesas` by id: what `SELECT *` reads before the ORDER BY. */
  function MesasPorId(mesas: map<int, Mesa>): (r: seq<Mesa>)
    ensures |r| == |mesas|
    ensures forall k :: k in mesas ==> mesas[k] in r
    ensures forall m :: m in r ==> EsMesa(mesas, m)
  {
    var ks := SortedKeys(mesas.Keys);
    assert forall i :: 0 <= i < |ks| ==> ks[i] in ks;
    MesasDe(mesas, ks)
  }

  /** `ORDER BY numero ASC`. */
  predicate NumeroMenorIgual(a: Mesa, b: Mesa) {
    a.numero <= b.numero
  }

  /** `SELECT * FROM mesas ORDER BY numero ASC`. */
  function ListaMesas(mesas: map<int, Mesa>): (r: seq<Mesa>)
    ensures multiset(r) == multiset(MesasPorId(mesas))
    ensures forall i :: 0 < i < |r| ==> r[i - 1].numero <= r[i].numero
  {
    SortBy(MesasPorId(mesas), NumeroMenorIgual)
  }

  /** The list holds every table, once per id, and nothing else. */
  lemma ListaCompleta(mesas: map<int, Mesa>)
    ensures |ListaMesas(mesas)| == |mesas|
    ensures forall k :: k in mesas ==> mesas[k] in ListaMesas(mesas)
    ensures forall m :: m in ListaMesas(mesas) ==> EsMesa(mesas, m)
  {
    MismosElementos(ListaMesas(mesas), MesasPorId(mesas));
  }

  /** GET /: the tables by number, for any of the three roles. */
  method Listar(db: Db, req: Request, verificar: string -> Option<Payload>) returns (r: Status<seq<Mesa>>)
    requires req.usuario.None? && req.siguientes == 0
    modifies req
    ensures !Autenticado(old(req.authorization), verificar) ==> r == Unauthorized
    ensures Autenticado(old(req.authorization), verificar) && !Autorizado(old(req.authorization), verificar, ROLES_LISTA) ==>
              r == Forbidden
    ensures Autorizado(old(req.authorization), verificar, ROLES_LISTA) ==> r == Ok(ListaMesas(db.rows.mesas))
  {
    var paso := Proteger(req, verificar, ROLES_LISTA);
    if paso.Rechazo? {
      return if paso.status == 401 then Unauthorized else Forbidden;
    }
    r := Ok(ListaMesas(db.rows.mesas));
  }

  /** POST /fusionar: the merge of the controller, for roles 1 and 2 only. */
  method Fusionar(db: Db, req: Request, verificar: string -> Option<Payload>, principal: int, ids: seq<int>)
    returns (r: Status<()>)
    requires db.Valid() && req.usuario.None? && req.siguientes == 0
    modifies db, req
    ensures !Autorizado(old(req.authorization), verificar, ROLES_FUSION) ==> unchanged(db)
    ensures !Autenticado(old(req.authorization), verificar) ==> r == Unauthorized
    ensures Autenticado(old(req.authorization), verificar) && !Autorizado(old(req.authorization), verificar, ROLES_FUSION) ==>
              r == Forbidden
    ensures Autorizado(old(req.authorization), verificar, ROLES_FUSION) ==>
              && (!FusionValida(principal, ids) ==> r == BadRequest(Invalid(FusionErrores(principal, ids))) && unchanged(db))
              && (r.Ok? <==> && FusionValida(principal, ids) && EnteroCabe(principal) && IdsCaben(ids)
                             && (principal in old(db.rows.mesas) || forall k :: k in ids ==> k !in old(db.rows.mesas)))
              && (FusionValida(principal, ids) && !r.Ok? ==> r == InternalError)
    ensures !r.Ok? ==> db.rows == old(db.rows) && db.events == old(db.events)
    ensures r.Ok? ==>
              && db.rows == old(db.rows).(mesas := Fusion(old(db.rows.mesas), principal, ids))
              && db.events == old(db.events) + [MesasActualizadas(FusionYOcupacion, None)]
    ensures db.serials == old(db.serials)
    ensures db.Valid()
  {
    var paso := Proteger(req, verificar, ROLES_FUSION);
    if paso.Rechazo? {
      return if paso.status == 401 then Unauthorized else Forbidden;
    }
    r := FusionarMesas(db, principal, ids);
  }
}
