/**
 * src/routes/pagos.js: the bill of a tab behind the token and role checks,
 * and the mounted `/pagar`, which takes one payment for the whole tab, has
 * no token or role check, refuses a tab already paid, and releases no table.
 */
module PagosRoutes {
  import opened Base
  import opened Schema
  import opened Store
  import opened PagosController
  import opened AuthMiddleware

  const ROLES_CUENTA := [1, 2, 3]
  /** Both `metodo_pago` and `referencia` are cut to this many characters. */
  const TEXTO_MAX := 200

  /** GET /cuenta/:cuenta_id: obtenerCuenta for any of the three roles. */
  method VerCuenta(db: Db, req: Request, verificar: string -> Option<Payload>, cuentaId: int) returns (r: Status<Resumen>)
    requires req.usuario.None? && req.siguientes == 0
    modifies req
    ensures !Autenticado(old(req.authorization), verificar) ==> r == Unauthorized
    ensures Autenticado(old(req.authorization), verificar) && !Autorizado(old(req.authorization), verificar, ROLES_CUENTA) ==>
              r == Forbidden
    ensures Autorizado(old(req.authorization), verificar, ROLES_CUENTA) ==> r == ObtenerCuenta(db.rows, cuentaId)
  {
    var paso := Proteger(req, verificar, ROLES_CUENTA);
    if paso.Rechazo? {
      return if paso.status == 401 then Unauthorized else Forbidden;
    }
    r := ObtenerCuenta(db.rows, cuentaId);
  }

  /** `!cuenta_id || !metodo_pago` is false: both fields are present, the id is not 0 and the method not empty. */
  predicate DatosCompletos(cuentaId: Option<int>, metodoPago: Option<string>) {
    cuentaId.Some? && cuentaId.value != 0 && metodoPago.Some? && metodoPago.value != ""
  }

  /** `referencia ? referencia.toString().substring(0, 200) : null`. */
  function NormalizarReferencia(referencia: Option<string>): (r: Option<string>)
    ensures r.None? <==> referencia.None? || referencia.value == ""
    ensures r.Some? ==> |r.value| <= TEXTO_MAX && r.value <= referencia.value
    ensures r.Some? && |referencia.value| <= TEXTO_MAX ==> r == referencia
  {
    match referencia
    case None => None
    case Some(s) => if s == "" then None else Some(Truncate(s, TEXTO_MAX))
  }

  /**
   * POST /pagar: with both fields present, in one transaction on its own
   * client, refuse a tab id that is no INTEGER (500, the SELECT raises), an
   * unknown tab (404) or a paid one (400), otherwise insert
   * one payment with the given method and reference and mark the tab 'pagada'.
   */
  method Pagar(db: Db, cuentaId: Option<int>, metodoPago: Option<string>, referencia: Option<string>)
    returns (r: Status<()>)
    requires db.Valid()
    modifies db
    ensures !DatosCompletos(cuentaId, metodoPago) ==> r == BadRequest(DatosIncompletos) && unchanged(db)
    ensures DatosCompletos(cuentaId, metodoPago) ==>
              var id := cuentaId.value;
              && (!EnteroCabe(id) ==> r == InternalError && db.serials == old(db.serials))
              && (EnteroCabe(id) && id !in old(db.rows.cuentas) ==> r == NotFound && db.serials == old(db.serials))
              && (EnteroCabe(id) && id in old(db.rows.cuentas) && old(db.rows.cuentas[id].estado) == Pagada ==>
                    r == BadRequest(CuentaYaPagada) && db.serials == old(db.serials))
              && (r.Ok? <==> EnteroCabe(id) && id in old(db.rows.cuentas) && old(db.rows.cuentas[id].estado) == Abierta
                             && |Truncate(metodoPago.value, TEXTO_MAX)| <= METODO_LEN)
    ensures !r.Ok? ==> db.rows == old(db.rows)
    ensures r.Ok? ==>
              var id := cuentaId.value;
              var pago := Pago(old(db.serials.pago), id, None, Truncate(metodoPago.value, TEXTO_MAX), CLIENTE_DEFAULT,
                               NormalizarReferencia(referencia), old(db.clock));
              && db.rows == old(db.rows).(pagos := old(db.rows.pagos) + [pago],
                                          cuentas := old(db.rows.cuentas)[id := old(db.rows.cuentas[id]).(estado := Pagada)])
              && db.rows.cuentas[id].estado == Pagada
    ensures db.events == old(db.events)
    ensures db.Valid()
  {
    if !DatosCompletos(cuentaId, metodoPago) {
      return BadRequest(DatosIncompletos);
    }
    var id := cuentaId.value;
    var metodo := Truncate(metodoPago.value, TEXTO_MAX);
    var ref := NormalizarReferencia(referencia);
    var saved := db.rows;
    ghost var before := db.serials;
    var now := db.Begin();
    // SELECT * FROM cuentas WHERE id = $1
    if !EnteroCabe(id) {
      db.Rollback(saved, before);
      return InternalError;
    }
    if id !in db.rows.cuentas {
      db.Rollback(saved, before);
      return NotFound;
    }
    if db.rows.cuentas[id].estado == Pagada {
      db.Rollback(saved, before);
      return BadRequest(CuentaYaPagada);
    }
    var ok := db.InsertPago(id, None, metodo, CLIENTE_DEFAULT, ref, now);
    if !ok {
      db.Rollback(saved, before);
      return InternalError;
    }
    db.MarcarPagada(id);
    // COMMIT
    r := Ok(());
  }
}
