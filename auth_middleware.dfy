/**
 * The two Express middlewares that guard the routes: `verificarToken` reads
 * the bearer token from the Authorization header and, when the token
 * verifies, stores its decoded payload on the request; `verificarRol(roles)`
 * lets the request through only when that payload's `rol_id` is listed.
 *
 * `jwt.verify` (with the server's secret) is a parameter: a function from a
 * token to its payload, or to nothing when the signature or expiry check fails.
 */
module AuthMiddleware {
  import opened Base

  const BEARER := "Bearer "
  const MSG_SIN_TOKEN := "Acceso denegado. Token no proporcionado."
  const MSG_TOKEN_INVALIDO := "Token inválido o expirado. Inicia sesión nuevamente."
  const MSG_SIN_PERMISO := "No tienes permisos para realizar esta acción."

  /** The claims a verified token carries; `rol_id` is absent from a token signed without one. */
  datatype Payload = Payload(id: int, rolId: Option<int>)

  /** What a middleware does with the request: pass it on, or answer with a status and an error. */
  datatype Respuesta = Siguiente | Rechazo(status: int, error: string)

  // ------------------------------------------------------- String.replace

  /** `pat` occurs in `s` starting at index `i`. */
  predicate OcurreEn(s: string, pat: string, i: int) {
    0 <= i && i + |pat| <= |s| && s[i..i + |pat|] == pat
  }

  /** The first index at or after `desde` where `pat` occurs in `s`, if any. */
  function Buscar(s: string, pat: string, desde: nat): (r: Option<nat>)
    ensures r.Some? ==> desde <= r.value && OcurreEn(s, pat, r.value)
    ensures r.Some? ==> forall j :: desde <= j < r.value ==> !OcurreEn(s, pat, j)
    ensures r.None? ==> forall j :: desde <= j ==> !OcurreEn(s, pat, j)
    decreases |s| - desde
  {
    if desde + |pat| > |s| then None
    else if s[desde..desde + |pat|] == pat then Some(desde)
    else Buscar(s, pat, desde + 1)
  }

  /** `s.replace(pat, '')` with a string pattern: the first occurrence of `pat` is removed. */
  function QuitarPrimera(s: string, pat: string): (r: string)
    ensures |r| <= |s|
  {
    match Buscar(s, pat, 0)
    case None => s
    case Some(i) => s[..i] + s[i + |pat|..]
  }

  /** Without an occurrence of `pat`, `replace` returns the string unchanged. */
  lemma QuitarSinOcurrencia(s: string, pat: string)
    requires forall j :: !OcurreEn(s, pat, j)
    ensures QuitarPrimera(s, pat) == s
  {
  }

  /**
   * Otherwise exactly one copy of `pat` goes, the first one: what is left is
   * the text before that occurrence followed by the text after it.
   */
  lemma QuitarPrimeraOcurrencia(s: string, pat: string, i: nat)
    requires OcurreEn(s, pat, i)
    requires forall j :: 0 <= j < i ==> !OcurreEn(s, pat, j)
    ensures QuitarPrimera(s, pat) == s[..i] + s[i + |pat|..]
    ensures |QuitarPrimera(s, pat)| == |s| - |pat|
  {
  }

  /** A well-formed header `Bearer <t>` yields exactly `t`. */
  lemma {:induction false} TokenDeBearer(t: string)
    ensures QuitarPrimera(BEARER + t, BEARER) == t
  {
    var s := BEARER + t;
    assert s[0..|BEARER|] == BEARER;
    QuitarPrimeraOcurrencia(s, BEARER, 0);
    assert s[|BEARER|..] == t;
  }

  /** `req.header('Authorization')?.replace('Bearer ', '')`. */
  function TokenDe(authorization: Option<string>): (r: Option<string>)
    ensures authorization.None? <==> r.None?
  {
    match authorization
    case None => None
    case Some(h) => Some(QuitarPrimera(h, BEARER))
  }

  /** `!token` is false: the token is present and not the empty string. */
  predicate Presente(token: Option<string>) {
    token.Some? && token.value != ""
  }

  /** `!req.usuario || !rolesPermitidos.includes(req.usuario.rol_id)` is false. */
  predicate Permitido(roles: seq<int>, usuario: Option<Payload>) {
    usuario.Some? && usuario.value.rolId.Some? && usuario.value.rolId.value in roles
  }

  /** The request as the middlewares see it: its header, the decoded user, and how often `next` was called. */
  class Request {
    var authorization: Option<string>
    var usuario: Option<Payload>
    var siguientes: nat

    constructor (authorization: Option<string>)
      ensures this.authorization == authorization && usuario.None? && siguientes == 0
    {
      this.authorization := authorization;
      usuario := None;
      siguientes := 0;
    }
  }

  /** `verificarToken`. */
  method VerificarToken(req: Request, verificar: string -> Option<Payload>) returns (r: Respuesta)
    modifies req
    ensures req.authorization == old(req.authorization)
    ensures var token := TokenDe(req.authorization);
            && (!Presente(token) ==> r == Rechazo(401, MSG_SIN_TOKEN))
            && (Presente(token) && verificar(token.value).None? ==> r == Rechazo(401, MSG_TOKEN_INVALIDO))
            && (r == Siguiente <==> Presente(token) && verificar(token.value).Some?)
            && (r == Siguiente ==> req.usuario == verificar(token.value))
    ensures r == Siguiente ==> req.siguientes == old(req.siguientes) + 1
    ensures r != Siguiente ==> req.usuario == old(req.usuario) && req.siguientes == old(req.siguientes)
  {
    var token := TokenDe(req.authorization);
    if !Presente(token) {
      return Rechazo(401, MSG_SIN_TOKEN);
    }
    var decodificado := verificar(token.value);
    if decodificado.None? {
      return Rechazo(401, MSG_TOKEN_INVALIDO);
    }
    req.usuario := decodificado;
    req.siguientes := req.siguientes + 1;
    r := Siguiente;
  }

  /** `verificarRol(roles)`: touches nothing but the count of `next` calls. */
  method VerificarRol(roles: seq<int>, req: Request) returns (r: Respuesta)
    modifies req
    ensures r == Siguiente <==> Permitido(roles, req.usuario)
    ensures r != Siguiente ==> r == Rechazo(403, MSG_SIN_PERMISO)
    ensures req.siguientes == old(req.siguientes) + (if r == Siguiente then 1 else 0)
    ensures req.usuario == old(req.usuario) && req.authorization == old(req.authorization)
  {
    if !Permitido(roles, req.usuario) {
      return Rechazo(403, MSG_SIN_PERMISO);
    }
    req.siguientes := req.siguientes + 1;
    r := Siguiente;
  }

  /** The header carries a token that `jwt.verify` accepts. */
  predicate Autenticado(authorization: Option<string>, verificar: string -> Option<Payload>) {
    var token := TokenDe(authorization);
    Presente(token) && verificar(token.value).Some?
  }

  /** ... and the role in that token's payload is one of `roles`. */
  predicate Autorizado(authorization: Option<string>, verificar: string -> Option<Payload>, roles: seq<int>) {
    Autenticado(authorization, verificar) && Permitido(roles, verificar(TokenDe(authorization).value))
  }

  /**
   * A route mounted behind `verificarToken, verificarRol(roles)`: its handler
   * runs exactly when the token verifies and the payload's role is listed;
   * otherwise the answer is 401 for a missing or rejected token and 403 for a
   * role that is not listed.
   */
  method Proteger(req: Request, verificar: string -> Option<Payload>, roles: seq<int>) returns (r: Respuesta)
    requires req.usuario.None? && req.siguientes == 0
    modifies req
    ensures req.authorization == old(req.authorization)
    ensures r == Siguiente <==> Autorizado(req.authorization, verificar, roles)
    ensures !Autenticado(req.authorization, verificar) ==> r.Rechazo? && r.status == 401
    ensures Autenticado(req.authorization, verificar) && !Autorizado(req.authorization, verificar, roles) ==>
              r == Rechazo(403, MSG_SIN_PERMISO)
    ensures r == Siguiente <==> req.siguientes == 2
  {
    r := VerificarToken(req, verificar);
    if r == Siguiente {
      r := VerificarRol(roles, req);
    }
  }
}
