/**
 * src/controllers/usuariosController.js: an administrator creates a staff
 * account; the password is stored only as its hash and never returned.
 */
module UsuariosController {
  import opened Base
  import opened Schema
  import opened Store

  const MSG_NOMBRE := "El nombre debe tener al menos 2 caracteres"
  const MSG_USERNAME := "El usuario debe tener al menos 3 caracteres"
  const MSG_PASSWORD := "La contraseña debe tener al menos 6 caracteres"
  const MSG_ROL := "El ID del rol debe ser un número válido"

  /** usuarioSchema: one message per failing field, in field order. */
  function UsuarioErrores(nombre: string, username: string, password: string, rolId: int): (errs: seq<string>)
    ensures errs == [] <==> |nombre| >= 2 && |username| >= 3 && |password| >= 6 && rolId > 0
    ensures MSG_NOMBRE in errs <==> |nombre| < 2
    ensures MSG_USERNAME in errs <==> |username| < 3
    ensures MSG_PASSWORD in errs <==> |password| < 6
    ensures MSG_ROL in errs <==> rolId <= 0
    ensures |errs| <= 4
  {
    (if |nombre| < 2 then [MSG_NOMBRE] else []) +
    (if |username| < 3 then [MSG_USERNAME] else []) +
    (if |password| < 6 then [MSG_PASSWORD] else []) +
    (if rolId <= 0 then [MSG_ROL] else [])
  }

  /** `RETURNING id, nombre, username, rol_id, activo, creado_en`: the row without its hash. */
  datatype UsuarioPublico = UsuarioPublico(id: int, nombre: string, username: string, rolId: int,
                                           activo: bool, creadoEn: nat)

  function Publico(u: Usuario): (p: UsuarioPublico)
    ensures p.id == u.id && p.nombre == u.nombre && p.username == u.username
    ensures p.rolId == u.rolId && p.activo == u.activo && p.creadoEn == u.creadoEn
  {
    UsuarioPublico(u.id, u.nombre, u.username, u.rolId, u.activo, u.creadoEn)
  }

  /** Some account already has this username. */
  predicate UsernameTomado(usuarios: map<int, Usuario>, username: string) {
    exists k :: k in usuarios && usuarios[k].username == username
  }

  /**
   * crearUsuario: validate, refuse a username in use, store the hash of the
   * password with the given role (active, stamped now), answer with the new
   * row minus the hash. A missing role or an over-long field is a 500.
   */
  method CrearUsuario(db: Db, nombre: string, username: string, password: string, rolId: int,
                      hash: string -> string) returns (r: Status<UsuarioPublico>)
    requires db.Valid()
    modifies db
    ensures UsuarioErrores(nombre, username, password, rolId) != [] ==>
              r == BadRequest(Invalid(UsuarioErrores(nombre, username, password, rolId))) && unchanged(db)
    ensures UsuarioErrores(nombre, username, password, rolId) == [] && UsernameTomado(old(db.rows.usuarios), username) ==>
              r == BadRequest(UsernameEnUso) && unchanged(db)
    ensures r.Ok? <==>
              && UsuarioErrores(nombre, username, password, rolId) == []
              && !UsernameTomado(old(db.rows.usuarios), username)
              && rolId in old(db.rows.roles)
              && UsuarioCabe(nombre, username, hash(password))
    ensures !r.Ok? ==> db.rows == old(db.rows) && r != Unauthorized && r != Forbidden && r != NotFound
    ensures r.Ok? ==>
              var u := Usuario(old(db.serials.usuario), nombre, username, hash(password), rolId, true, old(db.clock));
              && r.value == Publico(u)
              && r.value.id !in old(db.rows.usuarios)
              && db.rows == old(db.rows).(usuarios := old(db.rows.usuarios)[u.id := u])
              && |db.rows.usuarios| == |old(db.rows.usuarios)| + 1
    ensures db.events == old(db.events)
    ensures db.Valid()
  {
    var errs := UsuarioErrores(nombre, username, password, rolId);
    if errs != [] {
      return BadRequest(Invalid(errs));
    }
    // SELECT id FROM usuarios WHERE username = $1
    if exists k :: k in db.rows.usuarios && db.rows.usuarios[k].username == username {
      return BadRequest(UsernameEnUso);
    }
    var passwordHash := hash(password);
    var now := db.Begin();
    var u := db.InsertUsuario(nombre, username, passwordHash, rolId, now);
    if u.None? {
      return InternalError;
    }
    r := Ok(Publico(u.value));
  }
}
