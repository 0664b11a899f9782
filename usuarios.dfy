/**
  User registration, a chain of checks ending in one insert, and the lookup
  the login uses.
*/
module Usuarios {
  import opened Model

  datatype UsuarioRegisterDTO = UsuarioRegisterDTO(
    username: string, email: string, password: string, passwordRepeat: string, rol: Option<string>)

  /** What a registration returns. */
  datatype UsuarioDTO = UsuarioDTO(email: string, username: string, rol: Option<string>)

  /** What the login lookup returns. */
  datatype UserDetails = UserDetails(username: string, password: string, roles: Option<string>)

  predicate AlgunCampoVacio(dto: UsuarioRegisterDTO) {
    IsBlank(dto.username) || IsBlank(dto.email) || IsBlank(dto.password) || IsBlank(dto.passwordRepeat)
  }

  /** A role the request may name: none at all, USER or ADMIN. */
  predicate RolValido(rol: Option<string>) {
    rol.None? || rol.value == "USER" || rol.value == "ADMIN"
  }

  predicate EmailRegistrado(db: Db, email: string) {
    exists k :: k in db.usuarios && db.usuarios[k].email == email
  }

  /** No two users share an email address. */
  ghost predicate EmailsUnicos(db: Db) {
    forall a, b :: a in db.usuarios && b in db.usuarios && db.usuarios[a].email == db.usuarios[b].email ==> a == b
  }

  /** Register a user. The checks run in this order and the first that fails
      decides the error: blank fields, taken username, passwords that differ,
      unknown role, taken email. The password stored is `encode(password)`. */
  function InsertUser(db: Db, dto: UsuarioRegisterDTO, encode: string -> string, now: int): (s: Step<UsuarioDTO>)
    ensures AlgunCampoVacio(dto) ==> s == Step(Failure(BadRequest), db)
    ensures !AlgunCampoVacio(dto) && dto.username in db.usuarios ==> s == Step(Failure(Conflict), db)
    ensures (!AlgunCampoVacio(dto) && dto.username !in db.usuarios && dto.password != dto.passwordRepeat)
            ==> s == Step(Failure(BadRequest), db)
    ensures (!AlgunCampoVacio(dto) && dto.username !in db.usuarios && dto.password == dto.passwordRepeat
             && !RolValido(dto.rol)) ==> s == Step(Failure(BadRequest), db)
    ensures (!AlgunCampoVacio(dto) && dto.username !in db.usuarios && dto.password == dto.passwordRepeat
             && RolValido(dto.rol) && EmailRegistrado(db, dto.email)) ==> s == Step(Failure(Conflict), db)
    ensures s.result.Success? <==>
              && !AlgunCampoVacio(dto) && dto.username !in db.usuarios && dto.password == dto.passwordRepeat
              && RolValido(dto.rol) && !EmailRegistrado(db, dto.email)
    ensures s.result.Success? ==>
              && s.result.value == UsuarioDTO(dto.email, dto.username, dto.rol)
              && s.db == db.(usuarios := db.usuarios[dto.username :=
                                          Usuario(dto.username, encode(dto.password), dto.email, dto.rol, now)])
              && |s.db.usuarios| == |db.usuarios| + 1
    ensures Consistent(db) ==> Consistent(s.db)
    ensures EmailsUnicos(db) ==> EmailsUnicos(s.db)
  {
    if AlgunCampoVacio(dto) then Step(Failure(BadRequest), db)
    else if dto.username in db.usuarios then Step(Failure(Conflict), db)
    else if dto.password != dto.passwordRepeat then Step(Failure(BadRequest), db)
    else if dto.rol.Some? && dto.rol.value != "USER" && dto.rol.value != "ADMIN" then Step(Failure(BadRequest), db)
    else if EmailRegistrado(db, dto.email) then Step(Failure(Conflict), db)
    else
      var usuario := Usuario(dto.username, encode(dto.password), dto.email, dto.rol, now);
      Step(Success(UsuarioDTO(usuario.email, usuario.username, usuario.roles)),
           db.(usuarios := db.usuarios[dto.username := usuario]))
  }

  /** The login lookup: a null name throws, an unknown one is Unauthorized. */
  function LoadUserByUsername(db: Db, username: Option<string>): (r: Result<UserDetails>)
    ensures username.None? ==> r == Failure(Internal)
    ensures username.Some? && username.value !in db.usuarios ==> r == Failure(Unauthorized)
    ensures r.Success? <==> username.Some? && username.value in db.usuarios
    ensures r.Success? ==>
              var u := db.usuarios[username.value];
              r.value == UserDetails(u.username, u.password, u.roles)
  {
    if username.None? then Failure(Internal)
    else if username.value !in db.usuarios then Failure(Unauthorized)
    else
      var usuario := db.usuarios[username.value];
      Success(UserDetails(usuario.username, usuario.password, usuario.roles))
  }

  // ---------------------------------------------------------------------------

  /** A user just registered can be loaded for login, with the encoded
      password and the requested role. */
  lemma {:induction false} InsertEntoncesLoad(db: Db, dto: UsuarioRegisterDTO, encode: string -> string, now: int)
    requires InsertUser(db, dto, encode, now).result.Success?
    ensures LoadUserByUsername(InsertUser(db, dto, encode, now).db, Some(dto.username))
            == Success(UserDetails(dto.username, encode(dto.password), dto.rol))
  {
  }

  /** Registering the same request twice: the second is a Conflict. */
  lemma {:induction false} InsertDosVecesEsConflict(db: Db, dto: UsuarioRegisterDTO, encode: string -> string, t1: int, t2: int)
    requires InsertUser(db, dto, encode, t1).result.Success?
    ensures var s := InsertUser(db, dto, encode, t1);
            InsertUser(s.db, dto, encode, t2) == Step(Failure(Conflict), s.db)
  {
  }

  /** Any request with a blank field is BadRequest, even when its username is taken. */
  lemma {:induction false} VacioAntesQueConflicto(db: Db, dto: UsuarioRegisterDTO, encode: string -> string, now: int)
    requires IsBlank(dto.password) && dto.username in db.usuarios
    ensures InsertUser(db, dto, encode, now).result == Failure(BadRequest)
  {
  }
}
