/**
  Tasks: admin insert (any owner, who must exist), self insert (the caller
  owns it), status updates restricted to PENDIENTE and HECHA, and deletes; the
  self paths check ownership, the admin paths do not.
*/
module Tareas {
  import opened Model

  const PENDIENTE: string := "PENDIENTE"
  const HECHA: string := "HECHA"

  /** The body of a self insert: title and description only. */
  datatype TareaDTO = TareaDTO(titulo: string, descripcion: string)

  predicate EstadoValido(estado: string) {
    estado == PENDIENTE || estado == HECHA
  }

  /** `campo!!.isBlank()`: null throws, otherwise the blank test. */
  function CampoVacio(campo: Option<string>): (r: Result<bool>)
    ensures r.Failure? <==> campo.None?
    ensures r.Failure? ==> r.error == Internal
    ensures r.Success? ==> r.value == IsBlank(campo.value)
  {
    if campo.None? then Failure(Internal) else Success(IsBlank(campo.value))
  }

  /** The three fields of an admin insert are present and not blank. */
  predicate CamposCompletos(t: Tarea) {
    && t.titulo.Some? && !IsBlank(t.titulo.value)
    && t.descripcion.Some? && !IsBlank(t.descripcion.value)
    && t.usuario.Some? && !IsBlank(t.usuario.value)
  }

  /** The record an insert stores: always PENDIENTE, both timestamps `now`. */
  function Nueva(id: string, titulo: Option<string>, descripcion: Option<string>, usuario: Option<string>, now: int): Tarea {
    Tarea(Some(id), titulo, descripcion, PENDIENTE, usuario, Some(now), Some(now))
  }

  /** Admin insert. The fields are tested in order titulo, descripcion,
      usuario (a null one throws, a blank one is BadRequest); only then must
      the owner exist. */
  function InsertTarea(db: Db, tareas: Tarea, nuevoId: string, now: int): (s: Step<Tarea>)
    requires nuevoId !in db.tareas
    ensures tareas.titulo.None? ==> s == Step(Failure(Internal), db)
    ensures tareas.titulo.Some? && IsBlank(tareas.titulo.value) ==> s == Step(Failure(BadRequest), db)
    ensures (tareas.titulo.Some? && !IsBlank(tareas.titulo.value) && tareas.descripcion.None?)
            ==> s == Step(Failure(Internal), db)
    ensures (tareas.titulo.Some? && !IsBlank(tareas.titulo.value)
             && tareas.descripcion.Some? && IsBlank(tareas.descripcion.value)) ==> s == Step(Failure(BadRequest), db)
    ensures (tareas.titulo.Some? && !IsBlank(tareas.titulo.value)
             && tareas.descripcion.Some? && !IsBlank(tareas.descripcion.value) && tareas.usuario.None?)
            ==> s == Step(Failure(Internal), db)
    ensures (tareas.titulo.Some? && !IsBlank(tareas.titulo.value)
             && tareas.descripcion.Some? && !IsBlank(tareas.descripcion.value)
             && tareas.usuario.Some? && IsBlank(tareas.usuario.value)) ==> s == Step(Failure(BadRequest), db)
    ensures CamposCompletos(tareas) && tareas.usuario.value !in db.usuarios ==> s == Step(Failure(NotFound), db)
    ensures s.result.Success? <==> CamposCompletos(tareas) && tareas.usuario.value in db.usuarios
    ensures s.result.Failure? ==> s.db == db
    ensures s.result.Success? ==>
              && s.result.value.estado == PENDIENTE
              && s.result.value == Nueva(nuevoId, tareas.titulo, tareas.descripcion, tareas.usuario, now)
              && s.db == db.(tareas := db.tareas[nuevoId := s.result.value])
    ensures Consistent(db) ==> Consistent(s.db)
  {
    var vacio := CampoVacio(tareas.titulo);
    if vacio.Failure? then Step(Failure(vacio.error), db)
    else if vacio.value then Step(Failure(BadRequest), db)
    else
      var vacio := CampoVacio(tareas.descripcion);
      if vacio.Failure? then Step(Failure(vacio.error), db)
      else if vacio.value then Step(Failure(BadRequest), db)
      else
        var vacio := CampoVacio(tareas.usuario);
        if vacio.Failure? then Step(Failure(vacio.error), db)
        else if vacio.value then Step(Failure(BadRequest), db)
        else if tareas.usuario.value !in db.usuarios then Step(Failure(NotFound), db)
        else
          var tarea := Nueva(nuevoId, tareas.titulo, tareas.descripcion, tareas.usuario, now);
          Step(Success(tarea), db.(tareas := db.tareas[nuevoId := tarea]))
  }

  /** Self insert: the caller becomes the owner; no user lookup is made. */
  function InsertTareaSelf(db: Db, tareas: TareaDTO, username: string, nuevoId: string, now: int): (s: Step<Tarea>)
    requires nuevoId !in db.tareas
    ensures s.result.Success? <==> !IsBlank(tareas.titulo) && !IsBlank(tareas.descripcion)
    ensures s.result.Failure? ==> s == Step(Failure(BadRequest), db)
    ensures s.result.Success? ==>
              && s.result.value.estado == PENDIENTE && s.result.value.usuario == Some(username)
              && s.result.value == Nueva(nuevoId, Some(tareas.titulo), Some(tareas.descripcion), Some(username), now)
              && s.db == db.(tareas := db.tareas[nuevoId := s.result.value])
    ensures Consistent(db) ==> Consistent(s.db)
  {
    if IsBlank(tareas.titulo) || IsBlank(tareas.descripcion) then Step(Failure(BadRequest), db)
    else
      var tarea := Nueva(nuevoId, Some(tareas.titulo), Some(tareas.descripcion), Some(username), now);
      Step(Success(tarea), db.(tareas := db.tareas[nuevoId := tarea]))
  }

  /** Every stored task. */
  function FindAllTareas(db: Db): (r: set<Tarea>)
    ensures forall id :: id in db.tareas ==> db.tareas[id] in r
    ensures forall t :: t in r ==> exists id :: id in db.tareas && db.tareas[id] == t
  {
    set id | id in db.tareas :: db.tareas[id]
  }

  /** The tasks owned by `username`, who must be registered. */
  function FindTareasByUser(db: Db, username: string): (r: Result<map<string, Tarea>>)
    ensures r.Failure? <==> username !in db.usuarios
    ensures r.Failure? ==> r.error == NotFound
    ensures r.Success? ==> forall id :: id in r.value <==> id in db.tareas && db.tareas[id].usuario == Some(username)
    ensures r.Success? ==> forall id :: id in r.value ==> r.value[id] == db.tareas[id]
  {
    if username !in db.usuarios then Failure(NotFound)
    else Success(map id | id in db.tareas && db.tareas[id].usuario == Some(username) :: db.tareas[id])
  }

  /** The stored task after a status change. */
  function ConEstado(tarea: Tarea, estado: string, now: int): Tarea {
    tarea.(estado := estado, fechaActualizacion := Some(now))
  }

  /** Admin status change. The status is checked before the lookup; only the
      status of `actualizada` is used. */
  function UpdateEstado(db: Db, id: string, actualizada: Tarea, now: int): (s: Step<Tarea>)
    ensures !EstadoValido(actualizada.estado) ==> s == Step(Failure(BadRequest), db)
    ensures EstadoValido(actualizada.estado) && id !in db.tareas ==> s == Step(Failure(NotFound), db)
    ensures s.result.Success? <==> EstadoValido(actualizada.estado) && id in db.tareas
    ensures s.result.Success? ==>
              && s.result.value == ConEstado(db.tareas[id], actualizada.estado, now)
              && s.db == db.(tareas := db.tareas[id := s.result.value])
    ensures Consistent(db) ==> Consistent(s.db)
  {
    if actualizada.estado != PENDIENTE && actualizada.estado != HECHA then Step(Failure(BadRequest), db)
    else if id !in db.tareas then Step(Failure(NotFound), db)
    else
      var tarea := ConEstado(db.tareas[id], actualizada.estado, now);
      Step(Success(tarea), db.(tareas := db.tareas[id := tarea]))
  }

  /** Self status change: as the admin one, plus the caller must own the task. */
  function UpdateEstadoSelf(db: Db, id: string, actualizada: Tarea, usuario: string, now: int): (s: Step<Tarea>)
    ensures !EstadoValido(actualizada.estado) ==> s == Step(Failure(BadRequest), db)
    ensures EstadoValido(actualizada.estado) && id !in db.tareas ==> s == Step(Failure(NotFound), db)
    ensures (EstadoValido(actualizada.estado) && id in db.tareas && db.tareas[id].usuario != Some(usuario))
            ==> s == Step(Failure(Unauthorized), db)
    ensures s.result.Success? <==>
              EstadoValido(actualizada.estado) && id in db.tareas && db.tareas[id].usuario == Some(usuario)
    ensures s.result.Success? ==>
              && s.result.value == ConEstado(db.tareas[id], actualizada.estado, now)
              && s.db == db.(tareas := db.tareas[id := s.result.value])
    ensures Consistent(db) ==> Consistent(s.db)
  {
    if actualizada.estado != PENDIENTE && actualizada.estado != HECHA then Step(Failure(BadRequest), db)
    else if id !in db.tareas then Step(Failure(NotFound), db)
    else if db.tareas[id].usuario != Some(usuario) then Step(Failure(Unauthorized), db)
    else
      var tarea := ConEstado(db.tareas[id], actualizada.estado, now);
      Step(Success(tarea), db.(tareas := db.tareas[id := tarea]))
  }

  function DeleteTarea(db: Db, id: string): (s: Step<()>)
    ensures id !in db.tareas ==> s == Step(Failure(NotFound), db)
    ensures id in db.tareas ==> s == Step(Success(()), db.(tareas := db.tareas - {id}))
    ensures Consistent(db) ==> Consistent(s.db)
  {
    if id !in db.tareas then Step(Failure(NotFound), db)
    else Step(Success(()), db.(tareas := db.tareas - {id}))
  }

  function DeleteTareaSelf(db: Db, id: string, usuario: string): (s: Step<()>)
    ensures id !in db.tareas ==> s == Step(Failure(NotFound), db)
    ensures id in db.tareas && db.tareas[id].usuario != Some(usuario) ==> s == Step(Failure(Unauthorized), db)
    ensures s.result.Success? <==> id in db.tareas && db.tareas[id].usuario == Some(usuario)
    ensures s.result.Success? ==> s.db == db.(tareas := db.tareas - {id})
    ensures Consistent(db) ==> Consistent(s.db)
  {
    if id !in db.tareas then Step(Failure(NotFound), db)
    else if db.tareas[id].usuario != Some(usuario) then Step(Failure(Unauthorized), db)
    else Step(Success(()), db.(tareas := db.tareas - {id}))
  }

  /** Whether `usuario` owns task `tareaId`; `first()` on an empty result throws. */
  function IsUserOwner(db: Db, tareaId: string, usuario: string): (r: Result<bool>)
    ensures r.Failure? <==> tareaId !in db.tareas
    ensures r.Failure? ==> r.error == Internal
    ensures r.Success? ==> (r.value <==> db.tareas[tareaId].usuario == Some(usuario))
  {
    if tareaId !in db.tareas then Failure(Internal)
    else Success(db.tareas[tareaId].usuario == Some(usuario))
  }

  // ---------------------------------------------------------------------------

  /** For the owner, the self status change is the admin one; for anyone else
      it fails where the admin one would succeed. */
  lemma {:induction false} UpdateSelfEsAdminParaPropietario(db: Db, id: string, actualizada: Tarea, usuario: string, now: int)
    ensures IsUserOwner(db, id, usuario) == Success(true) ==>
              UpdateEstadoSelf(db, id, actualizada, usuario, now) == UpdateEstado(db, id, actualizada, now)
    ensures (IsUserOwner(db, id, usuario) == Success(false) && UpdateEstado(db, id, actualizada, now).result.Success?) ==>
              UpdateEstadoSelf(db, id, actualizada, usuario, now) == Step(Failure(Unauthorized), db)
  {
  }

  /** For the owner, the self delete is the admin delete; a non-owner's
      attempt fails and the task stays. */
  lemma {:induction false} DeleteSelfEsAdminParaPropietario(db: Db, id: string, usuario: string)
    ensures IsUserOwner(db, id, usuario) == Success(true) ==> DeleteTareaSelf(db, id, usuario) == DeleteTarea(db, id)
    ensures IsUserOwner(db, id, usuario) == Success(false) ==>
              var s := DeleteTareaSelf(db, id, usuario); s.result == Failure(Unauthorized) && id in s.db.tareas
  {
  }

  /** A deleted task is gone: a second delete is NotFound. */
  lemma DeleteDosVecesEsNotFound(db: Db, id: string)
    requires id in db.tareas
    ensures DeleteTarea(DeleteTarea(db, id).db, id).result == Failure(NotFound)
  {
  }

  /** For a registered, non-blank username, a self insert is the admin insert
      of the same fields with that user as owner, whatever status is submitted. */
  lemma {:induction false} InsertSelfEsInsertAdmin(db: Db, dto: TareaDTO, username: string, nuevoId: string, now: int, estado: string)
    requires nuevoId !in db.tareas && username in db.usuarios && !IsBlank(username)
    ensures InsertTareaSelf(db, dto, username, nuevoId, now)
            == InsertTarea(db, Tarea(None, Some(dto.titulo), Some(dto.descripcion), estado, Some(username), None, None), nuevoId, now)
  {
  }

  /** An inserted task is among its owner's tasks afterwards. */
  lemma {:induction false} InsertEntoncesFindByUser(db: Db, tareas: Tarea, nuevoId: string, now: int)
    requires nuevoId !in db.tareas
    requires InsertTarea(db, tareas, nuevoId, now).result.Success?
    ensures var s := InsertTarea(db, tareas, nuevoId, now);
            var r := FindTareasByUser(s.db, tareas.usuario.value);
            r.Success? && nuevoId in r.value && r.value[nuevoId] == s.result.value
  {
  }
}
