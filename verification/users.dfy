/**
 * The user service: lookups, creation with the duplicate-email check, the
 * profile and avatar mutations, and deletion with the role rule that keeps an
 * Admin to plain users.
 */
module Users {
  import opened Wrappers
  import opened Errors
  import opened Entities
  import opened Transaction
  import opened Paging
  import Cloudinary
  import Numbers

  /** `findUserById`: a row the query runner can see, or NotFound. */
  function FindUserById(db: Db, id: nat): (r: Outcome<UserEntity>)
    ensures r.Ok? <==> Visible(db, id)
    ensures r.Err? ==> r.error == NotFound
    ensures r.Ok? ==> r.value == db.users[id]
  {
    match FindUser(db, id)
    case None => Err(NotFound)
    case Some(u) => Ok(u)
  }

  /** `getUser(id)`: the row without its excluded columns; soft-deleted rows are not found. */
  function GetUser(db: Db, id: nat): (r: Outcome<PublicUser>)
    requires Valid(db)
    ensures r.Err? <==> id !in db.users || id in db.softDeleted
    ensures r.Err? ==> r.error == NotFound
    ensures r.Ok? ==> r.value == Public(db.users[id]) && r.value.id == id
  {
    var u :- FindUserById(db, id);
    Ok(Public(u))
  }

  /** Some row, soft-deleted or not, already holds the email. */
  predicate EmailTaken(db: Db, email: string) {
    exists k :: k in db.users && db.users[k].email == email
  }

  /**
   * What the duplicate-email lookup finds: a row with the email, or, for a
   * body without one, any row at all (the lookup then has no condition).
   */
  predicate Taken(db: Db, email: Option<string>) {
    if email.Some? then EmailTaken(db, email.value) else exists k :: k in db.users
  }

  /** The body of `addUser`: email, password, and optionally a role; the pipe lets an email-less body through. */
  datatype NewUser = NewUser(email: Option<string>, password: string, role: Option<Role>)

  /** The row `addUser` stores for `dto` under the next id. */
  function NewRow(db: Db, dto: NewUser, hash: string -> string, now: Timestamp): (u: UserEntity)
    requires dto.email.Some?
    ensures u.id == db.nextUserId && Some(u.email) == dto.email && u.password == hash(dto.password)
    ensures u.username == UsernameFromEmail(dto.email.value)
    ensures u.role == (if dto.role.Some? then dto.role.value else User)
    ensures u.avatar.None? && u.passwordResetToken.None?
    ensures u.createdAt == Some(now) && u.updatedAt == Some(now)
  {
    var draft := NewUserEntity(dto.email, now).(password := Some(hash(dto.password)));
    var withRole := if dto.role.Some? then draft.(role := dto.role) else draft;
    var r := Materialize(withRole, db.nextUserId);
    assert r.Some?;
    r.value
  }

  /**
   * `addUser(dto)`: a taken email (soft-deleted rows included) is refused
   * before any transaction opens; otherwise the new row, with the password
   * hashed and the role set only when one is given, is saved in a transaction.
   * A body without an email reaches the entity constructor only on an empty
   * table, and the constructor's `.split` of the missing email throws there.
   */
  method AddUser(db: Db, dto: NewUser, hash: string -> string, env: Env) returns (o: Tx<PublicUser>)
    requires Valid(db)
    ensures Taken(db, dto.email) ==> o == Tx(Err(Forbidden(Some(EmailExist))), [], db)
    ensures !Taken(db, dto.email) ==> Atomic(db, o) && !HasDestroy(o.trace)
    ensures dto.email.None? && !Taken(db, dto.email) ==> o.result == Err(UndefinedRead)
    ensures o.result.Ok? <==> dto.email.Some? && !Taken(db, dto.email) && env.writeOk
    ensures o.result.Ok? ==> (
      && Valid(o.db)
      && o.db.users == db.users[db.nextUserId := NewRow(db, dto, hash, env.now)]
      && o.db.companies == db.companies && o.db.logs == db.logs
      && o.result.value == Public(NewRow(db, dto, hash, env.now)))
  {
    if FindByOptionalEmail(db, dto.email, true).Some? {
      return Tx(Err(Forbidden(Some(EmailExist))), [], db);
    }
    if dto.email.None? {
      o := Abort(db, [Begin], UndefinedRead);
      return;
    }
    var u := NewRow(db, dto, hash, env.now);
    o := WriteCommit(db, [Begin], SaveUser(u.id), InsertUser(db, u), Public(u), env.writeOk);
  }

  /** The rule both `updateUser` and `deleteUser` apply: an Admin may only touch plain users. */
  predicate AdminBlocked(callerRole: Option<Role>, target: UserEntity) {
    callerRole == Some(Admin) && target.role != User
  }

  /** The avatar column after `uploadAvatar`: the delivery URL of the uploaded asset. */
  function AvatarUrl(env: Env): (url: string)
    requires env.upload.Some?
    ensures url == Cloudinary.Edit(env.upload.value.secureUrl, env.deliveryUrl)
  {
    Cloudinary.Edit(env.upload.value.secureUrl, env.deliveryUrl)
  }

  /**
   * Upload (when a file is given), then save the row. There is no clean-up:
   * a failure after the upload leaves the asset on the media host.
   */
  method UploadThenSave(db: Db, u: UserEntity, avatar: Option<File>, env: Env) returns (o: Tx<PublicUser>)
    requires Valid(db) && u.id in db.users && u.email == db.users[u.id].email
    ensures Atomic(db, o) && !HasDestroy(o.trace)
    ensures o.result.Ok? <==> (avatar.Some? ==> env.upload.Some?) && env.writeOk
    ensures o.result.Err? ==> o.result.error == (if avatar.Some? && env.upload.None? then MediaError else DbError)
    ensures o.result.Ok? ==> (
      var stored := if avatar.Some? then u.(avatar := Some(AvatarUrl(env)), updatedAt := Some(env.now))
                    else u.(updatedAt := Some(env.now));
      && Valid(o.db) && o.db.users == db.users[u.id := stored]
      && o.db.companies == db.companies && o.db.logs == db.logs
      && o.result.value == Public(stored))
  {
    var up := if avatar.Some? then [Upload(avatar.value, Numbers.IntToString(u.id))] else [];
    var done := [Begin] + up;
    if avatar.Some? && env.upload.None? {
      o := Abort(db, done, MediaError);
      return;
    }
    var stored := if avatar.Some? then u.(avatar := Some(AvatarUrl(env)), updatedAt := Some(env.now))
                  else u.(updatedAt := Some(env.now));
    o := WriteCommit(db, done, SaveUser(u.id), PutUser(db, stored), Public(stored), env.writeOk);
  }

  /**
   * What `updateUser` returns: `instanceToInstance` of the in-memory row, whose
   * `username` was set to whatever the body carried, so it is absent from the
   * reply when the body had none, though the stored column keeps its value.
   */
  datatype UpdateReply = UpdateReply(
    id: nat,
    email: string,
    username: Option<string>,
    role: Role,
    avatar: Option<string>,
    createdAt: Option<Timestamp>,
    updatedAt: Option<Timestamp>)

  /**
   * `updateUser(id, { username }, avatar?, role?)`: the Admin rule, then the
   * new username (an absent one is skipped by the save, so the column keeps
   * its value) and, only when a file is given, a new avatar.
   */
  method UpdateUser(db: Db, id: nat, username: Option<string>, avatar: Option<File>, callerRole: Option<Role>, env: Env) returns (o: Tx<UpdateReply>)
    requires Valid(db)
    ensures Atomic(db, o) && !HasDestroy(o.trace)
    ensures !Visible(db, id) ==> o.result == Err(NotFound)
    ensures o.result == Err(Forbidden(None)) <==> Visible(db, id) && AdminBlocked(callerRole, db.users[id])
    ensures o.result.Ok? <==>
      Visible(db, id) && !AdminBlocked(callerRole, db.users[id]) && (avatar.Some? ==> env.upload.Some?) && env.writeOk
    ensures o.result.Ok? ==> (
      var old_ := db.users[id];
      var stored := old_.(username := if username.Some? then username.value else old_.username,
                          avatar := if avatar.Some? then Some(AvatarUrl(env)) else old_.avatar,
                          updatedAt := Some(env.now));
      && Valid(o.db) && o.db.users == db.users[id := stored]
      && o.db.companies == db.companies && o.db.logs == db.logs
      && o.result.value == UpdateReply(id, stored.email, username, stored.role, stored.avatar, stored.createdAt, stored.updatedAt))
  {
    match FindUserById(db, id)
    case Err(e) =>
      o := Abort(db, [Begin], e);
    case Ok(u) =>
      if AdminBlocked(callerRole, u) {
        o := Abort(db, [Begin], Forbidden(None));
      } else {
        var renamed := if username.Some? then u.(username := username.value) else u;
        var saved := UploadThenSave(db, renamed, avatar, env);
        var reply := if saved.result.Ok? then
            var p := saved.result.value;
            Ok(UpdateReply(p.id, p.email, username, p.role, p.avatar, p.createdAt, p.updatedAt))
          else Err(saved.result.error);
        o := Tx(reply, saved.trace, saved.db);
      }
  }

  /** `addOrChangeAvatar(id, avatar)`: upload, point the avatar column at it, save. */
  method AddOrChangeAvatar(db: Db, id: nat, avatar: File, env: Env) returns (o: Tx<PublicUser>)
    requires Valid(db)
    ensures Atomic(db, o) && !HasDestroy(o.trace)
    ensures !Visible(db, id) ==> o.result == Err(NotFound)
    ensures o.result.Ok? <==> Visible(db, id) && env.upload.Some? && env.writeOk
    ensures o.result.Ok? ==> (
      var stored := db.users[id].(avatar := Some(AvatarUrl(env)), updatedAt := Some(env.now));
      && Valid(o.db) && o.db.users == db.users[id := stored]
      && o.db.companies == db.companies && o.db.logs == db.logs
      && o.result.value == Public(stored))
  {
    match FindUserById(db, id)
    case Err(e) =>
      o := Abort(db, [Begin], e);
    case Ok(u) =>
      o := UploadThenSave(db, u, Some(avatar), env);
  }

  /**
   * `deleteAvatar(id)` with the "already deleted" guard answering 400: a user
   * without an avatar is refused before anything is written; otherwise the
   * asset is destroyed and the column cleared.
   */
  method DeleteAvatar(db: Db, id: nat, env: Env) returns (o: Tx<PublicUser>)
    requires Valid(db)
    ensures Atomic(db, o)
    ensures !Visible(db, id) ==> o.result == Err(NotFound)
    ensures Visible(db, id) && !Truthy(db.users[id].avatar) ==>
      o.result == Err(BadRequest(Some(AvatarDeleted))) && !HasDestroy(o.trace)
    ensures HasDestroy(o.trace) <==> Visible(db, id) && Truthy(db.users[id].avatar)
    ensures HasDestroy(o.trace) ==> Destroy(Cloudinary.DeleteTarget(db.users[id].avatar.value, None)) in o.trace
    ensures o.result.Ok? <==> HasDestroy(o.trace) && env.destroyOk && env.writeOk
    ensures o.result.Ok? ==> (
      var stored := db.users[id].(avatar := None, updatedAt := Some(env.now));
      && Valid(o.db) && o.db.users == db.users[id := stored]
      && o.db.companies == db.companies && o.db.logs == db.logs
      && o.result.value == Public(stored) && o.result.value.avatar.None?)
  {
    match FindUserById(db, id)
    case Err(e) =>
      o := Abort(db, [Begin], e);
    case Ok(u) =>
      o := ClearAvatar(db, u, BadRequest(Some(AvatarDeleted)), env);
  }

  /**
   * `deleteAvatar(id)` as written: the guard's argument reads `.deleted` of
   * the undefined `errorMessages.avatar`, so a user without an avatar gets a
   * TypeError (status 500) instead of the 400; every other path is the same.
   */
  method DeleteAvatarAsWritten(db: Db, id: nat, env: Env) returns (o: Tx<PublicUser>)
    requires Valid(db)
    ensures Atomic(db, o)
    ensures !Visible(db, id) ==> o.result == Err(NotFound)
    ensures Visible(db, id) && !Truthy(db.users[id].avatar) ==>
      o.result == Err(UndefinedRead) && !IsHttp(o.result.error) && !HasDestroy(o.trace)
    ensures HasDestroy(o.trace) <==> Visible(db, id) && Truthy(db.users[id].avatar)
    ensures HasDestroy(o.trace) ==> Destroy(Cloudinary.DeleteTarget(db.users[id].avatar.value, None)) in o.trace
    ensures o.result.Ok? <==> HasDestroy(o.trace) && env.destroyOk && env.writeOk
    ensures o.result.Ok? ==> (
      var stored := db.users[id].(avatar := None, updatedAt := Some(env.now));
      && Valid(o.db) && o.db.users == db.users[id := stored]
      && o.db.companies == db.companies && o.db.logs == db.logs
      && o.result.value == Public(stored) && o.result.value.avatar.None?)
  {
    match FindUserById(db, id)
    case Err(e) =>
      o := Abort(db, [Begin], e);
    case Ok(u) =>
      o := ClearAvatar(db, u, BadRequestAsWritten(AvatarDeleted), env);
  }

  /** The body of `deleteAvatar` once the row is found; `missing` is what the guard throws. */
  method ClearAvatar(db: Db, u: UserEntity, missing: Failure, env: Env) returns (o: Tx<PublicUser>)
    requires Valid(db) && u.id in db.users && db.users[u.id] == u
    ensures Atomic(db, o)
    ensures !Truthy(u.avatar) ==> o.result == Err(missing)
    ensures HasDestroy(o.trace) <==> Truthy(u.avatar)
    ensures HasDestroy(o.trace) ==> Destroy(Cloudinary.DeleteTarget(u.avatar.value, None)) in o.trace
    ensures o.result.Ok? <==> Truthy(u.avatar) && env.destroyOk && env.writeOk
    ensures o.result.Ok? ==> (
      var stored := u.(avatar := None, updatedAt := Some(env.now));
      && Valid(o.db) && o.db.users == db.users[u.id := stored]
      && o.db.companies == db.companies && o.db.logs == db.logs
      && o.result.value == Public(stored))
  {
    if !Truthy(u.avatar) {
      o := Abort(db, [Begin], missing);
      return;
    }
    var done := [Begin, Destroy(Cloudinary.DeleteTarget(u.avatar.value, None))];
    assert done[1].Destroy?;
    if !env.destroyOk {
      o := Abort(db, done, MediaError);
      return;
    }
    var stored := u.(avatar := None, updatedAt := Some(env.now));
    o := WriteCommit(db, done, SaveUser(u.id), PutUser(db, stored), Public(stored), env.writeOk);
  }

  /**
   * `deleteUser(id, admin)`: deleting oneself is refused before any
   * transaction; an Admin may delete only plain users; the avatar asset is
   * destroyed first, and a failed destroy rolls back with the row in place.
   */
  method DeleteUser(db: Db, id: nat, admin: Actor, env: Env) returns (o: Tx<()>)
    requires Valid(db)
    ensures id == admin.id ==> o == Tx(Err(Forbidden(None)), [], db)
    ensures id != admin.id ==> Atomic(db, o)
    ensures id != admin.id && !Visible(db, id) ==> o.result == Err(NotFound)
    ensures id != admin.id && Visible(db, id) && AdminBlocked(Some(admin.role), db.users[id]) ==> o.result == Err(Forbidden(None))
    ensures HasDestroy(o.trace) <==>
      id != admin.id && Visible(db, id) && !AdminBlocked(Some(admin.role), db.users[id]) && Truthy(db.users[id].avatar)
    ensures HasDestroy(o.trace) && !env.destroyOk ==> o.result == Err(MediaError) && id in o.db.users
    ensures o.result.Ok? <==>
      && id != admin.id && Visible(db, id) && !AdminBlocked(Some(admin.role), db.users[id])
      && (Truthy(db.users[id].avatar) ==> env.destroyOk) && env.writeOk
    ensures o.result.Ok? ==> Valid(o.db) && id !in o.db.users && o.db.users == db.users - {id}
    ensures o.result.Ok? ==> forall k :: k in o.db.companies <==> k in db.companies && db.companies[k].userId != id
    ensures o.result.Ok? ==> o.db == RemoveUser(db, id)
  {
    if id == admin.id {
      return Tx(Err(Forbidden(None)), [], db);
    }
    match FindUserById(db, id)
    case Err(e) =>
      o := Abort(db, [Begin], e);
    case Ok(u) =>
      if AdminBlocked(Some(admin.role), u) {
        o := Abort(db, [Begin], Forbidden(None));
      } else {
        o := RemoveAccount(db, u, env);
      }
  }

  /** The body of `deleteUser` once the row is found and may be deleted. */
  method RemoveAccount(db: Db, u: UserEntity, env: Env) returns (o: Tx<()>)
    requires Valid(db) && u.id in db.users && db.users[u.id] == u
    ensures Atomic(db, o)
    ensures HasDestroy(o.trace) <==> Truthy(u.avatar)
    ensures HasDestroy(o.trace) ==> Destroy(Cloudinary.DeleteTarget(u.avatar.value, None)) in o.trace
    ensures HasDestroy(o.trace) && !env.destroyOk ==> o.result == Err(MediaError)
    ensures o.result.Ok? <==> (Truthy(u.avatar) ==> env.destroyOk) && env.writeOk
    ensures o.result.Ok? ==> Valid(o.db) && o.db.users == db.users - {u.id}
    ensures o.result.Ok? ==> forall k :: k in o.db.companies <==> k in db.companies && db.companies[k].userId != u.id
    ensures o.result.Ok? ==> o.db == RemoveUser(db, u.id)
  {
    var done := if Truthy(u.avatar) then [Begin, Destroy(Cloudinary.DeleteTarget(u.avatar.value, None))] else [Begin];
    assert Truthy(u.avatar) ==> done[1].Destroy?;
    if Truthy(u.avatar) && !env.destroyOk {
      o := Abort(db, done, MediaError);
    } else {
      o := WriteCommit(db, done, DeleteUserRow(u.id), RemoveUser(db, u.id), (), env.writeOk);
    }
  }
}
