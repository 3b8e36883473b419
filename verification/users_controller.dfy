/**
 * The rules the users controller adds on top of the service: which roles each
 * route admits, the Admin-may-only-create-plain-users gate, and which caller
 * role reaches `updateUser`.
 */
module UsersController {
  import opened Wrappers
  import opened Errors
  import opened Entities
  import opened Transaction
  import Users

  datatype Route =
    | ListUsers      // GET    /users
    | GetMe          // GET    /users/me
    | UpdateMe       // PATCH  /users/me
    | PutAvatar      // PUT    /users/me/avatar
    | DeleteMyAvatar // DELETE /users/me/avatar
    | CreateUser     // POST   /users/admin
    | UpdateUser     // PATCH  /users/admin/:id
    | DeleteUser     // DELETE /users/admin/:id

  /** The `@Roles(...)` metadata of a route; `None` when the route declares none. */
  function DeclaredRoles(r: Route): (roles: Option<set<Role>>)
    ensures roles.Some? ==> User !in roles.value && Admin in roles.value && SuperAdmin in roles.value
  {
    match r
    case ListUsers => Some({SuperAdmin, Admin})
    case CreateUser => Some({SuperAdmin, Admin})
    case UpdateUser => Some({SuperAdmin, Admin})
    case DeleteUser => Some({SuperAdmin, Admin})
    case _ => None
  }

  /** Whether the role guard lets a caller with `role` through. */
  predicate Admits(r: Route, role: Role) {
    DeclaredRoles(r).None? || role in DeclaredRoles(r).value
  }

  /** A plain user reaches only the routes about its own account. */
  lemma PlainUserReachesOnlyOwnAccount(r: Route)
    ensures Admits(r, User) <==> r in {GetMe, UpdateMe, PutAvatar, DeleteMyAvatar}
    ensures Admits(r, Admin) && Admits(r, SuperAdmin)
  {
  }

  /** `role === Role.Admin && dto.role !== Role.User` refuses the request. */
  predicate CreateAllowed(callerRole: Role, requested: Option<Role>) {
    !(callerRole == Admin && requested != Some(User))
  }

  /**
   * `createUser(role, dto)`: the gate runs before the service, so a refused
   * request opens no transaction and writes nothing.
   */
  method CreateUserCall(db: Db, callerRole: Role, dto: Users.NewUser, hash: string -> string, env: Env) returns (o: Tx<PublicUser>)
    requires Valid(db)
    ensures !CreateAllowed(callerRole, dto.role) ==> o == Tx(Err(BadRequest(None)), [], db)
    ensures callerRole == Admin && dto.role.None? ==> o.result == Err(BadRequest(None))
    ensures callerRole == Admin && o.result.Ok? ==> o.result.value.role == User
    ensures callerRole != Admin ==> (o.result.Ok? <==> dto.email.Some? && !Users.Taken(db, dto.email) && env.writeOk)
    ensures o.result.Ok? ==> o.result.value.role == (if dto.role.Some? then dto.role.value else User)
    ensures o.result.Ok? ==> Valid(o.db) && Some(o.result.value.email) == dto.email && o.result.value.id == db.nextUserId
  {
    if !CreateAllowed(callerRole, dto.role) {
      o := Tx(Err(BadRequest(None)), [], db);
    } else {
      o := Users.AddUser(db, dto, hash, env);
    }
  }

  /** `PATCH /users/me` passes no role, so the Admin-target rule never refuses it. */
  method UpdateMeCall(db: Db, id: nat, username: Option<string>, avatar: Option<File>, env: Env) returns (o: Tx<Users.UpdateReply>)
    requires Valid(db)
    ensures o.result != Err(Forbidden(None))
    ensures o.result.Ok? <==> Visible(db, id) && (avatar.Some? ==> env.upload.Some?) && env.writeOk
  {
    o := Users.UpdateUser(db, id, username, avatar, None, env);
  }

  /** `PATCH /users/admin/:id` forwards the caller's role to the service. */
  method UpdateByAdminCall(db: Db, callerRole: Role, id: nat, username: Option<string>, avatar: Option<File>, env: Env) returns (o: Tx<Users.UpdateReply>)
    requires Valid(db)
    ensures callerRole != Admin ==> o.result != Err(Forbidden(None))
    ensures callerRole == Admin && Visible(db, id) && db.users[id].role != User ==> o.result == Err(Forbidden(None))
    ensures o.result.Ok? ==> Visible(db, id) && (callerRole == Admin ==> db.users[id].role == User)
  {
    o := Users.UpdateUser(db, id, username, avatar, Some(callerRole), env);
  }
}
