/**
 * The three entities (users, companies, action logs) and the database they
 * live in: one table per entity, generated ids, and soft-deleted user rows that
 * only `withDeleted` lookups see.
 */
module Entities {
  import opened Wrappers
  import opened Chars
  import opened Strings

  /** An ISO-8601 time stamp from `new Date().toISOString()`; never inspected. */
  type Timestamp = string

  datatype Role = User | Admin | SuperAdmin

  /** The caller as the access token describes it (`IUser`). */
  datatype Actor = Actor(id: nat, role: Role)

  datatype UserEntity = UserEntity(
    id: nat,
    email: string,
    username: string,
    password: string,
    role: Role,
    avatar: Option<string>,
    passwordResetToken: Option<string>,
    createdAt: Option<Timestamp>,
    updatedAt: Option<Timestamp>)

  /**
   * `instanceToInstance(user)`: the row without the `@Exclude()` columns
   * (password and reset token).
   */
  datatype PublicUser = PublicUser(
    id: nat,
    email: string,
    username: string,
    role: Role,
    avatar: Option<string>,
    createdAt: Option<Timestamp>,
    updatedAt: Option<Timestamp>)

  function Public(u: UserEntity): (p: PublicUser)
    ensures p.id == u.id && p.email == u.email && p.username == u.username && p.role == u.role
    ensures p.avatar == u.avatar && p.createdAt == u.createdAt && p.updatedAt == u.updatedAt
  {
    PublicUser(u.id, u.email, u.username, u.role, u.avatar, u.createdAt, u.updatedAt)
  }

  /** The public view does not depend on the password or the reset token: neither can leak through it. */
  lemma PublicHidesSecrets(u: UserEntity, password: string, token: Option<string>)
    ensures Public(u.(password := password, passwordResetToken := token)) == Public(u)
  {
  }

  /**
   * A `UserEntity` instance that has not been saved yet: the constructor and
   * the services set some fields, the database fills the rest on insert.
   */
  datatype UserDraft = UserDraft(
    email: Option<string>,
    username: Option<string>,
    password: Option<string>,
    role: Option<Role>,
    createdAt: Option<Timestamp>,
    updatedAt: Option<Timestamp>)

  /** `.replace(/^\w/, (c) => c.toUpperCase())` */
  function CapitalizeFirst(s: string): (r: string)
    ensures |r| == |s|
    ensures forall i :: 1 <= i < |s| ==> r[i] == s[i]
    ensures |s| > 0 && IsWordChar(s[0]) ==> r[0] == UpperWordChar(s[0])
    ensures |s| > 0 && !IsWordChar(s[0]) ==> r[0] == s[0]
  {
    if |s| > 0 && IsWordChar(s[0]) then [UpperWordChar(s[0])] + s[1..] else s
  }

  /** The username the constructor derives from an email. */
  function UsernameFromEmail(email: string): (name: string)
    ensures |name| == |Before(email, '@')|
    ensures '@' !in name
    ensures forall i :: 1 <= i < |name| ==> name[i] == email[i]
    ensures |name| > 0 ==> name[0] == (if IsWordChar(email[0]) then UpperWordChar(email[0]) else email[0])
  {
    var local := Before(email, '@');
    var name := CapitalizeFirst(local);
    assert '@' !in name by {
      if |local| > 0 {
        assert local[0] != '@';
        assert name == [name[0]] + local[1..];
        assert forall x :: x in local[1..] ==> x in local;
      }
    }
    name
  }

  /** Capitalising an already capitalised string changes nothing. */
  lemma CapitalizeIdempotent(s: string)
    ensures CapitalizeFirst(CapitalizeFirst(s)) == CapitalizeFirst(s)
  {
  }

  /** An instance with no field set: what `new UserEntity()` builds. */
  const EmptyDraft: UserDraft := UserDraft(None, None, None, None, None, None)

  /**
   * `new UserEntity(user?)`: with an argument, the email is stored unchanged,
   * the username is derived from it and both time stamps are set to `now`.
   */
  function NewUserEntity(init: Option<string>, now: Timestamp): (d: UserDraft)
    ensures init.None? ==> d == EmptyDraft
    ensures init.Some? ==>
      && d.email == init
      && d.username == Some(UsernameFromEmail(init.value))
      && d.createdAt == Some(now) && d.updatedAt == Some(now)
      && d.password.None? && d.role.None?
  {
    match init
    case None => EmptyDraft
    case Some(email) => UserDraft(Some(email), Some(UsernameFromEmail(email)), None, None, Some(now), Some(now))
  }

  /**
   * The row an insert of `d` produces under id `id`: the role column defaults
   * to `User`, `avatar` and `passwordResetToken` to null; `None` when a
   * NOT NULL column without a default (email, username, password) is unset.
   */
  function Materialize(d: UserDraft, id: nat): (r: Option<UserEntity>)
    ensures r.Some? <==> d.email.Some? && d.username.Some? && d.password.Some?
    ensures r.Some? ==>
      && r.value.id == id
      && Some(r.value.email) == d.email && Some(r.value.username) == d.username
      && Some(r.value.password) == d.password
      && (d.role.None? ==> r.value.role == User)
      && (d.role.Some? ==> r.value.role == d.role.value)
      && r.value.avatar.None? && r.value.passwordResetToken.None?
      && r.value.createdAt == d.createdAt && r.value.updatedAt == d.updatedAt
  {
    if d.email.Some? && d.username.Some? && d.password.Some? then
      Some(UserEntity(id, d.email.value, d.username.value, d.password.value,
                      d.role.GetOr(User), None, None, d.createdAt, d.updatedAt))
    else None
  }

  datatype CompanyEntity = CompanyEntity(
    id: nat,
    name: string,
    service: string,
    capital: int,
    logo: Option<string>,
    createdAt: Option<Timestamp>,
    updatedAt: Option<Timestamp>,
    userId: nat)

  datatype LogsAction = Create | Update | Delete

  /** The `metadata.reason` text `${role} <verb> <subject>`, kept structured. */
  datatype Reason = Reason(role: Role, verb: string, subject: string)

  datatype ActionLogEntity = ActionLogEntity(
    id: nat,
    action: LogsAction,
    userId: nat,
    companyId: Option<nat>,
    entityName: Option<string>,
    metadata: Option<Reason>,
    createdAt: Option<Timestamp>)

  /** The database: tables keyed by generated id, plus the next id of each sequence. */
  datatype Db = Db(
    users: map<nat, UserEntity>,
    softDeleted: set<nat>,
    nextUserId: nat,
    companies: map<nat, CompanyEntity>,
    nextCompanyId: nat,
    logs: seq<ActionLogEntity>,
    nextLogId: nat)

  /**
   * The table constraints: keys match ids below their sequence, emails are
   * unique, and every company references an existing user row.
   */
  predicate Valid(db: Db) {
    && 1 <= db.nextUserId && 1 <= db.nextCompanyId && 1 <= db.nextLogId
    && (forall k :: k in db.users ==> 1 <= k < db.nextUserId && db.users[k].id == k)
    && db.softDeleted <= db.users.Keys
    && (forall a, b :: a in db.users && b in db.users && a != b ==> db.users[a].email != db.users[b].email)
    && (forall k :: k in db.companies ==> 1 <= k < db.nextCompanyId && db.companies[k].id == k)
    && (forall k :: k in db.companies ==> db.companies[k].userId in db.users)
    && (forall i :: 0 <= i < |db.logs| ==> db.logs[i].id < db.nextLogId)
  }

  /** A row plain `find*` calls can return (not soft-deleted). */
  predicate Visible(db: Db, id: nat) {
    id in db.users && id !in db.softDeleted
  }

  /** `findOneBy({ id })` on the users table. */
  function FindUser(db: Db, id: nat): (r: Option<UserEntity>)
    ensures r.Some? <==> Visible(db, id)
    ensures r.Some? ==> r.value == db.users[id]
  {
    if Visible(db, id) then Some(db.users[id]) else None
  }

  predicate RowMatches(db: Db, p: UserEntity -> bool, withDeleted: bool, k: nat) {
    k in db.users && (withDeleted || k !in db.softDeleted) && p(db.users[k])
  }

  /** Scans user ids upward from `from` for the first row satisfying `p`. */
  function ScanUsers(db: Db, p: UserEntity -> bool, withDeleted: bool, from: nat): (r: Option<nat>)
    ensures r.Some? ==> from <= r.value && RowMatches(db, p, withDeleted, r.value)
    ensures r.Some? ==> forall k :: from <= k < r.value ==> !RowMatches(db, p, withDeleted, k)
    ensures r.None? ==> forall k :: from <= k < db.nextUserId ==> !RowMatches(db, p, withDeleted, k)
    decreases db.nextUserId - from
  {
    if from >= db.nextUserId then None
    else if RowMatches(db, p, withDeleted, from) then Some(from)
    else ScanUsers(db, p, withDeleted, from + 1)
  }

  /**
   * `findOne({ where, withDeleted })` on the users table for a condition `p`
   * on a non-key column: some matching row, or nothing when none matches.
   * The query has no ORDER BY, so the program fixes no particular row; the
   * scan takes the smallest id, and no contract relies on that choice.
   */
  function FindUserWhere(db: Db, p: UserEntity -> bool, withDeleted: bool): (r: Option<nat>)
    requires Valid(db)
    ensures r.Some? ==> RowMatches(db, p, withDeleted, r.value)
    ensures r.None? <==> forall k: nat :: !RowMatches(db, p, withDeleted, k)
  {
    ScanUsers(db, p, withDeleted, 0)
  }

  /** `findOne({ where: { email }, withDeleted })`. */
  function FindByEmail(db: Db, email: string, withDeleted: bool): (r: Option<UserEntity>)
    requires Valid(db)
    ensures r.Some? <==> exists k :: k in db.users && (withDeleted || k !in db.softDeleted) && db.users[k].email == email
    ensures r.Some? ==> r.value.email == email && r.value.id in db.users && db.users[r.value.id] == r.value
    ensures r.Some? ==> withDeleted || r.value.id !in db.softDeleted
  {
    var hasEmail := (u: UserEntity) => u.email == email;
    match FindUserWhere(db, hasEmail, withDeleted)
    case None =>
      assert forall k :: k in db.users && (withDeleted || k !in db.softDeleted) ==> db.users[k].email != email by {
        forall k | k in db.users && (withDeleted || k !in db.softDeleted)
          ensures db.users[k].email != email
        {
          assert !RowMatches(db, hasEmail, withDeleted, k);
        }
      }
      None
    case Some(k) => Some(db.users[k])
  }

  /**
   * `findOne({ where: { email }, withDeleted })` with an email the request
   * body may lack: an undefined value drops the condition, so the lookup
   * returns any row it may see.
   */
  function FindByOptionalEmail(db: Db, email: Option<string>, withDeleted: bool): (r: Option<UserEntity>)
    requires Valid(db)
    ensures email.Some? ==> r == FindByEmail(db, email.value, withDeleted)
    ensures email.None? ==> (r.Some? <==> exists k :: k in db.users && (withDeleted || k !in db.softDeleted))
    ensures r.Some? ==> r.value.id in db.users && db.users[r.value.id] == r.value
    ensures r.Some? ==> withDeleted || r.value.id !in db.softDeleted
  {
    if email.Some? then FindByEmail(db, email.value, withDeleted)
    else
      var any := (u: UserEntity) => true;
      match FindUserWhere(db, any, withDeleted)
      case None =>
        assert forall k :: !(k in db.users && (withDeleted || k !in db.softDeleted)) by {
          forall k ensures !(k in db.users && (withDeleted || k !in db.softDeleted)) {
            assert !RowMatches(db, any, withDeleted, k);
          }
        }
        None
      case Some(k) =>
        assert RowMatches(db, any, withDeleted, k);
        Some(db.users[k])
  }

  /** Saves a changed row back under its own id (`save` of a loaded entity). */
  function PutUser(db: Db, u: UserEntity): (db': Db)
    requires Valid(db) && u.id in db.users && u.email == db.users[u.id].email
    ensures Valid(db')
    ensures db'.users == db.users[u.id := u]
    ensures db' == db.(users := db'.users)
  {
    db.(users := db.users[u.id := u])
  }

  /** Inserts a new row, taking the next id of the users sequence. */
  function InsertUser(db: Db, u: UserEntity): (db': Db)
    requires Valid(db) && u.id == db.nextUserId
    requires forall k :: k in db.users ==> db.users[k].email != u.email
    ensures Valid(db')
    ensures db'.users == db.users[u.id := u] && db'.nextUserId == db.nextUserId + 1
    ensures db' == db.(users := db'.users, nextUserId := db'.nextUserId)
  {
    db.(users := db.users[u.id := u], nextUserId := db.nextUserId + 1)
  }

  /**
   * A hard `delete` of a user row; the foreign key of `company.userId` is
   * declared `onDelete: "CASCADE"`, so the user's companies go with it.
   */
  function RemoveUser(db: Db, id: nat): (db': Db)
    requires Valid(db)
    ensures Valid(db')
    ensures db'.users == db.users - {id} && db'.softDeleted == db.softDeleted - {id}
    ensures forall k :: k in db'.companies <==> k in db.companies && db.companies[k].userId != id
    ensures forall k :: k in db'.companies ==> db'.companies[k] == db.companies[k]
    ensures db' == db.(users := db'.users, softDeleted := db'.softDeleted, companies := db'.companies)
  {
    var kept := map k | k in db.companies && db.companies[k].userId != id :: db.companies[k];
    db.(users := db.users - {id}, softDeleted := db.softDeleted - {id}, companies := kept)
  }

  function PutCompany(db: Db, c: CompanyEntity): (db': Db)
    requires Valid(db) && c.id in db.companies && c.userId in db.users
    ensures Valid(db')
    ensures db' == db.(companies := db.companies[c.id := c])
  {
    db.(companies := db.companies[c.id := c])
  }

  function InsertCompany(db: Db, c: CompanyEntity): (db': Db)
    requires Valid(db) && c.id == db.nextCompanyId && c.userId in db.users
    ensures Valid(db')
    ensures db' == db.(companies := db.companies[c.id := c], nextCompanyId := db.nextCompanyId + 1)
  {
    db.(companies := db.companies[c.id := c], nextCompanyId := db.nextCompanyId + 1)
  }

  function RemoveCompany(db: Db, id: nat): (db': Db)
    requires Valid(db)
    ensures Valid(db')
    ensures db' == db.(companies := db.companies - {id})
  {
    db.(companies := db.companies - {id})
  }

  function AppendLog(db: Db, entry: ActionLogEntity): (db': Db)
    requires Valid(db) && entry.id == db.nextLogId
    ensures Valid(db')
    ensures db' == db.(logs := db.logs + [entry], nextLogId := db.nextLogId + 1)
  {
    db.(logs := db.logs + [entry], nextLogId := db.nextLogId + 1)
  }
}
