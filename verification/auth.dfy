/**
 * The authentication service: credential checks, registration, the login
 * token payload, and the password-reset token's issue and consumption.
 * Hashing, comparison, signing and random bytes are parameters.
 */
module Auth {
  import opened Wrappers
  import opened Errors
  import opened Entities
  import Hex
  import Users

  /** How `bcrypt.compare` settles. */
  datatype CompareOutcome = Match | Mismatch | Throws

  /** `checkPass`: a comparison that throws counts as a mismatch. */
  function CheckPass(c: CompareOutcome): (ok: bool)
    ensures ok <==> c == Match
  {
    match c
    case Match => true
    case Mismatch => false
    case Throws => false
  }

  /** `const { password, ...result } = user`: every column but the password. */
  datatype SessionUser = SessionUser(
    id: nat,
    email: string,
    username: string,
    role: Role,
    avatar: Option<string>,
    passwordResetToken: Option<string>,
    createdAt: Option<Timestamp>,
    updatedAt: Option<Timestamp>)

  function WithoutPassword(u: UserEntity): (s: SessionUser)
    ensures s.id == u.id && s.email == u.email && s.username == u.username && s.role == u.role
    ensures s.avatar == u.avatar && s.passwordResetToken == u.passwordResetToken
    ensures s.createdAt == u.createdAt && s.updatedAt == u.updatedAt
  {
    SessionUser(u.id, u.email, u.username, u.role, u.avatar, u.passwordResetToken, u.createdAt, u.updatedAt)
  }

  /** The session user does not depend on the password hash. */
  lemma WithoutPasswordHidesPassword(u: UserEntity, password: string)
    ensures WithoutPassword(u.(password := password)) == WithoutPassword(u)
  {
  }

  /**
   * `validateUser(email, pass)`: null for an unknown (or soft-deleted) email
   * and for a wrong password; otherwise the user without its password.
   */
  function ValidateUser(db: Db, email: string, pass: string, compare: (string, string) -> CompareOutcome): (r: Option<SessionUser>)
    requires Valid(db)
    ensures r.Some? <==>
      exists k :: Visible(db, k) && db.users[k].email == email && compare(pass, db.users[k].password) == Match
    ensures r.Some? ==> (
      && Visible(db, r.value.id) && r.value.email == email
      && r.value == WithoutPassword(db.users[r.value.id]))
  {
    match FindByEmail(db, email, false)
    case None => None
    case Some(u) =>
      if !CheckPass(compare(pass, u.password)) then
        assert forall k :: Visible(db, k) && db.users[k].email == email ==> k == u.id;
        None
      else Some(WithoutPassword(u))
  }

  /** The result of a service call that saves without a query runner. */
  datatype Saved<T> = Saved(result: Outcome<T>, db: Db)

  /**
   * `register({ email, password })`: a taken email (soft-deleted rows
   * included) is refused; otherwise a user with the hashed password and the
   * default role is saved. A body without an email drops the lookup's
   * condition, so any existing row refuses it; on an empty table the entity
   * constructor reads `.split` of the missing email and throws.
   */
  function Register(db: Db, email: Option<string>, password: string, hash: string -> string, now: Timestamp, writeOk: bool): (o: Saved<UserEntity>)
    requires Valid(db)
    ensures Users.Taken(db, email) ==> o == Saved(Err(Forbidden(Some(EmailExist))), db)
    ensures email.None? && !Users.Taken(db, email) ==> o == Saved(Err(UndefinedRead), db)
    ensures o.result.Ok? <==> email.Some? && !Users.Taken(db, email) && writeOk
    ensures o.result.Err? ==> o.db == db
    ensures o.result.Ok? ==> (
      && Valid(o.db) && o.db.users == db.users[db.nextUserId := o.result.value]
      && o.db.companies == db.companies && o.db.logs == db.logs
      && o.result.value.id == db.nextUserId && Some(o.result.value.email) == email
      && o.result.value.password == hash(password) && o.result.value.role == User
      && o.result.value.username == UsernameFromEmail(email.value))
  {
    if FindByOptionalEmail(db, email, true).Some? then Saved(Err(Forbidden(Some(EmailExist))), db)
    else if email.None? then Saved(Err(UndefinedRead), db)
    else
      var draft := NewUserEntity(email, now).(password := Some(hash(password)));
      var row := Materialize(draft, db.nextUserId);
      assert row.Some?;
      if !writeOk then Saved(Err(DbError), db)
      else Saved(Ok(row.value), InsertUser(db, row.value))
  }

  /**
   * A freshly registered account passes `validateUser` with its own password,
   * whenever the comparison accepts a password against its own hash.
   */
  lemma RegisteredUserValidates(db: Db, email: string, password: string, hash: string -> string, now: Timestamp,
                                compare: (string, string) -> CompareOutcome)
    requires Valid(db) && !Users.EmailTaken(db, email)
    requires compare(password, hash(password)) == Match
    ensures Register(db, Some(email), password, hash, now, true).result.Ok?
    ensures ValidateUser(Register(db, Some(email), password, hash, now, true).db, email, password, compare)
         == Some(WithoutPassword(Register(db, Some(email), password, hash, now, true).result.value))
  {
    var o := Register(db, Some(email), password, hash, now, true);
    var u := o.result.value;
    assert db.nextUserId !in db.users;
    assert Visible(o.db, u.id);
    assert o.db.users[u.id] == u;
  }

  /** The access-token payload: `{ email, sub: id, role }`. */
  datatype JwtPayload = JwtPayload(email: string, sub: nat, role: Role)

  /** The options of the two signatures: defaults, or a 7-day refresh token signed with the refresh secret. */
  datatype SignOptions = AccessDefaults | RefreshOptions(expiresIn: string, secret: string)

  const RefreshExpiry: string := "7d"

  function LoginPayload(u: SessionUser): (p: JwtPayload)
    ensures p.email == u.email && p.sub == u.id && p.role == u.role
  {
    JwtPayload(u.email, u.id, u.role)
  }

  /** `login(user)`: the access and the refresh token, signed over the same payload. */
  function Login(u: SessionUser, refreshSecret: string, sign: (JwtPayload, SignOptions) -> string): (tokens: (string, string))
    ensures tokens.0 == sign(JwtPayload(u.email, u.id, u.role), AccessDefaults)
    ensures tokens.1 == sign(JwtPayload(u.email, u.id, u.role), RefreshOptions(RefreshExpiry, refreshSecret))
  {
    var p := LoginPayload(u);
    (sign(p, AccessDefaults), sign(p, RefreshOptions(RefreshExpiry, refreshSecret)))
  }

  /**
   * When some visible account has the email and accepts the password,
   * `validateUser` finds that very account and `login` signs both tokens
   * over its email, id and stored role.
   */
  lemma LoginSignsValidatedAccount(db: Db, email: string, pass: string, compare: (string, string) -> CompareOutcome,
                                   k: nat, refreshSecret: string, sign: (JwtPayload, SignOptions) -> string)
    requires Valid(db)
    requires Visible(db, k) && db.users[k].email == email && compare(pass, db.users[k].password) == Match
    ensures ValidateUser(db, email, pass, compare).Some?
    ensures ValidateUser(db, email, pass, compare).value.id == k
    ensures Login(ValidateUser(db, email, pass, compare).value, refreshSecret, sign)
         == (sign(JwtPayload(email, k, db.users[k].role), AccessDefaults),
             sign(JwtPayload(email, k, db.users[k].role), RefreshOptions(RefreshExpiry, refreshSecret)))
  {
    var v := ValidateUser(db, email, pass, compare);
    assert v.Some?;
    assert db.users[v.value.id].email == db.users[k].email;
  }

  /** The number of random bytes behind a reset token. */
  const ResetTokenBytes: nat := 20

  /**
   * Store the hex form of `random` as the found row's reset token and return
   * it; Unauthorized when no row was found.
   */
  function IssueToken(db: Db, found: Option<UserEntity>, random: seq<Hex.byte>, now: Timestamp, writeOk: bool): (o: Saved<string>)
    requires Valid(db) && |random| == ResetTokenBytes
    requires found.Some? ==> Visible(db, found.value.id) && db.users[found.value.id] == found.value
    ensures o.result == Err(Unauthorized) <==> found.None?
    ensures o.result.Err? ==> o.db == db
    ensures o.result.Ok? <==> found.Some? && writeOk
    ensures o.result.Ok? ==> (
      && |o.result.value| == 40
      && (forall i :: 0 <= i < |o.result.value| ==> Hex.IsLowerHexDigit(o.result.value[i]))
      && Hex.FromHex(o.result.value) == Some(random))
    ensures o.result.Ok? ==> (
      var u := found.value;
      && Valid(o.db)
      && o.db == db.(users := db.users[u.id := u.(passwordResetToken := Some(o.result.value), updatedAt := Some(now))]))
  {
    match found
    case None => Saved(Err(Unauthorized), db)
    case Some(u) =>
      var token := Hex.ToHex(random);
      Hex.FromHexToHex(random);
      if !writeOk then Saved(Err(DbError), db)
      else Saved(Ok(token), PutUser(db, u.(passwordResetToken := Some(token), updatedAt := Some(now))))
  }

  /**
   * `resetPassword({ email })` with a body lacking the email refused:
   * Unauthorized unless a visible row has the email; otherwise the hex form
   * of `random` is stored as that row's reset token and returned.
   */
  function ResetPassword(db: Db, email: Option<string>, random: seq<Hex.byte>, now: Timestamp, writeOk: bool): (o: Saved<string>)
    requires Valid(db) && |random| == ResetTokenBytes
    ensures o.result == Err(Unauthorized) <==> email.None? || FindByEmail(db, email.value, false).None?
    ensures o.result.Err? ==> o.db == db
    ensures o.result.Ok? <==> email.Some? && FindByEmail(db, email.value, false).Some? && writeOk
    ensures o.result.Ok? ==> (
      && |o.result.value| == 40
      && (forall i :: 0 <= i < |o.result.value| ==> Hex.IsLowerHexDigit(o.result.value[i]))
      && Hex.FromHex(o.result.value) == Some(random))
    ensures o.result.Ok? ==> (
      var u := FindByEmail(db, email.value, false).value;
      && Valid(o.db)
      && o.db == db.(users := db.users[u.id := u.(passwordResetToken := Some(o.result.value), updatedAt := Some(now))]))
  {
    if email.None? then Saved(Err(Unauthorized), db)
    else IssueToken(db, FindByEmail(db, email.value, false), random, now, writeOk)
  }

  /**
   * `resetPassword` as written: `findOneBy({ email })` with the email absent
   * has no condition, so some visible row gets the fresh token, which is
   * returned to the caller.
   */
  function ResetPasswordAsWritten(db: Db, email: Option<string>, random: seq<Hex.byte>, now: Timestamp, writeOk: bool): (o: Saved<string>)
    requires Valid(db) && |random| == ResetTokenBytes
    ensures email.Some? ==> o == ResetPassword(db, email, random, now, writeOk)
    ensures email.None? ==> (o.result == Err(Unauthorized) <==> forall k :: !Visible(db, k))
    ensures o.result.Ok? ==> Hex.FromHex(o.result.value) == Some(random)
    ensures o.result.Ok? ==>
      exists k :: Visible(db, k) && o.db == db.(users := db.users[k := db.users[k].(passwordResetToken := Some(o.result.value), updatedAt := Some(now))])
  {
    IssueToken(db, FindByOptionalEmail(db, email, false), random, now, writeOk)
  }

  /**
   * A body without an email, sent to a database where nobody has asked for a
   * reset, receives a token that then sets the password of an account that
   * never asked for one. The corrected call refuses the same body.
   */
  lemma MissingEmailHandsOutAToken(db: Db, random: seq<Hex.byte>, now: Timestamp,
                                   password: string, hash: string -> string, later: Timestamp)
    requires Valid(db) && |random| == ResetTokenBytes
    requires exists k :: Visible(db, k)
    requires forall k :: Visible(db, k) ==> db.users[k].passwordResetToken.None?
    ensures ResetPassword(db, None, random, now, true).result == Err(Unauthorized)
    ensures ResetPasswordAsWritten(db, None, random, now, true).result.Ok?
    ensures var r := ResetPasswordAsWritten(db, None, random, now, true);
      var s := SetPassword(r.db, password, Some(r.result.value), hash, later, true);
      && s.result.Ok? && s.result.value.password == hash(password)
      && Visible(db, s.result.value.id) && db.users[s.result.value.id].passwordResetToken.None?
  {
    var r := ResetPasswordAsWritten(db, None, random, now, true);
    assert r.result.Ok?;
    var t := r.result.value;
    var k :| Visible(db, k) && r.db == db.(users := db.users[k := db.users[k].(passwordResetToken := Some(t), updatedAt := Some(now))]);
    assert Holds(r.db, k, t);
    var s := SetPassword(r.db, password, Some(t), hash, later, true);
    assert s.result.Ok?;
    var j := s.result.value.id;
    assert Holds(r.db, j, t);
  }

  /** A visible row holding the token. */
  predicate Holds(db: Db, k: nat, token: string) {
    Visible(db, k) && db.users[k].passwordResetToken == Some(token)
  }

  /**
   * `setPassword({ password, passwordResetToken })` with an absent token
   * refused: Unauthorized unless a visible user holds the token; otherwise
   * that user's password is replaced by the hash and the token cleared.
   */
  function SetPassword(db: Db, password: string, token: Option<string>, hash: string -> string, now: Timestamp, writeOk: bool): (o: Saved<UserEntity>)
    requires Valid(db)
    ensures o.result == Err(Unauthorized) <==> token.None? || forall k :: !Holds(db, k, token.value)
    ensures o.result.Err? ==> o.db == db
    ensures o.result.Ok? ==> (
      && token.Some? && writeOk && Holds(db, o.result.value.id, token.value)
      && o.result.value == db.users[o.result.value.id].(password := hash(password), passwordResetToken := None, updatedAt := Some(now))
      && Valid(o.db) && o.db == db.(users := db.users[o.result.value.id := o.result.value]))
  {
    if token.None? then Saved(Err(Unauthorized), db)
    else
      var t := token.value;
      var holds := (u: UserEntity) => u.passwordResetToken == Some(t);
      match FindUserWhere(db, holds, false)
      case None =>
        assert forall k :: !Holds(db, k, t) by {
          forall k ensures !Holds(db, k, t) {
            assert !RowMatches(db, holds, false, k);
          }
        }
        Saved(Err(Unauthorized), db)
      case Some(k) =>
        assert RowMatches(db, holds, false, k);
        assert Holds(db, k, t);
        var u := db.users[k].(password := hash(password), passwordResetToken := None, updatedAt := Some(now));
        if !writeOk then Saved(Err(DbError), db)
        else Saved(Ok(u), PutUser(db, u))
  }

  /** A token held by one account works once: after it is consumed nobody holds it. */
  lemma TokenWorksOnce(db: Db, password: string, again: string, token: string, hash: string -> string, now: Timestamp, later: Timestamp)
    requires Valid(db)
    requires forall a, b :: Holds(db, a, token) && Holds(db, b, token) ==> a == b
    requires SetPassword(db, password, Some(token), hash, now, true).result.Ok?
    ensures SetPassword(SetPassword(db, password, Some(token), hash, now, true).db, again, Some(token), hash, later, true).result
         == Err(Unauthorized)
  {
    var o := SetPassword(db, password, Some(token), hash, now, true);
    var k := o.result.value.id;
    forall j ensures !Holds(o.db, j, token) {
      if j != k && Holds(o.db, j, token) {
        assert Holds(db, j, token);
      }
    }
  }

  /**
   * A reset token issued for a visible account (and held by no account
   * before) lets `setPassword` replace that account's password and clear
   * the token; nobody holds the token afterwards.
   */
  lemma ResetThenSetPassword(db: Db, email: string, random: seq<Hex.byte>, now: Timestamp,
                             password: string, hash: string -> string, later: Timestamp)
    requires Valid(db) && |random| == ResetTokenBytes
    requires FindByEmail(db, email, false).Some?
    requires forall k :: !Holds(db, k, Hex.ToHex(random))
    ensures ResetPassword(db, Some(email), random, now, true).result.Ok?
    ensures var r := ResetPassword(db, Some(email), random, now, true);
      var s := SetPassword(r.db, password, Some(r.result.value), hash, later, true);
      && s.result.Ok?
      && s.result.value.id == FindByEmail(db, email, false).value.id
      && s.result.value.email == email
      && s.result.value.password == hash(password) && s.result.value.passwordResetToken.None?
      && forall k :: !Holds(s.db, k, r.result.value)
  {
    var u := FindByEmail(db, email, false).value;
    var r := ResetPassword(db, Some(email), random, now, true);
    var t := r.result.value;
    assert t == Hex.ToHex(random);
    assert Holds(r.db, u.id, t);
    forall a, b | Holds(r.db, a, t) && Holds(r.db, b, t) ensures a == b {
      if a != u.id { assert Holds(db, a, t); }
      if b != u.id { assert Holds(db, b, t); }
    }
    var s := SetPassword(r.db, password, Some(t), hash, later, true);
    assert s.result.Ok?;
    assert s.result.value.id == u.id;
    TokenWorksOnce(r.db, password, password, t, hash, later, later);
  }

  /**
   * `setPassword` as written: `findOneBy({ passwordResetToken })` with an
   * absent token has no condition at all and returns some visible user.
   */
  function SetPasswordAsWritten(db: Db, password: string, token: Option<string>, hash: string -> string, now: Timestamp, writeOk: bool): (o: Saved<UserEntity>)
    requires Valid(db)
    ensures token.Some? ==> o == SetPassword(db, password, token, hash, now, writeOk)
    ensures token.None? ==> (o.result == Err(Unauthorized) <==> forall k :: !Visible(db, k))
    ensures o.result.Ok? ==> (
      && Visible(db, o.result.value.id)
      && o.result.value.password == hash(password) && o.result.value.passwordResetToken.None?
      && Valid(o.db) && o.db == db.(users := db.users[o.result.value.id := o.result.value]))
  {
    if token.Some? then SetPassword(db, password, token, hash, now, writeOk)
    else
      var any := (u: UserEntity) => true;
      match FindUserWhere(db, any, false)
      case None =>
        assert forall k :: !Visible(db, k) by {
          forall k ensures !Visible(db, k) {
            assert !RowMatches(db, any, false, k);
          }
        }
        Saved(Err(Unauthorized), db)
      case Some(k) =>
        assert RowMatches(db, any, false, k);
        assert Visible(db, k);
        var u := db.users[k].(password := hash(password), passwordResetToken := None, updatedAt := Some(now));
        if !writeOk then Saved(Err(DbError), db)
        else Saved(Ok(u), PutUser(db, u))
  }

  /**
   * Without any token, on a database where nobody has asked for a reset, the
   * as-written call still replaces some account's password; the corrected
   * call refuses the same input.
   */
  lemma MissingTokenTakesOverAnAccount(db: Db, password: string, hash: string -> string, now: Timestamp)
    requires Valid(db) && exists k :: Visible(db, k)
    requires forall k :: Visible(db, k) ==> db.users[k].passwordResetToken.None?
    ensures SetPasswordAsWritten(db, password, None, hash, now, true).result.Ok?
    ensures var o := SetPasswordAsWritten(db, password, None, hash, now, true);
      && Visible(db, o.result.value.id) && db.users[o.result.value.id].passwordResetToken.None?
      && o.result.value.password == hash(password)
    ensures SetPassword(db, password, None, hash, now, true).result == Err(Unauthorized)
  {
    var o := SetPasswordAsWritten(db, password, None, hash, now, true);
    assert o.result.Ok?;
  }
}
