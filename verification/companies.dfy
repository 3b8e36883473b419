/**
 * The company service: the ownership rule, and the five mutations, each one
 * transaction that writes the company row and exactly one audit record.
 */
module Companies {
  import opened Wrappers
  import opened Errors
  import opened Entities
  import opened Transaction
  import opened Paging
  import ActionLogs
  import Cloudinary
  import Numbers
  import opened Strings

  /** The `entityName` every company audit record carries. */
  const CompanyEntityName: string := "Company"

  /** A plain user may touch only the companies it owns; admins may touch any. */
  predicate MayTouch(actor: Actor, c: CompanyEntity) {
    actor.role != User || c.userId == actor.id
  }

  /**
   * `findCompany`: the row by id, then the ownership test; a missing row is
   * reported as NotFound whoever asks.
   */
  function FindCompany(db: Db, id: nat, actor: Actor): (r: Outcome<CompanyEntity>)
    ensures id !in db.companies ==> r == Err(NotFound)
    ensures id in db.companies && !MayTouch(actor, db.companies[id]) ==> r == Err(Forbidden(None))
    ensures r.Ok? <==> id in db.companies && MayTouch(actor, db.companies[id])
    ensures r.Ok? ==> r.value == db.companies[id]
  {
    if id !in db.companies then Err(NotFound)
    else if !MayTouch(actor, db.companies[id]) then Err(Forbidden(None))
    else Ok(db.companies[id])
  }

  /** `getCompany`: the same lookup outside any transaction. */
  function GetCompany(db: Db, id: nat, actor: Actor): (r: Outcome<CompanyEntity>)
    ensures r.Err? ==> r.error == NotFound || r.error == Forbidden(None)
    ensures r == Err(NotFound) <==> id !in db.companies
    ensures actor.role != User ==> (r.Ok? <==> id in db.companies)
    ensures r.Ok? ==> id in db.companies && r.value == db.companies[id] && (actor.role == User ==> r.value.userId == actor.id)
  {
    FindCompany(db, id, actor)
  }

  /** The body of `POST /companies`; `price` is not a column and is dropped on save. */
  datatype CompanyDto = CompanyDto(name: string, service: string, capital: int)

  /** The fields an update may carry; an absent field keeps the stored value. */
  datatype CompanyPatch = CompanyPatch(name: Option<string>, service: Option<string>, capital: Option<int>)

  /** `parseData(company, dto)`: copies the supplied fields onto the loaded row. */
  function ParseData(c: CompanyEntity, patch: CompanyPatch): (r: CompanyEntity)
    ensures r.name == patch.name.GetOr(c.name)
    ensures r.service == patch.service.GetOr(c.service)
    ensures r.capital == patch.capital.GetOr(c.capital)
    ensures r.(name := c.name, service := c.service, capital := c.capital) == c
  {
    c.(name := patch.name.GetOr(c.name), service := patch.service.GetOr(c.service), capital := patch.capital.GetOr(c.capital))
  }

  /** The audit record a company mutation writes, numbered by the log sequence. */
  function CompanyLog(db: Db, action: LogsAction, actor: Actor, companyId: nat, reason: Reason, now: Timestamp): (e: ActionLogEntity)
    ensures e.id == db.nextLogId && e.action == action && e.userId == actor.id
    ensures e.companyId == Some(companyId) && e.entityName == Some(CompanyEntityName)
    ensures e.metadata == Some(reason) && e.createdAt == Some(now)
  {
    ActionLogs.Record(ActionLogs.LogParams(action, actor.id, Some(companyId), Some(CompanyEntityName), None, Some(reason)), db.nextLogId, now)
  }

  /**
   * A committed call added exactly `entry` to the log table, inside its
   * transaction; a failed one logged nothing.
   */
  predicate Audited<T>(db: Db, o: Tx<T>, entry: ActionLogEntity) {
    && LogCount(o.trace) == (if o.result.Ok? then 1 else 0)
    && (o.result.Ok? ==> o.db.logs == db.logs + [entry] && BeforeEnd(o.trace, Logged(entry)))
    && (o.result.Err? ==> o.db.logs == db.logs)
  }

  /**
   * The tail the updating mutations share: save the changed row, log through
   * the query runner, commit; on a failure, clean up the uploaded asset (if
   * any) and roll back.
   */
  method SaveAndLog(db: Db, done: seq<Event>, c: CompanyEntity, publicId: Option<string>,
                    actor: Actor, action: LogsAction, reason: Reason, env: Env) returns (o: Tx<CompanyEntity>)
    requires Valid(db) && Opened(done) && !HasDestroy(done) && LogCount(done) == 0
    requires c.id in db.companies && c.userId in db.users
    ensures Atomic(db, o)
    ensures o.result.Ok? <==> env.writeOk && env.logOk
    ensures o.result.Ok? ==> o.result.value == c && Valid(o.db)
    ensures o.result.Ok? ==> o.db.companies == db.companies[c.id := c] && o.db.users == db.users
    ensures Audited(db, o, CompanyLog(db, action, actor, c.id, reason, env.now))
    ensures HasDestroy(o.trace) <==> publicId.Some? && publicId.value != "" && (!env.writeOk || !env.logOk)
    ensures HasDestroy(o.trace) ==> Destroy(Cloudinary.DeleteTarget(publicId.value, None)) in o.trace
    ensures o.result.Err? ==> o.result.error == (if HasDestroy(o.trace) && !env.destroyOk then MediaError else DbError)
  {
    var params := ActionLogs.LogParams(action, actor.id, Some(c.id), Some(CompanyEntityName), None, Some(reason));
    var w := ActionLogs.Log(db, Some(PutCompany(db, c)), params, env.now);
    o := StepLogCommit(db, done, SaveCompany(c.id), w.saved, w.runner.value, c, publicId, env);
  }

  /**
   * `createCompany(dto, id)`: the creator must still exist (a soft-deleted or
   * removed account is Unauthorized); the new row is owned by the creator.
   */
  method CreateCompany(db: Db, dto: CompanyDto, creatorId: nat, env: Env) returns (o: Tx<CompanyEntity>)
    requires Valid(db)
    ensures Atomic(db, o) && !HasDestroy(o.trace)
    ensures !Visible(db, creatorId) ==> o.result == Err(Unauthorized)
    ensures o.result.Ok? <==> Visible(db, creatorId) && env.writeOk && env.logOk
    ensures o.result.Ok? ==> Valid(o.db) && o.db.users == db.users
    ensures o.result.Ok? ==>
      && o.result.value == CompanyEntity(db.nextCompanyId, dto.name, dto.service, dto.capital, None, Some(env.now), Some(env.now), creatorId)
      && o.db.companies == db.companies[db.nextCompanyId := o.result.value]
      && o.db.nextCompanyId == db.nextCompanyId + 1
    ensures Visible(db, creatorId) ==>
      Audited(db, o, CompanyLog(db, Create, Actor(creatorId, db.users[creatorId].role), db.nextCompanyId,
                                Reason(db.users[creatorId].role, "created", dto.name), env.now))
  {
    match FindUser(db, creatorId)
    case None =>
      o := Abort(db, [Begin], Unauthorized);
    case Some(user) =>
      var c := CompanyEntity(db.nextCompanyId, dto.name, dto.service, dto.capital, None, Some(env.now), Some(env.now), creatorId);
      o := InsertAndLog(db, c, Actor(user.id, user.role), env);
  }

  /** Insert the new row and log its creation through the query runner, then commit. */
  method InsertAndLog(db: Db, c: CompanyEntity, actor: Actor, env: Env) returns (o: Tx<CompanyEntity>)
    requires Valid(db) && c.id == db.nextCompanyId && c.userId in db.users
    ensures Atomic(db, o) && !HasDestroy(o.trace)
    ensures o.result.Ok? <==> env.writeOk && env.logOk
    ensures o.result.Ok? ==> (
      && Valid(o.db) && o.db.users == db.users && o.result.value == c
      && o.db.companies == db.companies[c.id := c] && o.db.nextCompanyId == db.nextCompanyId + 1)
    ensures Audited(db, o, CompanyLog(db, Create, actor, c.id, Reason(actor.role, "created", c.name), env.now))
  {
    var reason := Reason(actor.role, "created", c.name);
    var params := ActionLogs.LogParams(Create, actor.id, Some(c.id), Some(CompanyEntityName), None, Some(reason));
    var w := ActionLogs.Log(db, Some(InsertCompany(db, c)), params, env.now);
    LogCountNone([Begin]);
    o := StepLogCommit(db, [Begin], SaveCompany(c.id), w.saved, w.runner.value, c, None, env);
  }

  /** The subject of a record: the company name, with " logo" for the logo mutations. */
  function Subject(name: string, ofLogo: bool): (s: string)
    ensures |s| == |name| + (if ofLogo then 5 else 0) && s[..|name|] == name
    ensures ofLogo ==> s[|name|..] == " logo"
  {
    if ofLogo then name + " logo" else name
  }

  /**
   * `uploadLogo` followed by save and log: the row gets the delivery URL of
   * the uploaded asset. The asset is destroyed again exactly when the upload
   * succeeded and a later step failed.
   */
  method UploadAndSave(db: Db, c: CompanyEntity, file: File, actor: Actor, ofLogo: bool, env: Env) returns (o: Tx<CompanyEntity>)
    requires Valid(db) && c.id in db.companies && c.userId in db.users
    ensures Atomic(db, o)
    ensures o.result.Ok? <==> env.upload.Some? && env.writeOk && env.logOk
    ensures o.result.Ok? ==> (
      && Valid(o.db) && o.db.users == db.users
      && o.result.value == c.(logo := Some(Cloudinary.Edit(env.upload.value.secureUrl, env.deliveryUrl)), updatedAt := Some(env.now))
      && o.db.companies == db.companies[c.id := o.result.value])
    ensures o.result.Ok? ==>
      Audited(db, o, CompanyLog(db, Update, actor, c.id, Reason(actor.role, "updated", Subject(c.name, ofLogo)), env.now))
    ensures HasDestroy(o.trace) <==> env.upload.Some? && env.upload.value.publicId != "" && (!env.writeOk || !env.logOk)
    ensures HasDestroy(o.trace) ==> Destroy(Cloudinary.DeleteTarget(env.upload.value.publicId, None)) in o.trace
  {
    var done := [Begin, Upload(file, Numbers.IntToString(c.id))];
    LogCountNone(done);
    if env.upload.None? {
      o := Abort(db, done, MediaError);
    } else {
      var c1 := c.(logo := Some(Cloudinary.Edit(env.upload.value.secureUrl, env.deliveryUrl)), updatedAt := Some(env.now));
      o := SaveAndLog(db, done, c1, Some(env.upload.value.publicId), actor, Update, Reason(actor.role, "updated", Subject(c.name, ofLogo)), env);
    }
  }

  /**
   * `updateCompany(id, user, dto, logo?)`: ownership, the field merge, an
   * optional logo upload, then save and log.
   */
  method UpdateCompany(db: Db, id: nat, actor: Actor, patch: CompanyPatch, logo: Option<File>, env: Env) returns (o: Tx<CompanyEntity>)
    requires Valid(db)
    ensures Atomic(db, o)
    ensures id !in db.companies ==> o.result == Err(NotFound)
    ensures id in db.companies && !MayTouch(actor, db.companies[id]) ==> o.result == Err(Forbidden(None))
    ensures o.result.Ok? <==>
      && id in db.companies && MayTouch(actor, db.companies[id])
      && (logo.Some? ==> env.upload.Some?) && env.writeOk && env.logOk
    ensures o.result.Ok? ==> (
      && Valid(o.db) && o.db.users == db.users
      && o.db.companies == db.companies[id := o.result.value]
      && o.result.value == ParseData(db.companies[id], patch).(
           logo := if logo.Some? then Some(Cloudinary.Edit(env.upload.value.secureUrl, env.deliveryUrl)) else db.companies[id].logo,
           updatedAt := Some(env.now)))
    ensures o.result.Ok? ==>
      Audited(db, o, CompanyLog(db, Update, actor, id, Reason(actor.role, "updated", o.result.value.name), env.now))
    ensures HasDestroy(o.trace) <==>
      && id in db.companies && MayTouch(actor, db.companies[id])
      && logo.Some? && env.upload.Some? && env.upload.value.publicId != ""
      && (!env.writeOk || !env.logOk)
    ensures HasDestroy(o.trace) ==> Destroy(Cloudinary.DeleteTarget(env.upload.value.publicId, None)) in o.trace
  {
    match FindCompany(db, id, actor)
    case Err(e) =>
      o := Abort(db, [Begin], e);
    case Ok(found) =>
      var c := ParseData(found, patch);
      if logo.Some? {
        o := UploadAndSave(db, c, logo.value, actor, false, env);
      } else {
        var c1 := c.(updatedAt := Some(env.now));
        LogCountNone([Begin]);
        o := SaveAndLog(db, [Begin], c1, None, actor, Update, Reason(actor.role, "updated", c1.name), env);
      }
  }

  /**
   * `addOrChangeCompanyLogo(id, user, logo)`: like an update with no fields and
   * a mandatory file; the record says the logo was updated.
   */
  method AddOrChangeCompanyLogo(db: Db, id: nat, actor: Actor, logo: File, env: Env) returns (o: Tx<CompanyEntity>)
    requires Valid(db)
    ensures Atomic(db, o)
    ensures id !in db.companies ==> o.result == Err(NotFound)
    ensures id in db.companies && !MayTouch(actor, db.companies[id]) ==> o.result == Err(Forbidden(None))
    ensures o.result.Ok? <==>
      id in db.companies && MayTouch(actor, db.companies[id]) && env.upload.Some? && env.writeOk && env.logOk
    ensures o.result.Ok? ==> (
      && Valid(o.db) && o.db.users == db.users
      && o.db.companies == db.companies[id := o.result.value]
      && o.result.value == db.companies[id].(logo := Some(Cloudinary.Edit(env.upload.value.secureUrl, env.deliveryUrl)), updatedAt := Some(env.now)))
    ensures o.result.Ok? ==>
      Audited(db, o, CompanyLog(db, Update, actor, id, Reason(actor.role, "updated", Subject(o.result.value.name, true)), env.now))
    ensures HasDestroy(o.trace) <==>
      && id in db.companies && MayTouch(actor, db.companies[id])
      && env.upload.Some? && env.upload.value.publicId != ""
      && (!env.writeOk || !env.logOk)
    ensures HasDestroy(o.trace) ==> Destroy(Cloudinary.DeleteTarget(env.upload.value.publicId, None)) in o.trace
  {
    match FindCompany(db, id, actor)
    case Err(e) =>
      o := Abort(db, [Begin], e);
    case Ok(found) =>
      o := UploadAndSave(db, found, logo, actor, true, env);
  }

  /**
   * `deleteCompanyLogo(id, user)` with the "already deleted" guard answering
   * 400: a company without a logo is refused before anything is written;
   * otherwise the asset is destroyed, then the column is cleared and the
   * change logged.
   */
  method DeleteCompanyLogo(db: Db, id: nat, actor: Actor, env: Env) returns (o: Tx<CompanyEntity>)
    requires Valid(db)
    ensures Atomic(db, o)
    ensures id !in db.companies ==> o.result == Err(NotFound)
    ensures id in db.companies && !MayTouch(actor, db.companies[id]) ==> o.result == Err(Forbidden(None))
    ensures id in db.companies && MayTouch(actor, db.companies[id]) && !Truthy(db.companies[id].logo) ==>
      o.result == Err(BadRequest(Some(LogoDeleted))) && !HasDestroy(o.trace) && LogCount(o.trace) == 0
    ensures HasDestroy(o.trace) <==> id in db.companies && MayTouch(actor, db.companies[id]) && Truthy(db.companies[id].logo)
    ensures HasDestroy(o.trace) ==> Destroy(Cloudinary.DeleteTarget(db.companies[id].logo.value, None)) in o.trace
    ensures o.result.Ok? <==> HasDestroy(o.trace) && env.destroyOk && env.writeOk && env.logOk
    ensures o.result.Ok? ==> (
      && Valid(o.db) && o.db.users == db.users
      && o.db.companies == db.companies[id := o.result.value]
      && o.result.value == db.companies[id].(logo := None, updatedAt := Some(env.now)))
    ensures o.result.Ok? ==>
      Audited(db, o, CompanyLog(db, Delete, actor, id, Reason(actor.role, "deleted", Subject(o.result.value.name, true)), env.now))
  {
    match FindCompany(db, id, actor)
    case Err(e) =>
      o := Abort(db, [Begin], e);
    case Ok(found) =>
      o := DestroyLogoAndSave(db, found, actor, BadRequest(Some(LogoDeleted)), env);
  }

  /**
   * `deleteCompanyLogo(id, user)` as written: the guard's argument reads
   * `.deleted` of the undefined `errorMessages.logo`, so a company without a
   * logo gets a TypeError (status 500) instead of the 400; every other path
   * is the same.
   */
  method DeleteCompanyLogoAsWritten(db: Db, id: nat, actor: Actor, env: Env) returns (o: Tx<CompanyEntity>)
    requires Valid(db)
    ensures Atomic(db, o)
    ensures id !in db.companies ==> o.result == Err(NotFound)
    ensures id in db.companies && !MayTouch(actor, db.companies[id]) ==> o.result == Err(Forbidden(None))
    ensures id in db.companies && MayTouch(actor, db.companies[id]) && !Truthy(db.companies[id].logo) ==>
      && o.result == Err(UndefinedRead) && !IsHttp(o.result.error)
      && !HasDestroy(o.trace) && LogCount(o.trace) == 0
    ensures HasDestroy(o.trace) <==> id in db.companies && MayTouch(actor, db.companies[id]) && Truthy(db.companies[id].logo)
    ensures HasDestroy(o.trace) ==> Destroy(Cloudinary.DeleteTarget(db.companies[id].logo.value, None)) in o.trace
    ensures o.result.Ok? <==> HasDestroy(o.trace) && env.destroyOk && env.writeOk && env.logOk
    ensures o.result.Ok? ==> (
      && Valid(o.db) && o.db.users == db.users
      && o.db.companies == db.companies[id := o.result.value]
      && o.result.value == db.companies[id].(logo := None, updatedAt := Some(env.now)))
    ensures o.result.Ok? ==>
      Audited(db, o, CompanyLog(db, Delete, actor, id, Reason(actor.role, "deleted", Subject(o.result.value.name, true)), env.now))
  {
    match FindCompany(db, id, actor)
    case Err(e) =>
      o := Abort(db, [Begin], e);
    case Ok(found) =>
      o := DestroyLogoAndSave(db, found, actor, BadRequestAsWritten(LogoDeleted), env);
  }

  /**
   * The body of `deleteCompanyLogo` once the row is found and may be touched;
   * `missing` is what the guard throws.
   */
  method DestroyLogoAndSave(db: Db, c: CompanyEntity, actor: Actor, missing: Failure, env: Env) returns (o: Tx<CompanyEntity>)
    requires Valid(db) && c.id in db.companies && db.companies[c.id] == c
    ensures Atomic(db, o)
    ensures !Truthy(c.logo) ==>
      o.result == Err(missing) && !HasDestroy(o.trace) && LogCount(o.trace) == 0
    ensures HasDestroy(o.trace) <==> Truthy(c.logo)
    ensures HasDestroy(o.trace) ==> Destroy(Cloudinary.DeleteTarget(c.logo.value, None)) in o.trace
    ensures o.result.Ok? <==> Truthy(c.logo) && env.destroyOk && env.writeOk && env.logOk
    ensures o.result.Ok? ==> (
      && Valid(o.db) && o.db.users == db.users
      && o.db.companies == db.companies[c.id := o.result.value]
      && o.result.value == c.(logo := None, updatedAt := Some(env.now)))
    ensures o.result.Ok? ==>
      Audited(db, o, CompanyLog(db, Delete, actor, c.id, Reason(actor.role, "deleted", Subject(c.name, true)), env.now))
  {
    if !Truthy(c.logo) {
      LogCountNone([Begin]);
      o := Abort(db, [Begin], missing);
      return;
    }
    var done := [Begin, Destroy(Cloudinary.DeleteTarget(c.logo.value, None))];
    LogCountNone(done);
    assert done[1].Destroy?;
    if !env.destroyOk {
      o := Abort(db, done, MediaError);
    } else {
      o := DeleteLogoTail(db, done, c.(logo := None, updatedAt := Some(env.now)), actor, env);
    }
  }

  /** Save and log after the logo asset is gone; the destroy stays in the trace. */
  method DeleteLogoTail(db: Db, done: seq<Event>, c: CompanyEntity, actor: Actor, env: Env) returns (o: Tx<CompanyEntity>)
    requires Valid(db) && Opened(done) && HasDestroy(done) && LogCount(done) == 0
    requires c.id in db.companies && c.userId in db.users
    ensures Atomic(db, o) && HasDestroy(o.trace)
    ensures forall e :: e in done ==> e in o.trace
    ensures o.result.Ok? <==> env.writeOk && env.logOk
    ensures o.result.Ok? ==> o.result.value == c && Valid(o.db)
    ensures o.result.Ok? ==> o.db.companies == db.companies[c.id := c] && o.db.users == db.users
    ensures Audited(db, o, CompanyLog(db, Delete, actor, c.id, Reason(actor.role, "deleted", Subject(c.name, true)), env.now))
  {
    var reason := Reason(actor.role, "deleted", Subject(c.name, true));
    var params := ActionLogs.LogParams(Delete, actor.id, Some(c.id), Some(CompanyEntityName), None, Some(reason));
    var w := ActionLogs.Log(db, Some(PutCompany(db, c)), params, env.now);
    o := StepLogCommit(db, done, SaveCompany(c.id), w.saved, w.runner.value, c, None, env);
  }

  /**
   * `deleteCompany(id, user)`: destroys the logo asset when there is one, deletes
   * the row and logs the deletion, all before commit; the call returns nothing.
   */
  method DeleteCompany(db: Db, id: nat, actor: Actor, env: Env) returns (o: Tx<()>)
    requires Valid(db)
    ensures Atomic(db, o)
    ensures id !in db.companies ==> o.result == Err(NotFound)
    ensures id in db.companies && !MayTouch(actor, db.companies[id]) ==> o.result == Err(Forbidden(None))
    ensures HasDestroy(o.trace) <==> id in db.companies && MayTouch(actor, db.companies[id]) && Truthy(db.companies[id].logo)
    ensures HasDestroy(o.trace) ==> Destroy(Cloudinary.DeleteTarget(db.companies[id].logo.value, None)) in o.trace
    ensures o.result.Ok? <==>
      && id in db.companies && MayTouch(actor, db.companies[id])
      && (Truthy(db.companies[id].logo) ==> env.destroyOk) && env.writeOk && env.logOk
    ensures o.result.Ok? ==> Valid(o.db) && o.db.companies == db.companies - {id} && o.db.users == db.users
    ensures o.result.Ok? ==>
      Audited(db, o, CompanyLog(db, Delete, actor, id, Reason(actor.role, "deleted", db.companies[id].name), env.now))
  {
    match FindCompany(db, id, actor)
    case Err(e) =>
      o := Abort(db, [Begin], e);
    case Ok(found) =>
      o := DestroyLogoAndRemove(db, found, actor, env);
  }

  /** The body of `deleteCompany` once the row is found and may be touched. */
  method DestroyLogoAndRemove(db: Db, c: CompanyEntity, actor: Actor, env: Env) returns (o: Tx<()>)
    requires Valid(db) && c.id in db.companies && db.companies[c.id] == c
    ensures Atomic(db, o)
    ensures HasDestroy(o.trace) <==> Truthy(c.logo)
    ensures HasDestroy(o.trace) ==> Destroy(Cloudinary.DeleteTarget(c.logo.value, None)) in o.trace
    ensures o.result.Ok? <==> (Truthy(c.logo) ==> env.destroyOk) && env.writeOk && env.logOk
    ensures o.result.Ok? ==> Valid(o.db) && o.db.companies == db.companies - {c.id} && o.db.users == db.users
    ensures o.result.Ok? ==>
      Audited(db, o, CompanyLog(db, Delete, actor, c.id, Reason(actor.role, "deleted", c.name), env.now))
  {
    if !Truthy(c.logo) {
      LogCountNone([Begin]);
      o := RemoveAndLog(db, [Begin], c, actor, env);
      return;
    }
    var done := [Begin, Destroy(Cloudinary.DeleteTarget(c.logo.value, None))];
    LogCountNone(done);
    assert done[1].Destroy?;
    if !env.destroyOk {
      o := Abort(db, done, MediaError);
    } else {
      o := RemoveAndLog(db, done, c, actor, env);
    }
  }

  /** Delete the row and log it through the query runner, then commit. */
  method RemoveAndLog(db: Db, done: seq<Event>, c: CompanyEntity, actor: Actor, env: Env) returns (o: Tx<()>)
    requires Valid(db) && Opened(done) && LogCount(done) == 0 && c.id in db.companies
    ensures Atomic(db, o)
    ensures HasDestroy(o.trace) <==> HasDestroy(done)
    ensures forall e :: e in done ==> e in o.trace
    ensures o.result.Ok? <==> env.writeOk && env.logOk
    ensures o.result.Ok? ==> Valid(o.db) && o.db.companies == db.companies - {c.id} && o.db.users == db.users
    ensures Audited(db, o, CompanyLog(db, Delete, actor, c.id, Reason(actor.role, "deleted", c.name), env.now))
  {
    var reason := Reason(actor.role, "deleted", c.name);
    var params := ActionLogs.LogParams(Delete, actor.id, Some(c.id), Some(CompanyEntityName), None, Some(reason));
    var w := ActionLogs.Log(db, Some(RemoveCompany(db, c.id)), params, env.now);
    o := StepLogCommit(db, done, DeleteCompanyRow(c.id), w.saved, w.runner.value, (), None, env);
  }

  /** The upload folder of company logos: `technorely/companies`. */
  const MediaRoot: string := "technorely"
  const CompanyFolder: string := MediaRoot + "/" + "companies"

  /**
   * The public id the media host reports for a logo uploaded with
   * `public_id: id.toString()` into the company folder is its own delete
   * target: the clean-up destroys exactly the uploaded asset.
   */
  lemma CleanupTargetsUploadedAsset(id: nat)
    ensures Cloudinary.DeleteTarget(CompanyFolder + "/" + Numbers.IntToString(id), None)
         == CompanyFolder + "/" + Numbers.IntToString(id)
  {
    var digits := Numbers.IntToString(id);
    DecimalIsPlain(id);
    assert '/' !in MediaRoot && '.' !in MediaRoot && '?' !in MediaRoot;
    assert '/' !in "companies" && '.' !in "companies" && '?' !in "companies";
    ThreeSegmentsAreBare(MediaRoot, "companies", digits);
    assert CompanyFolder + "/" + digits == MediaRoot + "/" + "companies" + "/" + digits;
  }

  /** `a/b/c` with plain segments is a bare public id for slice -3. */
  lemma ThreeSegmentsAreBare(a: string, b: string, c: string)
    requires '/' !in a && '.' !in a && '?' !in a
    requires '/' !in b && '.' !in b && '?' !in b
    requires '/' !in c && '.' !in c && '?' !in c
    ensures Cloudinary.DeleteTarget(a + "/" + b + "/" + c, None) == a + "/" + b + "/" + c
  {
    var pid := a + "/" + b + "/" + c;
    assert '.' !in pid && '?' !in pid by {
      assert forall x :: x in pid ==> x in a || x == '/' || x in b || x in c;
    }
    CountAbsent(a, '/');
    CountAbsent(b, '/');
    CountAbsent(c, '/');
    CountAppend(a, "/", '/');
    CountAppend(a + "/", b, '/');
    CountAppend(a + "/" + b, "/", '/');
    CountAppend(a + "/" + b + "/", c, '/');
    SplitLength(pid, '/');
    Cloudinary.BareIdIsFixed(pid, 3);
  }

  lemma DecimalIsPlain(id: nat)
    ensures '/' !in Numbers.IntToString(id) && '.' !in Numbers.IntToString(id) && '?' !in Numbers.IntToString(id)
  {
    var digits := Numbers.IntToString(id);
    assert forall i :: 0 <= i < |digits| ==> '0' <= digits[i] <= '9';
  }

  /** The query string of `GET /companies`; `None` is an absent parameter. */
  datatype CompaniesQuery = CompaniesQuery(
    name: Option<SortOrder>,
    service: Option<SortOrder>,
    offset: Option<nat>,
    limit: Option<nat>,
    capital: Option<string>,
    createdAt: Option<string>)

  /**
   * The `where` object: a field is present only when that filter applies.
   * `capital` is the query string itself, compared with the integer column
   * by the database.
   */
  datatype CompaniesWhere = CompaniesWhere(capital: Option<string>, createdAt: Option<DayRange>, ownerId: Option<nat>)

  datatype CompaniesFind = CompaniesFind(where: CompaniesWhere, orderByName: SortOrder, orderByService: SortOrder, skip: nat, take: nat)

  /** `getCompanies(query, id?)`: `id` is the caller's id on `/companies/user`. */
  function CompaniesFindOptions(q: CompaniesQuery, ownerId: Option<nat>): (f: CompaniesFind)
    ensures q.name.None? ==> f.orderByName == Asc
    ensures q.service.None? ==> f.orderByService == Asc
    ensures q.offset.None? ==> f.skip == 0
    ensures q.limit.None? ==> f.take == 10
    ensures q.name.Some? ==> f.orderByName == q.name.value
    ensures q.service.Some? ==> f.orderByService == q.service.value
    ensures q.offset.Some? ==> f.skip == q.offset.value
    ensures q.limit.Some? ==> f.take == q.limit.value
    ensures f.where.capital.Some? <==> Truthy(q.capital)
    ensures f.where.capital.Some? ==> f.where.capital == q.capital
    ensures f.where.createdAt.Some? <==> Truthy(q.createdAt)
    ensures f.where.createdAt.Some? ==> f.where.createdAt == Some(DayOf(q.createdAt.value))
    ensures f.where.ownerId.Some? <==> ownerId.Some? && ownerId.value != 0
    ensures f.where.ownerId.Some? ==> f.where.ownerId == ownerId
  {
    var capital := if Truthy(q.capital) then q.capital else None;
    var createdAt := if Truthy(q.createdAt) then Some(DayOf(q.createdAt.value)) else None;
    var owner := if ownerId.Some? && ownerId.value != 0 then ownerId else None;
    CompaniesFind(CompaniesWhere(capital, createdAt, owner), q.name.GetOr(Asc), q.service.GetOr(Asc),
                  q.offset.GetOr(DefaultOffset), q.limit.GetOr(DefaultLimit))
  }

  /** `meta: { total, offset, limit }` echoes the page the query asked for. */
  function CompaniesMeta(q: CompaniesQuery, total: nat): (m: PageMeta)
    ensures m.total == total
    ensures m.offset == CompaniesFindOptions(q, None).skip && m.limit == CompaniesFindOptions(q, None).take
  {
    PageMeta(total, q.offset.GetOr(DefaultOffset), q.limit.GetOr(DefaultLimit))
  }

  /** The tests the database applies: `capitalIs` compares the column with the query string, `inDay` is the day range. */
  datatype RowTests = RowTests(capitalIs: (int, string) -> bool, inDay: (Option<Timestamp>, string) -> bool)

  /** `?capital=0` arrives as the non-empty string "0", so it still filters. */
  lemma ZeroCapitalStillFilters(q: CompaniesQuery, ownerId: Option<nat>)
    requires q.capital == Some("0")
    ensures CompaniesFindOptions(q, ownerId).where.capital == Some("0")
  {
  }

  /** Whether a row satisfies a `where` object. */
  predicate Selects(w: CompaniesWhere, c: CompanyEntity, t: RowTests) {
    && (w.capital.Some? ==> t.capitalIs(c.capital, w.capital.value))
    && (w.createdAt.Some? ==> t.inDay(c.createdAt, w.createdAt.value.date))
    && (w.ownerId.Some? ==> c.userId == w.ownerId.value)
  }

  /** On `/companies/user` only the caller's own companies can be listed. */
  lemma OwnListIsOwn(q: CompaniesQuery, callerId: nat, c: CompanyEntity, t: RowTests)
    requires callerId != 0
    requires Selects(CompaniesFindOptions(q, Some(callerId)).where, c, t)
    ensures c.userId == callerId
  {
  }

  /**
   * A row is listed iff it meets every filter whose parameter is truthy; a
   * query string is truthy when it is not empty, so `?capital=0` filters.
   */
  lemma SelectsExactlyTruthyFilters(q: CompaniesQuery, ownerId: Option<nat>, c: CompanyEntity, t: RowTests)
    ensures Selects(CompaniesFindOptions(q, ownerId).where, c, t) <==>
      && (Truthy(q.capital) ==> t.capitalIs(c.capital, q.capital.value))
      && (Truthy(q.createdAt) ==> t.inDay(c.createdAt, q.createdAt.value))
      && (ownerId.Some? && ownerId.value != 0 ==> c.userId == ownerId.value)
  {
  }
}
