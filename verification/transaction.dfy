/**
 * The shape every mutating service call shares: a query runner opens a
 * transaction, the steps write into a pending copy of the database, and the
 * call ends in commit (the pending copy becomes the database) or rollback (it
 * is dropped), then release. External effects are recorded as a trace.
 */
module Transaction {
  import opened Wrappers
  import opened Errors
  import opened Entities
  import Cloudinary

  /** A temporary upload on local disk, as the multipart interceptor stores it. */
  datatype File = File(path: string)

  datatype Event =
    /** `createQueryRunner`, `connect`, `startTransaction` */
    | Begin
    /** an upload of `file` to the media host under the public id `publicId` */
    | Upload(file: File, publicId: string)
    /** a destroy request to the media host */
    | Destroy(publicId: string)
    | SaveUser(userId: nat)
    | SaveCompany(companyId: nat)
    | DeleteUserRow(userId: nat)
    | DeleteCompanyRow(companyId: nat)
    /** an audit record inserted through the query runner */
    | Logged(entry: ActionLogEntity)
    | Commit
    | Rollback
    | Release

  /** What the media host answers to a successful upload. */
  datatype UploadResponse = UploadResponse(secureUrl: string, publicId: string)

  /**
   * The world a call runs in: the clock, how the media host and the database
   * answer, and `clouds.url` for the delivery options used by `edit`.
   */
  datatype Env = Env(
    now: Timestamp,
    upload: Option<UploadResponse>,
    destroyOk: bool,
    writeOk: bool,
    logOk: bool,
    deliveryUrl: string -> string)

  /** A finished call: what it returned or threw, its trace, and the database after it. */
  datatype Tx<T> = Tx(result: Outcome<T>, trace: seq<Event>, db: Db)

  predicate IsStep(e: Event) {
    !e.Begin? && !e.Commit? && !e.Rollback? && !e.Release?
  }

  /** A trace of an open transaction: `Begin`, then only steps. */
  predicate Opened(done: seq<Event>) {
    |done| >= 1 && done[0] == Begin && forall i :: 1 <= i < |done| ==> IsStep(done[i])
  }

  /** A trace that opens a transaction once and releases it once, at the very end. */
  predicate Bracketed(t: seq<Event>) {
    && |t| >= 2 && t[0] == Begin && t[|t| - 1] == Release
    && Begin !in t[1..] && Release !in t[..|t| - 1]
  }

  function LogCount(t: seq<Event>): nat {
    if |t| == 0 then 0 else (if t[0].Logged? then 1 else 0) + LogCount(t[1..])
  }

  lemma LogCountAppend(a: seq<Event>, b: seq<Event>)
    ensures LogCount(a + b) == LogCount(a) + LogCount(b)
  {
    if |a| > 0 {
      assert (a + b)[1..] == a[1..] + b;
    } else {
      assert a + b == b;
    }
  }

  lemma LogCountNone(t: seq<Event>)
    requires forall i :: 0 <= i < |t| ==> !t[i].Logged?
    ensures LogCount(t) == 0
  {
    if |t| > 0 {
      LogCountNone(t[1..]);
    }
  }

  predicate HasDestroy(t: seq<Event>) {
    exists i :: 0 <= i < |t| && t[i].Destroy?
  }

  /** `e` occurs in `t`, strictly before any `Commit` and any `Rollback`. */
  predicate BeforeEnd(t: seq<Event>, e: Event) {
    exists i :: 0 <= i < |t| && t[i] == e && forall j :: 0 <= j <= i ==> !t[j].Commit? && !t[j].Rollback?
  }

  lemma HasDestroyAppend(a: seq<Event>, b: seq<Event>)
    ensures HasDestroy(a + b) <==> HasDestroy(a) || HasDestroy(b)
  {
    if HasDestroy(a + b) {
      var i :| 0 <= i < |a + b| && (a + b)[i].Destroy?;
      if i >= |a| {
        assert b[i - |a|].Destroy?;
      }
    }
    if HasDestroy(b) {
      var i :| 0 <= i < |b| && b[i].Destroy?;
      assert (a + b)[|a| + i].Destroy?;
    }
    if HasDestroy(a) {
      var i :| 0 <= i < |a| && a[i].Destroy?;
      assert (a + b)[i].Destroy?;
    }
  }

  /** Every destroy request comes before any rollback. */
  predicate DestroyBeforeRollback(t: seq<Event>) {
    forall i, j :: 0 <= i < |t| && 0 <= j < |t| && t[i].Destroy? && t[j].Rollback? ==> i < j
  }

  /** The guarantees every transactional call gives. */
  predicate Atomic<T>(db: Db, o: Tx<T>) {
    && Bracketed(o.trace)
    && (o.result.Ok? <==> Commit in o.trace)
    && (o.result.Err? ==> o.db == db)
    && DestroyBeforeRollback(o.trace)
  }

  /**
   * Closing an open transaction with a tail that ends in its only `Release`,
   * opens nothing and puts every destroy before every rollback gives a
   * bracketed trace with the same ordering, provided `done` rolled nothing back.
   */
  lemma Closed(done: seq<Event>, tail: seq<Event>)
    requires Opened(done) && Rollback !in done
    requires |tail| >= 1 && tail[|tail| - 1] == Release
    requires forall i :: 0 <= i < |tail| - 1 ==> tail[i] != Begin && tail[i] != Release
    requires DestroyBeforeRollback(tail)
    ensures Bracketed(done + tail) && DestroyBeforeRollback(done + tail)
  {
    var t := done + tail;
    assert forall i :: |done| <= i < |t| ==> t[i] == tail[i - |done|];
    assert Begin !in t[1..] by {
      forall i | 1 <= i < |t| ensures t[i] != Begin {
        if i < |done| { assert IsStep(done[i]); }
      }
    }
    assert Release !in t[..|t| - 1] by {
      forall i | 0 <= i < |t| - 1 ensures t[i] != Release {
        if 1 <= i < |done| { assert IsStep(done[i]); }
      }
    }
    forall i, j | 0 <= i < |t| && 0 <= j < |t| && t[i].Destroy? && t[j].Rollback? ensures i < j {
      if j < |done| { assert false; }
    }
  }

  /** `commitTransaction` then `release`: the pending copy becomes the database. */
  method Finish<T>(db: Db, done: seq<Event>, pending: Db, value: T) returns (o: Tx<T>)
    requires Opened(done)
    ensures Atomic(db, o)
    ensures Commit in o.trace && Rollback !in o.trace
    ensures o.result == Ok(value) && o.db == pending
    ensures LogCount(o.trace) == LogCount(done)
    ensures HasDestroy(o.trace) <==> HasDestroy(done)
    ensures BeforeEnd(o.trace, done[|done| - 1])
    ensures forall e :: e in done ==> e in o.trace
  {
    var t := done + [Commit, Release];
    assert Rollback !in done by { assert forall i :: 1 <= i < |done| ==> IsStep(done[i]); }
    Closed(done, [Commit, Release]);
    LogCountAppend(done, [Commit, Release]);
    HasDestroyAppend(done, [Commit, Release]);
    assert t[|done| - 1] == done[|done| - 1];
    o := Tx(Ok(value), t, pending);
  }

  /** `rollbackTransaction`, rethrow, then `release`: the database is untouched. */
  method Abort<T>(db: Db, done: seq<Event>, error: Failure) returns (o: Tx<T>)
    requires Opened(done)
    ensures Atomic(db, o)
    ensures Commit !in o.trace && Rollback in o.trace
    ensures o.result == Err(error) && o.db == db
    ensures LogCount(o.trace) == LogCount(done)
    ensures HasDestroy(o.trace) <==> HasDestroy(done)
    ensures forall e :: e in done ==> e in o.trace
  {
    var t := done + [Rollback, Release];
    assert Rollback !in done by { assert forall i :: 1 <= i < |done| ==> IsStep(done[i]); }
    Closed(done, [Rollback, Release]);
    LogCountAppend(done, [Rollback, Release]);
    HasDestroyAppend(done, [Rollback, Release]);
    assert t[|t| - 2] == Rollback;
    o := Tx(Err(error), t, db);
  }

  /**
   * The catch block of the company mutations that upload:
   * `if (publicId) await delete(publicId)`, then rollback and rethrow. When the
   * clean-up delete itself rejects, its error replaces the original one and
   * the rollback line is never reached; `release` still runs.
   */
  method AbortAfterUpload<T>(db: Db, done: seq<Event>, publicId: Option<string>, destroyOk: bool, error: Failure) returns (o: Tx<T>)
    requires Opened(done) && !HasDestroy(done)
    ensures Atomic(db, o)
    ensures Commit !in o.trace && o.db == db
    ensures LogCount(o.trace) == LogCount(done)
    ensures HasDestroy(o.trace) <==> publicId.Some? && publicId.value != ""
    ensures HasDestroy(o.trace) ==> Destroy(Cloudinary.DeleteTarget(publicId.value, None)) in o.trace
    ensures Rollback in o.trace <==> !HasDestroy(o.trace) || destroyOk
    ensures o.result == if HasDestroy(o.trace) && !destroyOk then Err(MediaError) else Err(error)
  {
    if publicId.None? || publicId.value == "" {
      o := Abort(db, done, error);
    } else {
      var cleanup := Destroy(Cloudinary.DeleteTarget(publicId.value, None));
      var tail := if destroyOk then [cleanup, Rollback, Release] else [cleanup, Release];
      var t := done + tail;
      assert Rollback !in done by { assert forall i :: 1 <= i < |done| ==> IsStep(done[i]); }
      Closed(done, tail);
      LogCountAppend(done, tail);
      LogCountNone(tail);
      assert t[|done|] == cleanup;
      o := Tx(if destroyOk then Err(error) else Err(MediaError), t, db);
    }
  }

  /** Write `step` into the pending copy and commit with `pending` as the new database. */
  method WriteCommit<T>(db: Db, done: seq<Event>, step: Event, pending: Db, value: T, writeOk: bool) returns (o: Tx<T>)
    requires Opened(done) && IsStep(step) && !step.Logged? && !step.Destroy?
    ensures Atomic(db, o)
    ensures o.result.Ok? <==> writeOk
    ensures o.result.Ok? ==> o.result.value == value && o.db == pending
    ensures o.result.Err? ==> o.result.error == DbError
    ensures LogCount(o.trace) == LogCount(done)
    ensures HasDestroy(o.trace) <==> HasDestroy(done)
    ensures forall e :: e in done ==> e in o.trace
  {
    if !writeOk {
      o := Abort(db, done, DbError);
      return;
    }
    LogCountAppend(done, [step]);
    HasDestroyAppend(done, [step]);
    assert !HasDestroy([step]);
    o := Finish(db, done + [step], pending, value);
  }

  /** The failure path of `StepLogCommit`: clean up the upload when there was one. */
  method FailWrite<T>(db: Db, done: seq<Event>, cleanup: Option<string>, destroyOk: bool) returns (o: Tx<T>)
    requires Opened(done) && (cleanup.Some? ==> !HasDestroy(done))
    ensures Atomic(db, o) && Commit !in o.trace && o.db == db
    ensures LogCount(o.trace) == LogCount(done)
    ensures cleanup.None? ==> (forall e :: e in done ==> e in o.trace) && o.result == Err(DbError)
    ensures HasDestroy(o.trace) <==> HasDestroy(done) || (cleanup.Some? && cleanup.value != "")
    ensures cleanup.Some? && cleanup.value != "" ==> Destroy(Cloudinary.DeleteTarget(cleanup.value, None)) in o.trace
    ensures o.result == Err(if cleanup.Some? && cleanup.value != "" && !destroyOk then MediaError else DbError)
  {
    if cleanup.None? {
      o := Abort(db, done, DbError);
    } else {
      o := AbortAfterUpload(db, done, cleanup, destroyOk, DbError);
    }
  }

  /**
   * The tail of the audited mutations: write `step` into the pending copy,
   * insert the audit record `entry` through the same query runner, then commit
   * with `logged` (the pending copy after both) as the new database. When the
   * write or the insert fails, the asset uploaded under `cleanup` (if any) is
   * destroyed and the transaction is rolled back.
   */
  method StepLogCommit<T>(db: Db, done: seq<Event>, step: Event, entry: ActionLogEntity, logged: Db, value: T,
                          cleanup: Option<string>, env: Env) returns (o: Tx<T>)
    requires Opened(done) && IsStep(step) && !step.Logged? && !step.Destroy? && LogCount(done) == 0
    requires cleanup.Some? ==> !HasDestroy(done)
    ensures Atomic(db, o)
    ensures o.result.Ok? <==> env.writeOk && env.logOk
    ensures o.result.Ok? ==> o.result.value == value && o.db == logged
    ensures LogCount(o.trace) == (if o.result.Ok? then 1 else 0)
    ensures o.result.Ok? ==> BeforeEnd(o.trace, Logged(entry))
    ensures cleanup.None? ==> forall e :: e in done ==> e in o.trace
    ensures HasDestroy(o.trace) <==>
      HasDestroy(done) || (cleanup.Some? && cleanup.value != "" && !(env.writeOk && env.logOk))
    ensures cleanup.Some? && cleanup.value != "" && !(env.writeOk && env.logOk) ==>
      Destroy(Cloudinary.DeleteTarget(cleanup.value, None)) in o.trace
    ensures o.result.Err? ==>
      o.result.error == if cleanup.Some? && cleanup.value != "" && !env.destroyOk then MediaError else DbError
  {
    if !env.writeOk {
      o := FailWrite(db, done, cleanup, env.destroyOk);
      return;
    }
    var saved := done + [step];
    LogCountAppend(done, [step]);
    HasDestroyAppend(done, [step]);
    assert !HasDestroy([step]);
    if !env.logOk {
      o := FailWrite(db, saved, cleanup, env.destroyOk);
      return;
    }
    var t := saved + [Logged(entry)];
    LogCountAppend(saved, [Logged(entry)]);
    HasDestroyAppend(saved, [Logged(entry)]);
    assert !HasDestroy([Logged(entry)]);
    o := Finish(db, t, logged, value);
  }
}
