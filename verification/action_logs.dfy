/** The audit log service: writing one record, and building the paged log query. */
module ActionLogs {
  import opened Wrappers
  import opened Entities
  import opened Paging

  /** The argument of `log`; `entityId` is not a column of the log table. */
  datatype LogParams = LogParams(
    action: LogsAction,
    userId: nat,
    companyId: Option<nat>,
    entityName: Option<string>,
    entityId: Option<nat>,
    metadata: Option<Reason>)

  /** What a call to `log` leaves behind, and the record it returns. */
  datatype Written = Written(db: Db, runner: Option<Db>, saved: ActionLogEntity)

  /** The record `repo.create({ ...params, createdAt })` builds and `save` numbers. */
  function Record(params: LogParams, id: nat, now: Timestamp): (e: ActionLogEntity)
    ensures e.id == id && e.createdAt == Some(now)
    ensures e.action == params.action && e.userId == params.userId
    ensures e.companyId == params.companyId && e.entityName == params.entityName
    ensures e.metadata == params.metadata
  {
    ActionLogEntity(id, params.action, params.userId, params.companyId, params.entityName, params.metadata, Some(now))
  }

  /**
   * Two calls with the same id and clock build the same record exactly when
   * their parameters agree on everything but `entityId`, the one parameter
   * the entity has no column for.
   */
  lemma RecordKeepsAllButEntityId(p: LogParams, q: LogParams, id: nat, now: Timestamp)
    ensures Record(p, id, now) == Record(q, id, now) <==> p.(entityId := None) == q.(entityId := None)
  {
  }

  /**
   * `log(params, queryRunner?)`: with a query runner (`runner` holds its
   * pending copy) the record goes into that transaction and the database is
   * untouched until it commits; without one it is saved straight away.
   */
  function Log(db: Db, runner: Option<Db>, params: LogParams, now: Timestamp): (w: Written)
    requires Valid(db) && (runner.Some? ==> Valid(runner.value))
    ensures w.runner.Some? == runner.Some?
    ensures runner.Some? ==> w.db == db
    ensures runner.Some? ==> (
      && Valid(w.runner.value)
      && w.runner.value.logs == runner.value.logs + [w.saved]
      && w.runner.value.users == runner.value.users
      && w.runner.value.companies == runner.value.companies
      && w.saved == Record(params, runner.value.nextLogId, now))
    ensures runner.None? ==> (
      && Valid(w.db)
      && w.db.logs == db.logs + [w.saved]
      && w.db.users == db.users && w.db.companies == db.companies
      && w.saved == Record(params, db.nextLogId, now))
  {
    match runner
    case Some(pending) =>
      var entry := Record(params, pending.nextLogId, now);
      Written(db, Some(AppendLog(pending, entry)), entry)
    case None =>
      var entry := Record(params, db.nextLogId, now);
      Written(AppendLog(db, entry), None, entry)
  }

  /** The query string of `GET /logs`; `None` is an absent parameter. */
  datatype LogsQuery = LogsQuery(
    createdAt: Option<string>,
    offset: Option<nat>,
    limit: Option<nat>,
    sort: Option<SortOrder>,
    action: Option<string>,
    entityName: Option<string>)

  /** The `where` object: a field is present only when that filter applies. */
  datatype LogsWhere = LogsWhere(action: Option<string>, entityName: Option<string>, createdAt: Option<DayRange>)

  /** The options passed to `findAndCount` (with the user and company relations joined). */
  datatype LogsFind = LogsFind(where: LogsWhere, orderById: SortOrder, skip: nat, take: nat)

  /** The filters and paging `getLogs` builds from its query. */
  function LogsFindOptions(q: LogsQuery): (f: LogsFind)
    ensures q.offset.None? ==> f.skip == 0
    ensures q.limit.None? ==> f.take == 10
    ensures q.sort.None? ==> f.orderById == Asc
    ensures q.offset.Some? ==> f.skip == q.offset.value
    ensures q.limit.Some? ==> f.take == q.limit.value
    ensures q.sort.Some? ==> f.orderById == q.sort.value
    ensures f.where.action.Some? <==> Truthy(q.action)
    ensures f.where.entityName.Some? <==> Truthy(q.entityName)
    ensures f.where.createdAt.Some? <==> Truthy(q.createdAt)
    ensures f.where.action.Some? ==> f.where.action == q.action
    ensures f.where.entityName.Some? ==> f.where.entityName == q.entityName
    ensures f.where.createdAt.Some? ==> f.where.createdAt == Some(DayOf(q.createdAt.value))
  {
    var action := if Truthy(q.action) then q.action else None;
    var entityName := if Truthy(q.entityName) then q.entityName else None;
    var createdAt := if Truthy(q.createdAt) then Some(DayOf(q.createdAt.value)) else None;
    LogsFind(LogsWhere(action, entityName, createdAt), q.sort.GetOr(Asc), q.offset.GetOr(DefaultOffset), q.limit.GetOr(DefaultLimit))
  }

  /** `{ data, meta: { total, offset, limit } }`: the meta echoes the page actually asked for. */
  function LogsMeta(q: LogsQuery, total: nat): (m: PageMeta)
    ensures m.total == total
    ensures m.offset == LogsFindOptions(q).skip && m.limit == LogsFindOptions(q).take
  {
    PageMeta(total, q.offset.GetOr(DefaultOffset), q.limit.GetOr(DefaultLimit))
  }

  /**
   * Whether a log row satisfies a `where` object; `actionText` is the column
   * value of an action and `inDay` the day-range test.
   */
  predicate Selects(w: LogsWhere, e: ActionLogEntity, actionText: LogsAction -> string,
                    inDay: (Option<Timestamp>, string) -> bool) {
    && (w.action.Some? ==> actionText(e.action) == w.action.value)
    && (w.entityName.Some? ==> e.entityName == w.entityName)
    && (w.createdAt.Some? ==> inDay(e.createdAt, w.createdAt.value.date))
  }

  /** A log row is returned iff it meets every filter whose parameter is truthy. */
  lemma SelectsExactlyTruthyFilters(q: LogsQuery, e: ActionLogEntity, actionText: LogsAction -> string,
                                    inDay: (Option<Timestamp>, string) -> bool)
    ensures Selects(LogsFindOptions(q).where, e, actionText, inDay) <==>
      && (Truthy(q.action) ==> actionText(e.action) == q.action.value)
      && (Truthy(q.entityName) ==> e.entityName == q.entityName)
      && (Truthy(q.createdAt) ==> inDay(e.createdAt, q.createdAt.value))
  {
  }
}
