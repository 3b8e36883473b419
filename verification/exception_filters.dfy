/**
 * The two exception filters as pure functions from a thrown value to the
 * reply they send: a status and a JSON body.
 */
module ExceptionFilters {
  import opened Wrappers
  import opened Errors

  /** A JSON value, as far as the filters look into one. */
  datatype Json =
    | JNull
    | JBool(b: bool)
    | JNum(n: int)
    | JStr(s: string)
    | JArr(items: seq<Json>)
    | JObj(fields: map<string, Json>)

  /** An `HttpException`: its status, `message`, `getResponse()` and `cause` (absent when undefined). */
  datatype HttpException = HttpException(status: nat, message: string, response: Json, cause: Option<Json>)

  /** What reaches a filter: an HttpException, or any other thrown value. */
  datatype Thrown = Http(e: HttpException) | Other(value: Json)

  datatype Reply = Reply(status: nat, body: map<string, Json>)

  const InternalServerError: nat := 500

  /** The keys a reply body can have. */
  const BodyKeys: set<string> := {"statusCode", "timestamp", "path", "message", "error", "cause"}

  /** `cause && typeof cause === "object" && "issues" in cause`: only a plain object with that key. */
  function Issues(cause: Option<Json>): (r: Option<Json>)
    ensures r.Some? <==> cause.Some? && cause.value.JObj? && "issues" in cause.value.fields
    ensures r.Some? ==> r.value == cause.value.fields["issues"]
  {
    match cause
    case Some(JObj(fields)) => if "issues" in fields then Some(fields["issues"]) else None
    case _ => None
  }

  /** The fields both filters write for an HttpException. */
  function WithHttpFields(base: map<string, Json>, e: HttpException): (body: map<string, Json>)
    requires "cause" !in base
    ensures body.Keys == base.Keys + {"message", "error"} + (if Issues(e.cause).Some? then {"cause"} else {})
    ensures body["message"] == JStr(e.message) && body["error"] == e.response
    ensures "cause" in body ==> body["cause"] == Issues(e.cause).value
    ensures forall k :: k in base && k !in {"message", "error", "cause"} ==> body[k] == base[k]
  {
    var withError := base["message" := JStr(e.message)]["error" := e.response];
    match Issues(e.cause)
    case Some(issues) => withError["cause" := issues]
    case None => withError
  }

  /**
   * `CatchEverythingFilter.catch`: the HttpException's own status or 500, the
   * three base fields always, `message` and `error` for an HttpException, and
   * only `message` for another object that has one.
   */
  function CatchEverything(ex: Thrown, now: string, path: string): (r: Reply)
    ensures r.status == (if ex.Http? then ex.e.status else InternalServerError)
    ensures r.body.Keys <= BodyKeys
    ensures "statusCode" in r.body && r.body["statusCode"] == JNum(r.status)
    ensures "timestamp" in r.body && r.body["timestamp"] == JStr(now)
    ensures "path" in r.body && r.body["path"] == JStr(path)
    ensures ex.Http? ==> "message" in r.body && r.body["message"] == JStr(ex.e.message)
    ensures ex.Http? ==> "error" in r.body && r.body["error"] == ex.e.response
    ensures "cause" in r.body <==> ex.Http? && Issues(ex.e.cause).Some?
    ensures "cause" in r.body ==> r.body["cause"] == Issues(ex.e.cause).value
    ensures ex.Other? ==> "error" !in r.body
    ensures ex.Other? ==> ("message" in r.body <==> ex.value.JObj? && "message" in ex.value.fields)
    ensures ex.Other? && "message" in r.body ==> r.body["message"] == ex.value.fields["message"]
  {
    var status := if ex.Http? then ex.e.status else InternalServerError;
    var base := map["statusCode" := JNum(status), "timestamp" := JStr(now), "path" := JStr(path)];
    match ex
    case Http(e) => Reply(status, WithHttpFields(base, e))
    case Other(JObj(fields)) =>
      if "message" in fields then Reply(status, base["message" := fields["message"]]) else Reply(status, base)
    case Other(_) => Reply(status, base)
  }

  /** `HttpExceptionFilter.catch`: the same body, built for HttpExceptions only. */
  function HttpFilter(e: HttpException, now: string, url: string): (r: Reply)
    ensures r.status == e.status
    ensures r.body.Keys == {"statusCode", "timestamp", "path", "message", "error"} + (if Issues(e.cause).Some? then {"cause"} else {})
    ensures r.body["statusCode"] == JNum(e.status) && r.body["timestamp"] == JStr(now) && r.body["path"] == JStr(url)
    ensures r.body["message"] == JStr(e.message) && r.body["error"] == e.response
  {
    var base := map["statusCode" := JNum(e.status), "timestamp" := JStr(now), "path" := JStr(url), "message" := JStr(e.message)];
    Reply(e.status, WithHttpFields(base, e))
  }

  /** On an HttpException the two filters send the same reply when they see the same path. */
  lemma FiltersAgree(e: HttpException, now: string, path: string)
    ensures CatchEverything(Http(e), now, path) == HttpFilter(e, now, path)
  {
    var a := CatchEverything(Http(e), now, path);
    var b := HttpFilter(e, now, path);
    assert a.body.Keys == b.body.Keys;
    assert forall k :: k in a.body ==> a.body[k] == b.body[k];
  }

  /**
   * How a service failure is thrown: an HttpException with its status, or, for
   * the media host, the database or a TypeError, an error object with a message.
   */
  function ThrownOf(f: Failure, message: string, response: Json): (t: Thrown)
    ensures t.Http? <==> IsHttp(f)
    ensures t.Http? ==> t.e.status == HttpStatus(f) && t.e.cause.None?
    ensures t.Other? ==> t.value == JObj(map["message" := JStr(message)])
  {
    if IsHttp(f) then Http(HttpException(HttpStatus(f), message, response, None))
    else Other(JObj(map["message" := JStr(message)]))
  }

  /** Every failure a service raises is answered 4xx when it is an HttpException, 500 otherwise, with its message. */
  lemma FailureStatus(f: Failure, message: string, response: Json, now: string, path: string)
    ensures CatchEverything(ThrownOf(f, message, response), now, path).status == (if IsHttp(f) then HttpStatus(f) else 500)
    ensures IsHttp(f) ==> 400 <= CatchEverything(ThrownOf(f, message, response), now, path).status < 500
    ensures CatchEverything(ThrownOf(f, message, response), now, path).body["message"] == JStr(message)
  {
  }
}
