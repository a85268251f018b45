/**
 * A test run: `testURL` checks the response and server types and sends the
 * request; `testResponse` checks the HTTP status and media type of the
 * answer; `validateResponse` checks the body, dispatching on the response
 * type and, for the gTLD profile, on the server type.
 *
 * The request and the reading of the body are asynchronous in the
 * validator. Here the outcome of the request is a parameter, and the run
 * is evaluated in the order the callbacks fire: the request's callback
 * runs `testResponse` and then the completion callback, and the body is
 * validated after that.
 */
module Dispatch {
  import opened Wrappers
  import opened Json
  import opened JsRuntime
  import opened Predicates
  import opened Tables
  import opened Paths
  import opened Results
  import opened Messages
  import opened Context
  import opened Members
  import Semantics
  import Responses
  import Gtld

  /** The body of an HTTP response, as `res.json()` settles: a parsed value, or the text of its parse error. */
  datatype Body = Parsed(record: Json) | Malformed(error: string)

  /** An HTTP response: its status, its headers in the order `headers.entries()` gives them, and its body. */
  datatype HttpResponse = HttpResponse(status: int, headers: seq<(string, string)>, body: Body)

  /** How the request settled: with a response, or rejected with the text of its error. */
  datatype Fetched = Responded(response: HttpResponse) | Failed(error: string)

  /**
   * A whole run: the state it ended in (or the state an escaping exception
   * was raised in), and the number of results reported when the
   * completion callback fired, if it fired.
   */
  datatype Session = Session(final: Run<Ctx>, completedAt: Option<nat>)

  // ---------------------------------------------------------------------
  // validateResponse

  /**
   * `validateResponse`: the body must be a JSON object; then the
   * conformance, class name and notice checks, the checks for the
   * response type, and a last message reporting the number of errors.
   */
  function ValidateResponse(c: Ctx, record: Json, responseType: string, serverType: string): (r: Run<Ctx>)
    ensures Grows(c, r)
    ensures record.JNull? ==> r == Thrown(c)
    ensures !record.JNull? && !record.JObj? ==> r == Val(Check(c, false, BodyNotObject, "section-5"))
    ensures r.Val? && record.JObj? ==> Completes(r.value.log)
  {
    var isObject :- Try(c, IsObject(record));
    var c1 := Check(c, isObject, BodyNotObject, "section-5");
    if !isObject then Val(c1)
    else
      var c2 :- Preamble(c1, record, responseType);
      var c3 :- ByType(c2, record, responseType, serverType);
      Val(Msg(c3, Completed(NatToString(ErrorCount(c3.log)))))
  }

  /** The log ends with the completion message, which reports the number of errors before it. */
  predicate Completes(log: seq<Result>)
  {
    |log| > 0 && log[|log| - 1].verdict == JNull &&
    log[|log| - 1].message == Completed(NatToString(ErrorCount(log[..|log| - 1])))
  }

  /** The checks every object body gets: `rdapConformance`, `objectClassName`, and `notices` when present. */
  function Preamble(c: Ctx, record: Json, responseType: string): (r: Run<Ctx>)
    requires record.JObj?
    ensures Grows(c, r) && Restores(c, r)
  {
    var c1 :- RDAPConformance(c, record);
    var c2 :- ObjectClassName(c1, record, responseType);
    if Has(record, "notices") then Responses.Notices(c2, Prop(record, "notices")) else Val(c2)
  }

  /** The object's name taken from the tested URL: `decodeURI` of the last path segment. */
  function UrlName(c: Ctx): (r: Run<string>)
    ensures r.Thrown? <==> c.env.lastSegmentOf(c.url).None?
    ensures r.Val? ==> r.value == c.env.lastSegmentOf(c.url).value
  {
    match c.env.lastSegmentOf(c.url)
    case None => Thrown(c)
    case Some(s) => Val(s)
  }

  /**
   * The `switch` on the response type. A type the switch does not know
   * gets one failing result; `testURL` lets no such type through.
   */
  function ByType(c: Ctx, record: Json, responseType: string, serverType: string): (r: Run<Ctx>)
    ensures Grows(c, r)
    ensures responseType !in ResponseTypes ==> r == Val(Check(c, false, UnknownType(responseType), ""))
    ensures responseType == "nameserver" && serverType == "rir" ==> r.Thrown?
  {
    match responseType
    case "domain" => assert ResponseTypes[0] == responseType; DomainResponse(c, record, serverType)
    case "nameserver" => assert ResponseTypes[3] == responseType; NameserverResponse(c, record, serverType)
    case "entity" => assert ResponseTypes[4] == responseType; EntityResponse(c, record, serverType)
    case "ip network" => assert ResponseTypes[1] == responseType; IPNetworkResponse(c, record, serverType)
    case "autnum" => assert ResponseTypes[2] == responseType; AutnumResponse(c, record, serverType)
    case "help" => assert ResponseTypes[5] == responseType; HelpResponse(c, record, serverType)
    case "domain-search" => assert ResponseTypes[6] == responseType; Responses.DomainSearch(c, record)
    case "nameserver-search" => assert ResponseTypes[7] == responseType; Responses.NameserverSearch(c, record)
    case "entity-search" => assert ResponseTypes[8] == responseType; Responses.EntitySearch(c, record)
    case "error" => assert ResponseTypes[9] == responseType; ErrorResponse(c, record, serverType)
    case _ => Val(Check(c, false, UnknownType(responseType), ""))
  }

  /** A domain response: `validateDomain`, then the profile checks under the NFC form of the name in the URL. */
  function DomainResponse(c: Ctx, record: Json, serverType: string): (r: Run<Ctx>)
    ensures Grows(c, r)
  {
    var c1 :- Semantics.Domain(c, record);
    var name :- UrlName(c1);
    DomainProfile(c1, record, c.env.nfc(name), serverType)
  }

  /** A nameserver response: `validateNameserver`, then the profile checks under the NFC form of the name in the URL. */
  function NameserverResponse(c: Ctx, record: Json, serverType: string): (r: Run<Ctx>)
    ensures Grows(c, r)
    ensures serverType == "rir" ==> r.Thrown?
  {
    var c1 :- Semantics.Nameserver(c, record);
    var name :- UrlName(c1);
    NameserverProfile(c1, record, c.env.nfc(name), serverType)
  }

  /** An entity response: `validateEntity`, then the profile checks; the handle from the URL is decoded but not used. */
  function EntityResponse(c: Ctx, record: Json, serverType: string): (r: Run<Ctx>)
    ensures Grows(c, r)
    ensures r.Val? && serverType == "rir" ==> |r.value.log| > 0 && r.value.log[|r.value.log| - 1] == Result(JNull, TodoRIREntity, Join(r.value.path), None)
  {
    var c1 :- Semantics.Entity(c, record);
    var handle :- UrlName(c1);
    if serverType == "gtld-registry" then Gtld.Entity(c1, record)
    else if serverType == "rir" then Val(Msg(c1, TodoRIREntity))
    else Val(c1)
  }

  /** An IP network response: `validateIPNetwork`, then the RIR placeholder message. */
  function IPNetworkResponse(c: Ctx, record: Json, serverType: string): (r: Run<Ctx>)
    ensures Grows(c, r)
    ensures r.Val? && serverType == "rir" ==> |r.value.log| > 0 && r.value.log[|r.value.log| - 1] == Result(JNull, TodoRIRIPNetwork, Join(r.value.path), None)
  {
    var c1 :- Semantics.IPNetwork(c, record);
    Val(if serverType == "rir" then Msg(c1, TodoRIRIPNetwork) else c1)
  }

  /** An autnum response: `validateAutnum`, then the RIR placeholder message. */
  function AutnumResponse(c: Ctx, record: Json, serverType: string): (r: Run<Ctx>)
    ensures Grows(c, r)
    ensures r.Val? && serverType == "rir" ==> |r.value.log| > 0 && r.value.log[|r.value.log| - 1] == Result(JNull, TodoRIRAutnum, Join(r.value.path), None)
  {
    var c1 :- Semantics.Autnum(c, record);
    Val(if serverType == "rir" then Msg(c1, TodoRIRAutnum) else c1)
  }

  /** A help response: `validateHelp`, then the gTLD help check for either gTLD server type. */
  function HelpResponse(c: Ctx, record: Json, serverType: string): (r: Run<Ctx>)
    ensures Grows(c, r)
  {
    var c1 :- Responses.Help(c, record);
    if serverType == "gtld-registry" || serverType == "gtld-registrar" then Gtld.Help(c1, record)
    else if serverType == "rir" then Val(Msg(c1, TodoRIRHelp))
    else Val(c1)
  }

  /** An error response: `validateError`, then the placeholder message of the server type. */
  function ErrorResponse(c: Ctx, record: Json, serverType: string): (r: Run<Ctx>)
    ensures Grows(c, r)
  {
    var c1 :- Responses.Error(c, record);
    Val(if serverType == "gtld-registry" || serverType == "gtld-registrar" then Msg(c1, TodoGTLDError)
        else if serverType == "rir" then Msg(c1, TodoRIRError)
        else c1)
  }

  /** The server-type `switch` of a domain response. */
  function DomainProfile(c: Ctx, record: Json, name: string, serverType: string): (r: Run<Ctx>)
    ensures Grows(c, r)
  {
    match serverType
    case "gtld-registry" => Gtld.RegistryDomain(c, record, name)
    case "gtld-registrar" => Gtld.RegistrarDomain(c, record, name)
    case "rir" => Val(Msg(c, TodoRIRDomain))
    case _ => Val(c)
  }

  /**
   * The server-type `switch` of a nameserver response. The RIR case calls
   * `validateRIRNameserver`, but the validator defines the method as
   * `validateRIRNameServer`, so the call throws.
   */
  function NameserverProfile(c: Ctx, record: Json, name: string, serverType: string): (r: Run<Ctx>)
    ensures Grows(c, r)
    ensures serverType == "rir" ==> r == Thrown(c)
  {
    match serverType
    case "gtld-registry" => Gtld.Nameserver(c, record, name)
    case "rir" => Thrown(c)
    case _ => Val(c)
  }

  /** The same `switch` calling the RIR nameserver check by the name it is defined under. */
  function NameserverProfileIntended(c: Ctx, record: Json, name: string, serverType: string): (r: Run<Ctx>)
    ensures Grows(c, r)
    ensures serverType == "rir" ==> r == Val(Msg(c, TodoRIRNameserver))
  {
    match serverType
    case "gtld-registry" => Gtld.Nameserver(c, record, name)
    case "rir" => Val(Msg(c, TodoRIRNameserver))
    case _ => Val(c)
  }

  // ---------------------------------------------------------------------
  // testURL and testResponse

  /**
   * `testURL` and everything that follows it: the type checks, the request
   * and, when it is answered, `testResponse`, the completion callback and
   * the body checks.
   *
   * A run starts from whatever state the previous one left: only the
   * error count and `currentSpec` are reset before the first result, so
   * the results reported before a response arrives carry the previous
   * run's path.
   */
  function TestURL(c: Ctx, url: string, responseType: string, serverType: string, fetched: Fetched): (s: Session)
    ensures responseType !in ResponseTypes ==>
      s == Session(Val(Check(Start(c), false, InvalidResponseType(responseType), "")), Some(1))
    ensures responseType in ResponseTypes && serverType !in ServerTypes ==>
      s == Session(Val(Check(Start(c), false, InvalidServerType(serverType), "")), Some(1))
    ensures fetched.Failed? && responseType in ResponseTypes && serverType in ServerTypes ==>
      s.completedAt.None? && s.final.Val? && |s.final.value.log| == 5 && s.final.value.log[4].verdict == JBool(false)
    ensures s.completedAt.Some? ==> s.completedAt.value <= |Last(s.final).log|
  {
    var c0 := Start(c);
    if responseType !in ResponseTypes then
      var d := Check(c0, false, InvalidResponseType(responseType), "");
      Session(Val(d), Some(|d.log|))
    else if serverType !in ServerTypes then
      var d := Check(c0, false, InvalidServerType(serverType), "");
      Session(Val(d), Some(|d.log|))
    else
      Sent(Requested(c0, url, responseType, serverType), responseType, serverType, fetched)
  }

  /** What follows the request: a failed request is reported and never completes; an answered one goes on to `testResponse`. */
  function Sent(c: Ctx, responseType: string, serverType: string, fetched: Fetched): (s: Session)
    ensures fetched.Failed? ==> s.completedAt.None? && s.final == Val(Check(c, false, RequestFailed(fetched.error), ""))
  {
    match fetched
    case Failed(e) => Session(Val(Check(c, false, RequestFailed(e), "")), None)
    case Responded(res) => Answered(c, res, responseType, serverType)
  }

  /** The state a run starts from: no results yet, and `currentSpec` set to RFC 7480. */
  function Start(c: Ctx): (d: Ctx)
    ensures d.log == [] && d.spec == "rfc7480" && d.path == c.path
  {
    c.(spec := "rfc7480", log := [])
  }

  /** The three messages naming what is tested, the tested URL recorded, and the message that the request is sent. */
  function Requested(c: Ctx, url: string, responseType: string, serverType: string): (d: Ctx)
    ensures d.log == c.log + [
      Result(JNull, TestingURL(url), Join(c.path), None),
      Result(JNull, ResponseTypeIs(responseType), Join(c.path), None),
      Result(JNull, ServerTypeIs(serverType), Join(c.path), None),
      Result(JNull, SendingRequest, Join(c.path), None)]
    ensures d.path == c.path && d.spec == c.spec && d.url == url
  {
    var c1 := Msg(Msg(Msg(c, TestingURL(url)), ResponseTypeIs(responseType)), ServerTypeIs(serverType));
    Msg(c1.(url := url), SendingRequest)
  }

  /**
   * The request's callback: `testResponse`, then the completion callback;
   * when `testResponse` went as far as reading the body, the body checks
   * follow.
   */
  function Answered(c: Ctx, res: HttpResponse, responseType: string, serverType: string): (s: Session)
    ensures s.completedAt.Some? ==> s.completedAt.value <= |Last(s.final).log|
    ensures c.log <= Last(s.final).log
    ensures TestResponse(c, res, responseType).Thrown? ==> s == Session(Thrown(TestResponse(c, res, responseType).at), None)
    ensures TestResponse(c, res, responseType).Val? ==>
      var d := TestResponse(c, res, responseType).value.0;
      s.completedAt == Some(|d.log|) && d.log <= Last(s.final).log
    ensures TestResponse(c, res, responseType).Val? && !TestResponse(c, res, responseType).value.1 ==>
      s.final == Val(TestResponse(c, res, responseType).value.0)
  {
    match TestResponse(c, res, responseType)
    case Thrown(d) => Session(Thrown(d), None)
    case Val((d, reading)) =>
      if !reading then Session(Val(d), Some(|d.log|))
      else
        match res.body
        case Malformed(e) => Session(Val(Check(d, false, BodyNotJson(e), "name-introduction")), Some(|d.log|))
        case Parsed(record) => Session(ValidateResponse(d, record, responseType, serverType), Some(|d.log|))
  }

  /**
   * `testResponse`: the path starts again at `$`; a first result says a
   * response arrived; the status must be 400 or above for an error
   * response and below 400 otherwise; the `content-type` header must
   * start with `application/rdap+json`, ignoring case. A response without
   * that header makes the check throw. The flag says whether the body is
   * to be read, which happens only when both checks pass.
   */
  function TestResponse(c: Ctx, res: HttpResponse, responseType: string): (r: Run<(Ctx, bool)>)
    ensures r.Thrown? ==> r.at.path == ["$"] && c.log <= r.at.log
    ensures r.Val? ==> r.value.0.path == ["$"] && r.value.0.headers == res.headers && c.log <= r.value.0.log
    ensures r.Val? ==> |r.value.0.log| > |c.log| && r.value.0.log[|c.log|] == Result(JBool(true), ResponseReceived, "$", None)
    ensures r.Val? ==> (r.value.1 <==> StatusAccepted(res.status, responseType) && MediaAccepted(res.headers))
    ensures r.Val? && r.value.1 ==> r.value.0.spec == "rfc9083" && r.value.0.log == c.log + [
      Result(JBool(true), ResponseReceived, "$", None),
      Result(JBool(true), StatusMessage(IntToString(res.status), responseType == "error"), "$", Ref(c.spec, StatusFragment(responseType))),
      Result(JBool(true), MediaTypeMessage(HeaderValue(res.headers, "content-type").value), "$", Ref(c.spec, "section-4.2"))]
    ensures r.Thrown? <==> StatusAccepted(res.status, responseType) && HeaderValue(res.headers, "content-type").None?
  {
    var c1 := Check(c.(path := ["$"]), true, ResponseReceived, "").(headers := res.headers);
    var statusOk := StatusAccepted(res.status, responseType);
    var c2 := Check(c1, statusOk, StatusMessage(IntToString(res.status), responseType == "error"), StatusFragment(responseType));
    if !statusOk then Val((c2, false))
    else
      match HeaderValue(res.headers, "content-type")
      case None => Thrown(c2)
      case Some(contentType) =>
        var mediaOk := MediaAccepted(res.headers);
        var c3 := Check(c2, mediaOk, MediaTypeMessage(contentType), "section-4.2");
        if !mediaOk then Val((c3, false)) else Val((SetSpec(c3, "rfc9083"), true))
  }

  /** An error response must have a status of 400 or above, any other response one below 400. */
  predicate StatusAccepted(status: int, responseType: string)
  {
    if responseType == "error" then status >= 400 else status < 400
  }

  /** The section of RFC 7480 the status check cites. */
  function StatusFragment(responseType: string): string
  {
    if responseType == "error" then "section-5.3" else "section-5.1"
  }

  /** The `content-type` header, lower-cased, starts with `application/rdap+json`. */
  predicate MediaAccepted(headers: seq<(string, string)>)
  {
    HeaderValue(headers, "content-type").Some? && "application/rdap+json" <= Lower(HeaderValue(headers, "content-type").value)
  }
}
