/**
 * The validator object itself: the state the checks share (the JSONPath
 * stack, the current specification, the error counter, the results handed
 * to the result callback, what the last test fetched), the primitive steps
 * that change it, and the steps of a run that work by changing it in a
 * loop or in sequence.
 *
 * Each method is proved against the function of the state that the other
 * modules define for the same step: run from state `St()`, the method
 * ends in the state the function gives, and throws exactly when the
 * function says the step throws.
 */
module RdapValidator {
  import opened Wrappers
  import opened Json
  import opened JsRuntime
  import opened Predicates
  import opened Tables
  import opened Paths
  import opened Results
  import opened Messages
  import opened Queries
  import opened Context
  import opened Members
  import Semantics
  import Gtld
  import Dispatch

  class Validator {
    /** The JSONPath stack; each result is reported at its segments joined together. */
    var path: seq<string>
    /** The specification that references point into. */
    var currentSpec: string
    /** The number of failures reported since the run started. */
    var errors: nat
    /** The results handed to the result callback since the run started. */
    var log: seq<Result>
    /** The URL and the response headers of the last test, and the body it validated. */
    var lastTestedURL: string
    var lastTestedResponseHeaders: seq<(string, string)>
    var lastTestedResponse: Json
    /** For each call of the completion callback, the number of results reported by then. */
    var completions: seq<nat>
    /** What the validator learns from the code it calls. */
    var env: Env

    /** The state as the checks see it. */
    function St(): Ctx
      reads this
    {
      Ctx(path, currentSpec, log, lastTestedURL, lastTestedResponseHeaders, env)
    }

    /** The error counter counts the failures in the log. */
    predicate Valid()
      reads this
    {
      errors == ErrorCount(log)
    }

    constructor(env: Env)
      ensures Valid()
      ensures path == [] && log == [] && completions == [] && this.env == env
    {
      path := [];
      currentSpec := "";
      errors := 0;
      log := [];
      lastTestedURL := "";
      lastTestedResponseHeaders := [];
      lastTestedResponse := JUndefined;
      completions := [];
      this.env := env;
    }

    /**
     * `add(result, message, ref)`: reports a result at the current path,
     * with a reference only when a fragment is given, counts it when it is
     * exactly `false`, and hands the verdict back.
     */
    method Add(verdict: Json, message: string, fragment: string) returns (v: Json)
      requires Valid()
      modifies this`log, this`errors
      ensures Valid()
      ensures v == verdict
      ensures St() == Context.Add(old(St()), verdict, message, fragment)
      ensures errors == old(errors) + (if verdict == JBool(false) then 1 else 0)
    {
      var result := Result(verdict, message, Join(path), Ref(currentSpec, fragment));
      ErrorCountAppend(log, result);
      log := log + [result];
      if verdict == JBool(false) {
        errors := errors + 1;
      }
      v := verdict;
    }

    /** `add` with a boolean verdict, which the caller branches on. */
    method Check(pass: bool, message: string, fragment: string) returns (passed: bool)
      requires Valid()
      modifies this`log, this`errors
      ensures Valid()
      ensures passed == pass
      ensures St() == Context.Check(old(St()), pass, message, fragment)
    {
      var v := Add(JBool(pass), message, fragment);
      passed := pass;
    }

    /** `msg(message)`: an informational result, which is never an error. */
    method Msg(message: string)
      requires Valid()
      modifies this`log, this`errors
      ensures Valid()
      ensures St() == Context.Msg(old(St()), message)
      ensures errors == old(errors)
    {
      var v := Add(JNull, message, "");
    }

    /** `pushPath(segment)`. */
    method PushPath(segment: string)
      modifies this`path
      ensures St() == Push(old(St()), segment)
    {
      path := path + [segment];
    }

    /** `popPath()`: popping an empty stack leaves it empty. */
    method PopPath()
      modifies this`path
      ensures St() == Pop(old(St()))
    {
      if path != [] {
        path := path[..|path| - 1];
      }
    }

    /**
     * A step the other modules define as a function of the state and
     * that has no loop of its own: the state becomes the one the step ends
     * in, and the error counter counts what it reported.
     */
    method Perform(r: Run<Ctx>) returns (o: Outcome)
      requires Valid() && log <= Last(r).log
      modifies this`path, this`currentSpec, this`log, this`errors, this`lastTestedURL, this`lastTestedResponseHeaders, this`env
      ensures Valid()
      ensures St() == Last(r)
      ensures o.Ok? <==> r.Val?
    {
      var d := Last(r);
      var added := d.log[|log|..];
      assert log + added == d.log;
      ErrorCountConcat(log, added);
      errors := errors + ErrorCount(added);
      path, currentSpec, log := d.path, d.spec, d.log;
      lastTestedURL, lastTestedResponseHeaders, env := d.url, d.headers, d.env;
      o := if r.Val? then Done else Throw;
    }

    /**
     * `iterate(array, callback)`: for each element in order, push `[i]`,
     * run the callback, pop; a value that is not an array has no
     * `forEach`, and the call throws.
     */
    method Iterate(v: Json, cb: Semantics.Callback) returns (o: Outcome)
      requires Valid()
      modifies this`path, this`currentSpec, this`log, this`errors, this`lastTestedURL, this`lastTestedResponseHeaders, this`env
      ensures Valid()
      ensures Into(St(), o) == Semantics.Iterate(old(St()), v, cb)
    {
      if !v.JArr? {
        return Throw;
      }
      ghost var whole := Semantics.Iterate(St(), v, cb);
      var i := 0;
      while i < |v.elems|
        invariant 0 <= i <= |v.elems|
        invariant Valid()
        invariant whole == Semantics.IterFrom(St(), v.elems, cb, i)
      {
        o := Visit(v.elems, cb, i);
        if o.Throw? {
          return;
        }
        i := i + 1;
      }
      o := Done;
    }

    /** One turn of `iterate`'s loop: push `[i]`, run the callback on element `i`, pop. */
    method Visit(elems: seq<Json>, cb: Semantics.Callback, i: nat) returns (o: Outcome)
      requires Valid() && i < |elems|
      modifies this`path, this`currentSpec, this`log, this`errors, this`lastTestedURL, this`lastTestedResponseHeaders, this`env
      ensures Valid()
      ensures o.Ok? ==> Semantics.IterFrom(old(St()), elems, cb, i) == Semantics.IterFrom(St(), elems, cb, i + 1)
      ensures o.Throw? ==> Semantics.IterFrom(old(St()), elems, cb, i) == Thrown(St())
    {
      Semantics.IterFromStep(St(), elems, cb, i);
      PushPath(IndexSegment(i));
      o := Perform(Semantics.Invoke(St(), cb, elems[i]));
      if o.Ok? {
        PopPath();
      }
    }

    // -------------------------------------------------------------------
    // validateSecureDNS

    /**
     * `validateSecureDNS`: an object whose `zoneSigned` and
     * `delegationSigned` are booleans; for a signed delegation, the DS and
     * key records are checked and counted, and there must be at least one.
     */
    method SecureDNS(s: Json) returns (o: Outcome)
      requires Valid()
      modifies this`path, this`currentSpec, this`log, this`errors, this`lastTestedURL, this`lastTestedResponseHeaders, this`env
      ensures Valid()
      ensures Into(St(), o) == Semantics.SecureDNS(old(St()), s)
    {
      Msg(ValidatingSecureDNS);
      var isObject := IsObject(s);
      if isObject.Throw? {
        return Throw;
      }
      var ok := Check(isObject.value, SecureDNSNotObject, "");
      if !ok {
        return Done;
      }
      o := Perform(MemberChecks(St(), s, SecureDNSRules));
      if o.Throw? || !Truthy(Prop(s, "delegationSigned")) {
        return;
      }
      var count;
      o, count := SignedRecords(s);
      if o.Throw? {
        return;
      }
      ok := Check(count > 0, SignedWithoutRecords, "");
    }

    /**
     * The `forEach` over `dsData` and `keyData` of a signed delegation,
     * which also adds up the number of records.
     */
    method SignedRecords(s: Json) returns (o: Outcome, count: nat)
      requires Valid()
      modifies this`path, this`currentSpec, this`log, this`errors, this`lastTestedURL, this`lastTestedResponseHeaders, this`env
      ensures Valid()
      ensures Into(St(), o) == Semantics.SignedRecordMembers(old(St()), s)
      ensures o.Ok? ==> count == DnssecRecordCount(s)
    {
      ghost var c0 := St();
      count := 0;
      var k := 0;
      while k < 2
        invariant 0 <= k <= 2
        invariant Valid()
        invariant k == 0 ==> St() == c0 && count == 0
        invariant k == 1 ==> Semantics.ArrayMember(c0, s, "dsData", Semantics.EachDSData) == Val(St()) && count == RecordCount(s, "dsData")
        invariant k == 2 ==> Semantics.SignedRecordMembers(c0, s) == Val(St()) && count == DnssecRecordCount(s)
      {
        var n;
        o, n := RecordMember(s, RecordKeys[k], RecordCallback(k));
        if o.Throw? {
          return;
        }
        count := count + n;
        k := k + 1;
      }
      o := Done;
    }

    /**
     * One member of the `forEach`: when present it must be an array, and
     * then its records are counted and each one is checked.
     */
    method RecordMember(s: Json, p: string, cb: Semantics.Callback) returns (o: Outcome, n: nat)
      requires Valid()
      modifies this`path, this`currentSpec, this`log, this`errors, this`lastTestedURL, this`lastTestedResponseHeaders, this`env
      ensures Valid()
      ensures Into(St(), o) == Semantics.ArrayMember(old(St()), s, p, cb)
      ensures o.Ok? ==> n == RecordCount(s, p)
    {
      Semantics.ArrayMemberSteps(St(), s, p, cb);
      RecordCountOfMember(s, p);
      n := 0;
      PushPath(MemberSegment(p));
      var has := HasOwn(s, p);
      if has.Throw? {
        return Throw, 0;
      }
      if has.value {
        o, n := Records(Prop(s, p), p, cb);
        if o.Throw? {
          return;
        }
      }
      PopPath();
      o := Done;
    }

    /** A present record member: it must be an array, whose length is counted and whose records are checked. */
    method Records(v: Json, p: string, cb: Semantics.Callback) returns (o: Outcome, n: nat)
      requires Valid()
      modifies this`path, this`currentSpec, this`log, this`errors, this`lastTestedURL, this`lastTestedResponseHeaders, this`env
      ensures Valid()
      ensures Into(St(), o) == Semantics.ArrayValue(old(St()), v, NotArray(p), "", cb)
      ensures o.Ok? ==> n == (if v.JArr? then |v.elems| else 0)
    {
      var isArray := IsArray(v);
      if isArray.Throw? {
        return Throw, 0;
      }
      var ok := Check(isArray.value, NotArray(p), "");
      if !ok {
        return Done, 0;
      }
      n := |v.elems|;
      o := Iterate(v, cb);
    }

    // -------------------------------------------------------------------
    // the registrar scan of validateCommonGTLDDomainProperties

    /**
     * The `iterate` over a domain's entities that sets `registrarPresent`
     * for each entity with the registrar role and checks it as a
     * registrar. A registrar check that leaves segments behind makes the
     * `popPath` after it remove one of those instead of the index.
     */
    method RegistrarScan(entities: seq<Json>) returns (o: Outcome, present: bool)
      requires Valid()
      modifies this`path, this`currentSpec, this`log, this`errors, this`lastTestedURL, this`lastTestedResponseHeaders, this`env
      ensures Valid()
      ensures o.Ok? ==> Gtld.RegistrarScan(old(St()), entities, 0, false) == Val((St(), present))
      ensures o.Throw? ==> Gtld.RegistrarScan(old(St()), entities, 0, false) == Thrown(St())
    {
      present := false;
      var i := 0;
      while i < |entities|
        invariant 0 <= i <= |entities|
        invariant Valid()
        invariant Gtld.RegistrarScan(old(St()), entities, 0, false) == Gtld.RegistrarScan(St(), entities, i, present)
      {
        o, present := ScanStep(entities, i, present);
        if o.Throw? {
          return;
        }
        i := i + 1;
      }
      o := Done;
    }

    /** One turn of the registrar scan: push `[i]`, test the role, check a registrar, pop. */
    method ScanStep(entities: seq<Json>, i: nat, present: bool) returns (o: Outcome, now: bool)
      requires Valid() && i < |entities|
      modifies this`path, this`currentSpec, this`log, this`errors, this`lastTestedURL, this`lastTestedResponseHeaders, this`env
      ensures Valid()
      ensures o.Ok? ==> Gtld.RegistrarScan(old(St()), entities, i, present) == Gtld.RegistrarScan(St(), entities, i + 1, now)
      ensures o.Throw? ==> Gtld.RegistrarScan(old(St()), entities, i, present) == Thrown(St())
    {
      PushPath(IndexSegment(i));
      var pushed := St();
      now := present;
      var isRegistrar := HasRole(entities[i], "registrar");
      if isRegistrar.Throw? {
        assert Gtld.RegistrarStep(pushed, entities[i]) == Thrown(pushed);
        return Throw, now;
      }
      now := present || isRegistrar.value;
      if isRegistrar.value {
        var checked := Gtld.RegistrarEntity(pushed, entities[i]);
        o := Perform(checked);
        if o.Throw? {
          assert Gtld.RegistrarStep(pushed, entities[i]) == Thrown(St());
          return;
        }
        assert Gtld.RegistrarStep(pushed, entities[i]) == Val((St(), true));
      } else {
        assert Gtld.RegistrarStep(pushed, entities[i]) == Val((pushed, false));
      }
      PopPath();
      o := Done;
    }

    // -------------------------------------------------------------------
    // a test run

    /**
     * `validateResponse`: the body must be an object; then the checks the
     * response type calls for, and a last message that reports the error
     * counter.
     */
    method ValidateResponse(record: Json, responseType: string, serverType: string) returns (o: Outcome)
      requires Valid()
      modifies this`path, this`currentSpec, this`log, this`errors, this`lastTestedURL, this`lastTestedResponseHeaders, this`env, this`lastTestedResponse
      ensures Valid()
      ensures lastTestedResponse == record
      ensures Into(St(), o) == Dispatch.ValidateResponse(old(St()), record, responseType, serverType)
    {
      lastTestedResponse := record;
      var isObject := IsObject(record);
      if isObject.Throw? {
        return Throw;
      }
      var ok := Check(isObject.value, BodyNotObject, "section-5");
      if !ok {
        return Done;
      }
      o := Perform(Dispatch.Preamble(St(), record, responseType));
      if o.Throw? {
        return;
      }
      o := Perform(Dispatch.ByType(St(), record, responseType, serverType));
      if o.Throw? {
        return;
      }
      Msg(Completed(NatToString(errors)));
    }

    /**
     * `testResponse`: the path starts again at `$`, the status and the
     * media type are checked, and `reading` says whether the body is to be
     * read next.
     */
    method TestResponse(res: Dispatch.HttpResponse, responseType: string) returns (o: Outcome, reading: bool)
      requires Valid()
      modifies this`path, this`currentSpec, this`log, this`errors, this`lastTestedResponseHeaders
      ensures Valid()
      ensures o.Ok? ==> Dispatch.TestResponse(old(St()), res, responseType) == Val((St(), reading))
      ensures o.Throw? ==> Dispatch.TestResponse(old(St()), res, responseType) == Thrown(St())
    {
      path := ["$"];
      var received := Check(true, ResponseReceived, "");
      lastTestedResponseHeaders := res.headers;
      reading := false;
      var errorExpected := responseType == "error";
      var ok := Check(Dispatch.StatusAccepted(res.status, responseType), StatusMessage(IntToString(res.status), errorExpected), Dispatch.StatusFragment(responseType));
      if !ok {
        return Done, false;
      }
      var contentType := HeaderValue(lastTestedResponseHeaders, "content-type");
      if contentType.None? {
        return Throw, false;
      }
      ok := Check("application/rdap+json" <= Lower(contentType.value), MediaTypeMessage(contentType.value), "section-4.2");
      if !ok {
        return Done, false;
      }
      currentSpec := "rfc9083";
      o, reading := Done, true;
    }

    /**
     * `testURL` and the callbacks that follow it: the type checks, the
     * request, and when it is answered `testResponse`, the completion
     * callback and the body checks. No exception escapes to the caller:
     * one raised in a callback only rejects that callback's promise.
     */
    method TestURL(url: string, responseType: string, serverType: string, fetched: Dispatch.Fetched)
      requires Valid()
      modifies this
      ensures Valid()
      ensures var s := Dispatch.TestURL(old(St()), url, responseType, serverType, fetched);
        St() == Last(s.final) &&
        completions == old(completions) + (if s.completedAt.Some? then [s.completedAt.value] else [])
    {
      ghost var c0 := Dispatch.Start(old(St()));
      currentSpec := "rfc7480";
      errors := 0;
      log := [];
      assert St() == c0;
      if responseType !in ResponseTypes {
        Reject(InvalidResponseType(responseType));
        assert Dispatch.TestURL(old(St()), url, responseType, serverType, fetched) == Dispatch.Session(Val(St()), Some(|log|));
        return;
      }
      if serverType !in ServerTypes {
        Reject(InvalidServerType(serverType));
        assert Dispatch.TestURL(old(St()), url, responseType, serverType, fetched) == Dispatch.Session(Val(St()), Some(|log|));
        return;
      }
      Request(url, responseType, serverType);
      assert Dispatch.TestURL(old(St()), url, responseType, serverType, fetched) == Dispatch.Sent(St(), responseType, serverType, fetched);
      Send(responseType, serverType, fetched);
    }

    /** A type `testURL` does not know: one failure, and the completion callback straight after it. */
    method Reject(message: string)
      requires Valid()
      modifies this`log, this`errors, this`completions
      ensures Valid()
      ensures St() == Context.Check(old(St()), false, message, "")
      ensures completions == old(completions) + [|log|]
    {
      var ok := Check(false, message, "");
      completions := completions + [|log|];
    }

    /** The messages naming what is tested, with the tested URL recorded before the request goes out. */
    method Request(url: string, responseType: string, serverType: string)
      requires Valid()
      modifies this`log, this`errors, this`lastTestedURL
      ensures Valid()
      ensures St() == Dispatch.Requested(old(St()), url, responseType, serverType)
    {
      Msg(TestingURL(url));
      Msg(ResponseTypeIs(responseType));
      Msg(ServerTypeIs(serverType));
      lastTestedURL := url;
      Msg(SendingRequest);
    }

    /** The request and its outcome: a failure is reported, an answer handed to `Answer`. */
    method Send(responseType: string, serverType: string, fetched: Dispatch.Fetched)
      requires Valid()
      modifies this
      ensures Valid()
      ensures var s := Dispatch.Sent(old(St()), responseType, serverType, fetched);
        St() == Last(s.final) &&
        completions == old(completions) + (if s.completedAt.Some? then [s.completedAt.value] else [])
    {
      match fetched
      case Failed(e) =>
        var ok := Check(false, RequestFailed(e), "");
      case Responded(res) =>
        Answer(res, responseType, serverType);
    }

    /**
     * The request's callback: `testResponse`, then the completion
     * callback, then, once the body is read, its checks.
     */
    method Answer(res: Dispatch.HttpResponse, responseType: string, serverType: string)
      requires Valid()
      modifies this
      ensures Valid()
      ensures var s := Dispatch.Answered(old(St()), res, responseType, serverType);
        St() == Last(s.final) &&
        completions == old(completions) + (if s.completedAt.Some? then [s.completedAt.value] else [])
    {
      var o, reading := TestResponse(res, responseType);
      if o.Throw? {
        return;
      }
      completions := completions + [|log|];
      if reading {
        match res.body
        case Malformed(e) =>
          var ok := Check(false, BodyNotJson(e), "name-introduction");
        case Parsed(record) =>
          o := ValidateResponse(record, responseType, serverType);
      }
    }
  }

  /** The records of a member: the length of its value when that is an array the object has as its own. */
  lemma RecordCountOfMember(s: Json, p: string)
    ensures !Nullish(s) ==> RecordCount(s, p) == if Has(s, p) && Prop(s, p).JArr? then |Prop(s, p).elems| else 0
  {
  }

  /** The record members of a secureDNS object, in the order they are checked. */
  const RecordKeys: seq<string> := ["dsData", "keyData"]

  /** The validator for the records of each member. */
  function RecordCallback(k: nat): Semantics.Callback
  {
    if k == 0 then Semantics.EachDSData else Semantics.EachKeyData
  }
}
