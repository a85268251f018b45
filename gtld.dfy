/**
 * The checks of the ICANN gTLD RDAP profile that run on top of the RFC 9083
 * checks when the server is a gTLD registry or registrar: the checks common
 * to every gTLD response, the domain checks of registries and registrars,
 * the name checks shared by domains and nameservers, the registrar entity
 * check, the nameserver and entity response checks and the help response
 * check.
 *
 * Several of these checks push a segment and return before popping it; the
 * functions below keep those segments on the path, and their contracts say
 * which ones they can leave behind.
 */
module Gtld {
  import opened Wrappers
  import opened Json
  import opened JsRuntime
  import opened Predicates
  import opened Paths
  import opened Results
  import opened Messages
  import opened Queries
  import opened Context
  import opened Members
  import opened Semantics

  /** `x.hasOwnProperty(key)` reported under the member's own segment, with no citation. */
  function PresenceCheck(c: Ctx, x: Json, key: string, message: string): (r: Run<Ctx>)
    ensures r.Thrown? <==> Nullish(x)
    ensures r.Val? ==> r.value == Check(Push(c, MemberSegment(key)), MemberOf(x, key).Some?, message, "").(path := c.path)
  {
    var c1 := Push(c, MemberSegment(key));
    var has :- Try(c1, HasOwn(x, key));
    Val(Pop(Check(c1, has, message, "")))
  }

  /**
   * The same check on an object already known not to be `null` or
   * `undefined`, where `hasOwnProperty` cannot throw.
   */
  function Present(c: Ctx, x: Json, key: string, message: string): (d: Ctx)
    ensures !Nullish(x) ==> PresenceCheck(c, x, key, message) == Val(d)
  {
    Pop(Check(Push(c, MemberSegment(key)), Has(x, key), message, ""))
  }

  // ---------------------------------------------------------------------
  // validateCommonGTLDResponseProperties

  /**
   * The checks every gTLD response gets: the tested URL uses `https:`, the
   * server sent a CORS header, the conformance list names the profile and
   * only registered extensions, every entity has a handle and well-formed
   * contact data, and the events include the last database update.
   */
  function ResponseProperties(c: Ctx, response: Json): (r: Run<Ctx>)
    ensures Grows(c, r) && Restores(c, r)
    ensures c.env.protocolOf(c.url).None? ==> r == Thrown(c)
    ensures c.env.protocolOf(c.url).Some? ==>
      |Last(r).log| >= |c.log| + 2 &&
      Last(r).log[|c.log|] == Result(JBool(c.env.protocolOf(c.url) == Some("https:")), SchemeNotHttps, Join(c.path), None) &&
      Last(r).log[|c.log| + 1] == Result(JBool(HeaderValue(c.headers, "access-control-allow-origin").Some?), CorsHeaderMissing, Join(c.path), None)
  {
    match c.env.protocolOf(c.url)
    case None => Thrown(c)
    case Some(protocol) =>
      var c1 := Check(c, protocol == "https:", SchemeNotHttps, "");
      var c2 := Check(c1, HeaderValue(c.headers, "access-control-allow-origin").Some?, CorsHeaderMissing, "");
      assert c2.path == c.path && c2.log == c.log + [
        Result(JBool(protocol == "https:"), SchemeNotHttps, Join(c.path), None),
        Result(JBool(HeaderValue(c.headers, "access-control-allow-origin").Some?), CorsHeaderMissing, Join(c.path), None)];
      ResponseMembers(c2, response)
  }

  /** The checks of a gTLD response's members: conformance, entities, and the last database update. */
  function ResponseMembers(c: Ctx, response: Json): (r: Run<Ctx>)
    ensures Grows(c, r) && Restores(c, r)
  {
    var c1 :- ProfileConformance(c, response);
    var c2 :- ResponseEntities(c1, response);
    LastUpdate(c2, response)
  }

  /**
   * The profile's conformance checks, when `rdapConformance` is an array:
   * each profile identifier is looked for with `includes()` called without
   * an argument, which looks for `undefined`; then every entry other than
   * `rdap_level_0` must be a registered extension.
   */
  function ProfileConformance(c: Ctx, response: Json): (r: Run<Ctx>)
    ensures Grows(c, r) && Restores(c, r)
    ensures HasOwn(response, "rdapConformance").Throw? ==> r == Thrown(c)
    ensures HasOwn(response, "rdapConformance") == Ok(false) ==> r == Val(c)
    ensures HasOwn(response, "rdapConformance") == Ok(true) && IsArray(Prop(response, "rdapConformance")) == Ok(false) ==> r == Val(c)
    ensures HasOwn(response, "rdapConformance") == Ok(true) && Prop(response, "rdapConformance").JArr? ==>
      ProfileIdsAsWritten(Push(c, MemberSegment("rdapConformance")), Prop(response, "rdapConformance").elems).log <= Last(r).log
  {
    var has :- Try(c, HasOwn(response, "rdapConformance"));
    if !has then Val(c)
    else
      var conf := Prop(response, "rdapConformance");
      var isArray :- Try(c, IsArray(conf));
      if !isArray then Val(c)
      else
        var c1 := Push(c, MemberSegment("rdapConformance"));
        var c3 := ProfileIdsAsWritten(c1, conf.elems);
        var c4 :- Iterate(c3, JArr(NonBaseEntries(conf.elems)), Assert(RegisteredExtension));
        Val(Pop(c4))
  }

  /** The two identifiers of the gTLD profile that `rdapConformance` must declare. */
  const ProfileIds: seq<string> := ["icann_rdap_response_profile_1", "icann_rdap_technical_implementation_guide_1"]

  /** `rdapConformance.includes()`: whether the list holds `undefined`. */
  predicate ProfileListed(entries: seq<Json>)
  {
    JUndefined in entries
  }

  /** `rdapConformance.includes(id)`: the test the profile check evidently means. */
  predicate ProfileIdListed(entries: seq<Json>, id: string)
  {
    JStr(id) in entries
  }

  /**
   * The profile identifier checks as written: one result per identifier,
   * each with the verdict of `includes()`, whatever the identifier.
   */
  function ProfileIdsAsWritten(c: Ctx, entries: seq<Json>): (d: Ctx)
    ensures d.path == c.path && d.spec == c.spec && c.log <= d.log && |d.log| == |c.log| + 2
    ensures forall k :: 0 <= k < 2 ==>
      d.log[|c.log| + k] == Result(JBool(ProfileListed(entries)), ProfileConformanceMissing(ProfileIds[k]), Join(c.path), None)
  {
    var c1 := Check(c, ProfileListed(entries), ProfileConformanceMissing(ProfileIds[0]), "");
    Check(c1, ProfileListed(entries), ProfileConformanceMissing(ProfileIds[1]), "")
  }

  /**
   * The profile identifier checks as evidently intended: one result per
   * identifier, passing exactly when the list declares that identifier.
   */
  function ProfileIdsIntended(c: Ctx, entries: seq<Json>): (d: Ctx)
    ensures d.path == c.path && d.spec == c.spec && c.log <= d.log && |d.log| == |c.log| + 2
    ensures forall k :: 0 <= k < 2 ==>
      d.log[|c.log| + k].message == ProfileConformanceMissing(ProfileIds[k]) &&
      (d.log[|c.log| + k].verdict == JBool(true) <==> ProfileIdListed(entries, ProfileIds[k])) &&
      (d.log[|c.log| + k].verdict == JBool(false) <==> !ProfileIdListed(entries, ProfileIds[k]))
  {
    var c1 := Check(c, ProfileIdListed(entries, ProfileIds[0]), ProfileConformanceMissing(ProfileIds[0]), "");
    Check(c1, ProfileIdListed(entries, ProfileIds[1]), ProfileConformanceMissing(ProfileIds[1]), "")
  }

  /**
   * On a list that came from parsed JSON, which never holds `undefined`,
   * both identifier checks as written fail, whatever the list declares.
   */
  lemma ProfileIdsAsWrittenFail(c: Ctx, entries: seq<Json>)
    requires forall i :: 0 <= i < |entries| ==> entries[i] != JUndefined
    ensures var d := ProfileIdsAsWritten(c, entries);
      forall k :: |c.log| <= k < |d.log| ==> IsError(d.log[k])
  {
    assert !ProfileListed(entries);
    var d := ProfileIdsAsWritten(c, entries);
    forall k | |c.log| <= k < |d.log|
      ensures IsError(d.log[k])
    {
      assert d.log[|c.log| + (k - |c.log|)].verdict == JBool(ProfileListed(entries));
    }
  }

  /** A list that declares both profile identifiers fails both checks as written and passes both intended ones. */
  lemma DeclaredProfilesRejected(c: Ctx)
    ensures var entries := [JStr("rdap_level_0"), JStr(ProfileIds[0]), JStr(ProfileIds[1])];
      var w := ProfileIdsAsWritten(c, entries);
      var i := ProfileIdsIntended(c, entries);
      w.log[|c.log|].verdict == JBool(false) && w.log[|c.log| + 1].verdict == JBool(false) &&
      i.log[|c.log|].verdict == JBool(true) && i.log[|c.log| + 1].verdict == JBool(true)
  {
    var entries := [JStr("rdap_level_0"), JStr(ProfileIds[0]), JStr(ProfileIds[1])];
    assert entries[1] == JStr(ProfileIds[0]);
    assert entries[2] == JStr(ProfileIds[1]);
    ProfileIdsAsWrittenFail(c, entries);
  }

  /** The entity closure over `entities`, when it is an array, under `.entities`. */
  function ResponseEntities(c: Ctx, response: Json): (r: Run<Ctx>)
    ensures Grows(c, r) && Restores(c, r)
  {
    var has :- Try(c, HasOwn(response, "entities"));
    if !has then Val(c)
    else
      var entities := Prop(response, "entities");
      var isArray :- Try(c, IsArray(entities));
      if !isArray then Val(c)
      else
        var c1 :- Iterate(Push(c, MemberSegment("entities")), entities, EachGTLDResponseEntity);
        Val(Pop(c1))
  }

  /**
   * When the response has `events` and its `entities` (not its events) is
   * an array, some event must be the last update of the RDAP database.
   */
  function LastUpdate(c: Ctx, response: Json): (r: Run<Ctx>)
    ensures Grows(c, r) && Restores(c, r)
    ensures r.Val? && |r.value.log| > |c.log| ==> (MemberOf(response, "events").Some? && LastUpdatePresent(MemberOf(response, "events").value).Ok? &&
      r.value.log == c.log + [Result(JBool(LastUpdatePresent(MemberOf(response, "events").value).value), LastUpdateMissing, Join(c.path + [MemberSegment("events")]), None)])
    ensures var events := MemberOf(response, "events"); var entities := MemberOf(response, "entities");
      r.Thrown? <==> (Nullish(response) || (events.Some? && (entities == Some(JNull) ||
        (entities.Some? && entities.value.JArr? && LastUpdatePresent(events.value).Throw?))))
    ensures var entities := MemberOf(response, "entities");
      r.Val? ==> (|r.value.log| > |c.log| <==> MemberOf(response, "events").Some? && entities.Some? && entities.value.JArr?)
    ensures r.Val? && |r.value.log| == |c.log| ==> r.value == c
  {
    var has :- Try(c, HasOwn(response, "events"));
    if !has then Val(c)
    else
      var entitiesArray :- Try(c, IsArray(Prop(response, "entities")));
      if !entitiesArray then Val(c)
      else
        var c1 := Push(c, MemberSegment("events"));
        var present :- Try(c1, LastUpdatePresent(Prop(response, "events")));
        Val(Pop(Check(c1, present, LastUpdateMissing, "")))
  }

  /**
   * The last-update test the check evidently means: on `events` being an
   * array, whatever `entities` holds.
   */
  function LastUpdateIntended(c: Ctx, response: Json): (r: Run<Ctx>)
    ensures Grows(c, r) && Restores(c, r)
    ensures var events := MemberOf(response, "events");
      r.Thrown? <==> (Nullish(response) || events == Some(JNull) ||
        (events.Some? && events.value.JArr? && exists i :: 0 <= i < |events.value.elems| && Nullish(events.value.elems[i])))
    ensures var events := MemberOf(response, "events");
      r.Val? && events.Some? && events.value.JArr? ==>
        r.value.log == c.log + [Result(JBool(exists i :: 0 <= i < |events.value.elems| && ReportsLastUpdate(events.value.elems[i])),
                                       LastUpdateMissing, Join(c.path + [MemberSegment("events")]), None)]
    ensures var events := MemberOf(response, "events");
      r.Val? && !(events.Some? && events.value.JArr?) ==> r.value == c
  {
    var has :- Try(c, HasOwn(response, "events"));
    if !has then Val(c)
    else
      var eventsArray :- Try(c, IsArray(Prop(response, "events")));
      if !eventsArray then Val(c)
      else
        var c1 := Push(c, MemberSegment("events"));
        var present :- Try(c1, LastUpdatePresent(Prop(response, "events")));
        Val(Pop(Check(c1, present, LastUpdateMissing, "")))
  }

  /**
   * A response whose events include the last update but which has no
   * `entities` array gets no last-update result as written; the intended
   * test reports it as passing.
   */
  lemma LastUpdateNeedsEntities(c: Ctx)
    ensures var response := JObj([Member("events", JArr([JObj([Member("eventAction", JStr("last update of RDAP database"))])]))]);
      LastUpdate(c, response) == Val(c) &&
      LastUpdateIntended(c, response) == Val(c.(log := c.log + [Result(JBool(true), LastUpdateMissing, Join(c.path + [MemberSegment("events")]), None)]))
  {
    var e := JObj([Member("eventAction", JStr("last update of RDAP database"))]);
    assert ReportsLastUpdate(e);
    assert JArr([e]).elems[0] == e;
  }

  /** As written, an `events` member that is not an array throws once `entities` is an array; the intended test skips it. */
  lemma LastUpdateEventsObject(c: Ctx)
    ensures var response := JObj([Member("events", JObj([])), Member("entities", JArr([]))]);
      LastUpdate(c, response).Thrown? && LastUpdateIntended(c, response) == Val(c)
  {
  }

  // ---------------------------------------------------------------------
  // registry and registrar domains

  /** `validateGTLDRegistryDomain`: the common gTLD checks, then the domain checks. */
  function RegistryDomain(c: Ctx, domain: Json, name: string): (r: Run<Ctx>)
    ensures Grows(c, r) && Extends(c, r)
  {
    DomainChecks(Msg(c, ValidatingGTLDRegistry), domain, name)
  }

  /** The checks registries and registrars share: the common gTLD checks, then the domain checks. */
  function DomainChecks(c: Ctx, domain: Json, name: string): (r: Run<Ctx>)
    ensures Grows(c, r) && Extends(c, r)
  {
    var c1 :- ResponseProperties(c, domain);
    DomainProperties(c1, domain, name)
  }

  /**
   * `validateGTLDRegistrarDomain`: as for a registry, and then some entity
   * must be a registrant.
   */
  function RegistrarDomain(c: Ctx, domain: Json, name: string): (r: Run<Ctx>)
    ensures Grows(c, r) && Extends(c, r)
  {
    var c1 :- DomainChecks(Msg(c, ValidatingGTLDRegistrar), domain, name);
    RegistrantPresent(c1, domain)
  }

  /** Some entity of the domain's `entities`, if that is an array, has the registrant role. */
  function RegistrantPresent(c: Ctx, domain: Json): (r: Run<Ctx>)
    ensures Grows(c, r) && Restores(c, r)
    ensures r.Val? ==> r.value.log == c.log + [Result(JBool(RegistrantListed(domain)), RegistrantMissing, Join(c.path + [MemberSegment("entities")]), None)]
  {
    var c1 := Push(c, MemberSegment("entities"));
    var has :- Try(c1, HasOwn(domain, "entities"));
    var isArray :- if has then Try(c1, IsArray(Prop(domain, "entities"))) else Val(false);
    var entities := if isArray then Prop(domain, "entities").elems else [];
    var found :- Try(c1, SomeWithRole(entities, "registrant"));
    Val(Pop(Check(c1, found, RegistrantMissing, "")))
  }

  /** The domain's `entities` is an array in which some entity has the registrant role. */
  predicate RegistrantListed(domain: Json)
  {
    MemberOf(domain, "entities").Some? && MemberOf(domain, "entities").value.JArr? &&
    SomeWithRole(MemberOf(domain, "entities").value.elems, "registrant") == Ok(true)
  }

  /**
   * `validateCommonGTLDDomainProperties`: a handle, the name checks, then
   * the entity checks; when `entities` is missing or not an array the
   * function returns there, leaving `.entities` on the path.
   */
  function DomainProperties(c: Ctx, domain: Json, name: string): (r: Run<Ctx>)
    ensures Grows(c, r) && Extends(c, r)
    ensures r.Val? && domain.JObj? && MemberOf(domain, "entities").None? ==> r.value.path == c.path + [MemberSegment("entities")]
  {
    var c1 :- PresenceCheck(c, domain, "handle", DomainHandleMissing);
    var c2 :- NameProperties(c1, domain, name);
    DomainEntities(c2, domain)
  }

  /**
   * The entity checks: `entities` must be present and an array, and some
   * entity must be a registrar; each registrar is checked in turn. Then the
   * remaining domain checks run.
   */
  function DomainEntities(c: Ctx, domain: Json): (r: Run<Ctx>)
    ensures Grows(c, r) && Extends(c, r)
    ensures r.Val? && domain.JObj? && MemberOf(domain, "entities").None? ==>
      r.value == Check(Push(c, MemberSegment("entities")), false, DomainEntitiesMissing, "")
  {
    var c1 := Push(c, MemberSegment("entities"));
    var has :- Try(c1, HasOwn(domain, "entities"));
    var c2 := Check(c1, has, DomainEntitiesMissing, "");
    if !has then Val(c2)
    else
      var entities := Prop(domain, "entities");
      var isArray :- Try(c2, IsArray(entities));
      var c3 := Check(c2, isArray, DomainEntitiesNotArray, "");
      if !isArray then Val(c3)
      else DomainRegistrars(c3, domain, entities.elems)
  }

  /** The registrar scan over the entities, its verdict, the pop of `.entities`, and the remaining domain checks. */
  function DomainRegistrars(c: Ctx, domain: Json, entities: seq<Json>): (r: Run<Ctx>)
    ensures Grows(c, r)
    ensures r.Val? && |c.path| > 0 ==> c.path[..|c.path| - 1] <= r.value.path
    ensures RegistrarScan(c, entities, 0, false).Thrown? ==> r == Thrown(RegistrarScan(c, entities, 0, false).at)
    ensures RegistrarScan(c, entities, 0, false).Val? ==>
      var scanned := RegistrarScan(c, entities, 0, false).value.0;
      var found := exists j :: 0 <= j < |entities| && HasRole(entities[j], "registrar") == Ok(true);
      scanned.log + [Result(JBool(found), DomainRegistrarMissing, Join(scanned.path), None)] <= Last(r).log
  {
    var scan :- RegistrarScan(c, entities, 0, false);
    var c1 := Pop(Check(scan.0, scan.1, DomainRegistrarMissing, ""));
    DomainRest(c1, domain)
  }

  /**
   * `iterate` over the domain's entities with the registrar closure: each
   * entity with the registrar role sets the flag and is checked as a
   * registrar. That check may leave segments behind, and `iterate` then
   * pops one of those instead of the index it pushed.
   */
  function RegistrarScan(c: Ctx, entities: seq<Json>, i: nat, present: bool): (r: Run<(Ctx, bool)>)
    requires i <= |entities|
    ensures c.log <= LastOf(r).log
    ensures r.Val? ==> c.path <= r.value.0.path
    ensures r.Val? ==> (r.value.1 <==> present || exists j :: i <= j < |entities| && HasRole(entities[j], "registrar") == Ok(true))
    decreases |entities| - i
  {
    if i == |entities| then Val((c, present))
    else
      var step :- RegistrarStep(Push(c, IndexSegment(i)), entities[i]);
      RegistrarScan(Pop(step.0), entities, i + 1, present || step.1)
  }

  /** The registrar closure on one entity: whether it is a registrar, and the state its check left. */
  function RegistrarStep(c: Ctx, e: Json): (r: Run<(Ctx, bool)>)
    ensures c.log <= LastOf(r).log
    ensures r.Val? ==> c.path <= r.value.0.path && r.value.1 == (HasRole(e, "registrar") == Ok(true))
  {
    var isRegistrar :- Try(c, HasRole(e, "registrar"));
    var c1 :- if isRegistrar then RegistrarEntity(c, e) else Val(c);
    Val((c1, isRegistrar))
  }

  /** The state a run with a flag or a set ended in. */
  function LastOf<T>(r: Run<(Ctx, T)>): Ctx
  {
    match r
    case Val((d, _)) => d
    case Thrown(d) => d
  }

  /** The domain checks after the entity checks. */
  function DomainRest(c: Ctx, domain: Json): (r: Run<Ctx>)
    ensures Grows(c, r) && Restores(c, r)
  {
    var c1 :- DomainEvents(c, domain);
    var c2 := Present(c1, domain, "status", DomainStatusMissing);
    var c3 :- DomainNotices(c2, domain);
    var c4 := Present(c3, domain, "nameservers", DomainNameserversMissing);
    ProfileSecureDNS(c4, domain)
  }

  /**
   * The event actions the domain check has seen: those of the object
   * events of `events`, when that is an array; none otherwise.
   */
  function DomainActions(domain: Json): (r: Js<set<string>>)
  {
    var has :- HasOwn(domain, "events");
    if !has then Ok({})
    else
      var events :- Get(domain, "events");
      var isArray :- IsArray(events);
      if !isArray then Ok({}) else ActionsSeen(events.elems)
  }

  /** The domain must have a registration and an expiration event: one result for each, at `.events`. */
  function DomainEvents(c: Ctx, domain: Json): (r: Run<Ctx>)
    ensures Grows(c, r) && Restores(c, r)
    ensures r.Thrown? <==> DomainActions(domain).Throw?
    ensures r.Val? ==> r.value.log == c.log + [
      Result(JBool("registration" in DomainActions(domain).value), DomainEventMissing("registration"), Join(c.path + [MemberSegment("events")]), None),
      Result(JBool("expiration" in DomainActions(domain).value), DomainEventMissing("expiration"), Join(c.path + [MemberSegment("events")]), None)]
  {
    var c1 := Push(c, MemberSegment("events"));
    var seen :- Try(c1, DomainActions(domain));
    var c2 := Check(c1, "registration" in seen, DomainEventMissing("registration"), "");
    Val(Pop(Check(c2, "expiration" in seen, DomainEventMissing("expiration"), "")))
  }

  /**
   * The domain must have `notices`; when they are an array, exactly one
   * must be the Status Codes notice and exactly one the complaint form
   * notice.
   */
  function DomainNotices(c: Ctx, domain: Json): (r: Run<Ctx>)
    ensures Grows(c, r) && Restores(c, r)
  {
    var c1 := Push(c, MemberSegment("notices"));
    var has :- Try(c1, HasOwn(domain, "notices"));
    var c2 := Check(c1, has, DomainNoticesMissing, "");
    if !has then Val(Pop(c2))
    else
      var notices := Prop(domain, "notices");
      var isArray :- Try(c2, IsArray(notices));
      if !isArray then Val(Pop(c2))
      else
        var codes :- Try(c2, QualifyingNotices(notices.elems, "Status Codes", "glossary", "https://icann.org/epp"));
        var c3 := Check(c2, codes == 1, StatusCodesNoticeMissing, "");
        var forms :- Try(c3, QualifyingNotices(notices.elems, "RDDS Inaccuracy Complaint Form", "help", "https://icann.org/wicf"));
        Val(Pop(Check(c3, forms == 1, ComplaintNoticeMissing, "")))
  }

  /**
   * The domain must have `secureDNS`; an object one must have
   * `delegationSigned`; a signed delegation's result then carries the
   * NUMBER of record members present, not a boolean.
   */
  function ProfileSecureDNS(c: Ctx, domain: Json): (r: Run<Ctx>)
    ensures Grows(c, r) && Restores(c, r)
    ensures r.Val? ==> ErrorCount(r.value.log) <= ErrorCount(c.log) + 2
  {
    var c1 := Push(c, MemberSegment("secureDNS"));
    var has :- Try(c1, HasOwn(domain, "secureDNS"));
    var c2 := Check(c1, has, DomainSecureDNSMissing, "");
    AddCountsErrors(c1, JBool(has), DomainSecureDNSMissing, "");
    if !has then Val(Pop(c2))
    else
      var secureDNS := Prop(domain, "secureDNS");
      var isObject :- Try(c2, IsObject(secureDNS));
      if !isObject then Val(Pop(c2))
      else
        var signed := Has(secureDNS, "delegationSigned");
        var c3 := Check(c2, signed, DelegationSignedMissing, "");
        AddCountsErrors(c2, JBool(signed), DelegationSignedMissing, "");
        if !signed || !Truthy(Prop(secureDNS, "delegationSigned")) then Val(Pop(c3))
        else
          AddCountsErrors(c3, SignedRecordsVerdict(secureDNS), SignedRecordsMissing, "");
          Val(Pop(Add(c3, SignedRecordsVerdict(secureDNS), SignedRecordsMissing, "")))
  }

  /**
   * The verdict the signed-records check reports: the number of record
   * members, which is never the `false` that counts as an error.
   */
  function SignedRecordsVerdict(secureDNS: Json): (v: Json)
    ensures v != JBool(false)
    ensures v == JInt(0) <==> MemberOf(secureDNS, "keyData").None? && MemberOf(secureDNS, "dsData").None?
  {
    JInt(RecordKinds(secureDNS))
  }

  /** The verdict the check evidently means: a failure exactly when neither record member is there. */
  function SignedRecordsVerdictIntended(secureDNS: Json): (v: Json)
    ensures v == JBool(false) <==> MemberOf(secureDNS, "keyData").None? && MemberOf(secureDNS, "dsData").None?
    ensures v.JBool?
  {
    JBool(RecordKinds(secureDNS) > 0)
  }

  /** A signed delegation without records is reported as the number 0 and counts no error; the intended verdict fails. */
  lemma UnsignedRecordsNotCounted(c: Ctx)
    ensures var secureDNS := JObj([Member("delegationSigned", JBool(true))]);
      ErrorCount(Add(c, SignedRecordsVerdict(secureDNS), SignedRecordsMissing, "").log) == ErrorCount(c.log) &&
      ErrorCount(Add(c, SignedRecordsVerdictIntended(secureDNS), SignedRecordsMissing, "").log) == ErrorCount(c.log) + 1
  {
    var secureDNS := JObj([Member("delegationSigned", JBool(true))]);
    assert "delegationSigned"[0] != "keyData"[0] && "delegationSigned"[1] != "dsData"[1];
    AddCountsErrors(c, SignedRecordsVerdict(secureDNS), SignedRecordsMissing, "");
    AddCountsErrors(c, SignedRecordsVerdictIntended(secureDNS), SignedRecordsMissing, "");
  }

  /** `["keyData", "dsData"].filter((k) => secureDNS.hasOwnProperty(k)).length`. */
  function RecordKinds(secureDNS: Json): (n: nat)
    ensures n <= 2
    ensures n == 0 <==> MemberOf(secureDNS, "keyData").None? && MemberOf(secureDNS, "dsData").None?
  {
    (if Has(secureDNS, "keyData") then 1 else 0) + (if Has(secureDNS, "dsData") then 1 else 0)
  }

  // ---------------------------------------------------------------------
  // validateGTLDNameProperties

  /** `/^xn--/i.test(name)`. */
  predicate AceLabel(name: string)
  {
    |name| >= 4 && Lower(name[..4]) == "xn--"
  }

  /**
   * `validateGTLDNameProperties`: a name that `isULabel` does not flag
   * must be the object's `ldhName`; one it flags must be its
   * `unicodeName`. Both compare after lower-casing; the other name only
   * gets a placeholder message.
   */
  function NameProperties(c: Ctx, x: Json, name: string): (r: Run<Ctx>)
    ensures Grows(c, r) && Restores(c, r)
    ensures !Nullish(x) ==>
      var at := Join(c.path + [MemberSegment(NameKey(name))]);
      var value := MemberOf(x, NameKey(name));
      |Last(r).log| > |c.log| &&
      Last(r).log[|c.log|] == Result(JBool(value.Some?), if ULabelAsWritten(name) then UnicodeNameMissing else LdhNameMissing, at, None) &&
      (value.Some? && value.value.JStr? ==>
        |Last(r).log| > |c.log| + 1 &&
        Last(r).log[|c.log| + 1] == Result(JBool(Lower(name) == Lower(value.value.s)), if ULabelAsWritten(name) then UnicodeNameMismatch else LdhNameMismatch, at, None))
    ensures r.Thrown? ==> Nullish(x) || (MemberOf(x, NameKey(name)).Some? && !MemberOf(x, NameKey(name)).value.JStr?)
  {
    if !ULabelAsWritten(name) then LdhNameProperties(c, x, name) else UnicodeNameProperties(c, x, name)
  }

  /**
   * The results `validateGTLDNameProperties` starts with, under the
   * segment of `key`: whether the member is there and, for a string,
   * whether it matches the name.
   */
  predicate NameResultsAt(c: Ctx, log: seq<Result>, x: Json, key: string, name: string, missing: string, mismatch: string)
  {
    var at := Join(c.path + [MemberSegment(key)]);
    var value := MemberOf(x, key);
    |log| > |c.log| &&
    log[|c.log|] == Result(JBool(value.Some?), missing, at, None) &&
    (value.Some? && value.value.JStr? ==>
      |log| > |c.log| + 1 && log[|c.log| + 1] == Result(JBool(Lower(name) == Lower(value.value.s)), mismatch, at, None))
  }

  /** The branch for a name `isULabel` does not flag: `ldhName` is compared, and an ACE label with a `unicodeName` gets a placeholder message. */
  function LdhNameProperties(c: Ctx, x: Json, name: string): (r: Run<Ctx>)
    ensures Grows(c, r) && Restores(c, r)
    ensures !Nullish(x) ==> NameResultsAt(c, Last(r).log, x, "ldhName", name, LdhNameMissing, LdhNameMismatch)
    ensures r.Thrown? ==> Nullish(x) || (MemberOf(x, "ldhName").Some? && !MemberOf(x, "ldhName").value.JStr?)
  {
    var m := NameMatch(Push(c, MemberSegment("ldhName")), x, "ldhName", name, LdhNameMissing, LdhNameMismatch);
    if m.Thrown? then Thrown(m.at)
    else
      var c2 := Pop(m.value);
      assert NameResultsAt(c, c2.log, x, "ldhName", name, LdhNameMissing, LdhNameMismatch);
      if AceLabel(name) && Has(x, "unicodeName") then
        var c3 := Pop(Msg(Push(c2, MemberSegment("unicodeName")), TodoUnicodeName));
        assert c3.log[..|c2.log|] == c2.log;
        Val(c3)
      else Val(c2)
  }

  /** The branch for a name `isULabel` flags: `unicodeName` is compared, and an `ldhName` gets a placeholder message. */
  function UnicodeNameProperties(c: Ctx, x: Json, name: string): (r: Run<Ctx>)
    ensures Grows(c, r) && Restores(c, r)
    ensures !Nullish(x) ==> NameResultsAt(c, Last(r).log, x, "unicodeName", name, UnicodeNameMissing, UnicodeNameMismatch)
    ensures r.Thrown? ==> Nullish(x) || (MemberOf(x, "unicodeName").Some? && !MemberOf(x, "unicodeName").value.JStr?)
  {
    var m := NameMatch(Push(c, MemberSegment("unicodeName")), x, "unicodeName", name, UnicodeNameMissing, UnicodeNameMismatch);
    if m.Thrown? then Thrown(m.at)
    else
      var c1 := m.value;
      assert NameResultsAt(c, c1.log, x, "unicodeName", name, UnicodeNameMissing, UnicodeNameMismatch);
      var c2 := if Has(x, "ldhName") then Pop(Msg(Push(c1, MemberSegment("ldhName")), TodoLdhName)) else c1;
      assert c2.log[..|c1.log|] == c1.log;
      Val(Pop(c2))
  }

  /** The member the queried name is compared with: `unicodeName` for a name `isULabel` flags, `ldhName` otherwise. */
  function NameKey(name: string): string
  {
    if ULabelAsWritten(name) then "unicodeName" else "ldhName"
  }

  /**
   * The object must have member `key`, and its value, lower-cased, must
   * equal the queried name, lower-cased. A value that is not a string has
   * no `toLowerCase`, and the check throws.
   */
  function NameMatch(c: Ctx, x: Json, key: string, name: string, missing: string, mismatch: string): (r: Run<Ctx>)
    ensures Grows(c, r) && Restores(c, r)
    ensures r.Val? ==> !Nullish(x)
    ensures r.Thrown? <==> Nullish(x) || (MemberOf(x, key).Some? && !MemberOf(x, key).value.JStr?)
    ensures r.Thrown? && !Nullish(x) ==> r.at == Check(c, true, missing, "")
    ensures r.Val? && MemberOf(x, key).None? ==> r.value == Check(c, false, missing, "")
    ensures r.Val? && MemberOf(x, key).Some? ==>
      r.value == Check(Check(c, true, missing, ""), Lower(name) == Lower(MemberOf(x, key).value.s), mismatch, "")
  {
    var has :- Try(c, HasOwn(x, key));
    var c1 := Check(c, has, missing, "");
    if !has then Val(c1)
    else
      var value :- Try(c1, ToLowerCase(Prop(x, key)));
      Val(Check(c1, Lower(name) == value, mismatch, ""))
  }

  // ---------------------------------------------------------------------
  // validateGTLDRegistrarEntity

  /**
   * `validateGTLDRegistrarEntity`: a handle; exactly one IANA registrar
   * identifier among the public IDs, numeric and equal to the handle; an
   * abuse contact with a phone number and an e-mail address; links.
   *
   * Without `publicIds` the check returns leaving `.publicIds` on the path;
   * without exactly one IANA identifier it returns leaving `.publicIds`,
   * the identifier filter and `.type`.
   */
  function RegistrarEntity(c: Ctx, rar: Json): (r: Run<Ctx>)
    ensures Grows(c, r) && Extends(c, r)
    ensures r.Thrown? ==> Nullish(rar) || MemberOf(rar, "publicIds").Some?
    ensures !Nullish(rar) ==> c.log + [
      Result(JNull, ValidatingRegistrar, Join(c.path), None),
      Result(JBool(MemberOf(rar, "handle").Some?), RegistrarHandleMissing, Join(c.path + [MemberSegment("handle")]), None),
      Result(JBool(MemberOf(rar, "publicIds").Some?), RegistrarPublicIdsMissing, Join(c.path + [MemberSegment("publicIds")]), None)] <= Last(r).log
    ensures r.Val? ==> r.value.path in RegistrarLeaks(c.path)
    ensures r.Val? && rar.JObj? && MemberOf(rar, "publicIds").None? ==> r.value.path == c.path + [MemberSegment("publicIds")]
  {
    var c1 :- PresenceCheck(Msg(c, ValidatingRegistrar), rar, "handle", RegistrarHandleMissing);
    var c2 := Push(c1, MemberSegment("publicIds"));
    var has := Has(rar, "publicIds");
    var c3 := Check(c2, has, RegistrarPublicIdsMissing, "");
    assert c1.path == c.path;
    assert c3.path == c.path + [MemberSegment("publicIds")];
    assert c3.log == c.log + [
      Result(JNull, ValidatingRegistrar, Join(c.path), None),
      Result(JBool(MemberOf(rar, "handle").Some?), RegistrarHandleMissing, Join(c.path + [MemberSegment("handle")]), None),
      Result(JBool(MemberOf(rar, "publicIds").Some?), RegistrarPublicIdsMissing, Join(c.path + [MemberSegment("publicIds")]), None)];
    if !has then Val(c3)
    else
      assert c3.path[..|c3.path| - 1] == c.path;
      assert c3.path + [IanaIdSegment, MemberSegment("type")] == c.path + [MemberSegment("publicIds"), IanaIdSegment, MemberSegment("type")];
      var r := RegistrarPublicIds(c3, rar);
      assert c3.log <= Last(r).log;
      assert r.Val? ==> r.value.path in RegistrarLeaks(c.path);
      r
  }

  /**
   * The part of `validateGTLDRegistrarEntity` after `publicIds` is found,
   * started with `.publicIds` on the path: it returns with the path it was
   * called with, or leaves the identifier filter and `.type` on it.
   */
  function RegistrarPublicIds(c: Ctx, rar: Json): (r: Run<Ctx>)
    requires |c.path| >= 1
    ensures Grows(c, r)
    ensures r.Val? ==> r.value.path == c.path[..|c.path| - 1] || r.value.path == c.path + [IanaIdSegment, MemberSegment("type")]
    ensures r.Val? ==> c.path[..|c.path| - 1] <= r.value.path
    ensures IanaIds(Prop(rar, "publicIds")).Throw? ==> r == Thrown(Push(Push(c, IanaIdSegment), MemberSegment("type")))
    ensures IanaIds(Prop(rar, "publicIds")).Ok? ==>
      var ids := IanaIds(Prop(rar, "publicIds")).value;
      |Last(r).log| > |c.log| &&
      Last(r).log[|c.log|] == Result(JBool(|ids| == 1), IanaIdNotUnique, Join(c.path + [IanaIdSegment, MemberSegment("type")]), None) &&
      (|ids| != 1 ==> r.Val? && |r.value.log| == |c.log| + 1)
  {
    var c4 := Push(Push(c, IanaIdSegment), MemberSegment("type"));
    assert c4.path == c.path + [IanaIdSegment, MemberSegment("type")] && c4.log == c.log;
    var ids :- Try(c4, IanaIds(Prop(rar, "publicIds")));
    var c5 := Check(c4, |ids| == 1, IanaIdNotUnique, "");
    assert c5.log[|c.log|] == Result(JBool(|ids| == 1), IanaIdNotUnique, Join(c.path + [IanaIdSegment, MemberSegment("type")]), None);
    if |ids| != 1 then Val(c5)
    else
      assert c5.path[..|c5.path| - 2] == c.path;
      RegistrarIanaId(c5, rar, ids[0])
  }

  /**
   * The rest of the registrar check once exactly one IANA identifier is
   * found, started under the identifier filter's `.type`: the identifier
   * check under `.identifier`, the pops and the message, the abuse
   * contact and the links. The first thing it reports is whether the
   * identifier is a numeric string; a `null` identifier throws instead.
   */
  function RegistrarIanaId(c: Ctx, rar: Json, id: Json): (r: Run<Ctx>)
    requires |c.path| >= 3
    ensures Grows(c, r)
    ensures r.Val? ==> r.value.path == c.path[..|c.path| - 3]
    ensures Nullish(id) || MemberOf(id, "identifier") == Some(JNull) ==> r.Thrown?
    ensures !Nullish(id) && MemberOf(id, "identifier") != Some(JNull) ==>
      var ident := Prop(id, "identifier");
      |Last(r).log| > |c.log| &&
      Last(r).log[|c.log|] == Result(JBool(ident.JStr? && c.env.parseInt(ident.s).Some?), IanaIdNotInteger,
        Join(c.path[..|c.path| - 1] + [MemberSegment("identifier")]), None)
  {
    var c6 :- IanaIdentifier(Push(Pop(c), MemberSegment("identifier")), id, Prop(rar, "handle"));
    assert c6.path[..|c6.path| - 3] == c.path[..|c.path| - 3];
    var c7 := IanaIdentifierChecked(c6);
    var c8 :- AbuseContact(c7, rar);
    LinksPresent(c8, rar)
  }

  /** The paths a registrar check can return with: its own, or one of the two it leaks. */
  function RegistrarLeaks(p: seq<string>): set<seq<string>>
  {
    {p, p + [MemberSegment("publicIds")], p + [MemberSegment("publicIds"), IanaIdSegment, MemberSegment("type")]}
  }

  /** The pops after the identifier check, and the message between them. */
  function IanaIdentifierChecked(c: Ctx): (d: Ctx)
    requires |c.path| >= 3
    ensures d.path == c.path[..|c.path| - 3]
    ensures d.log == c.log + [Result(JNull, IanaIdNotChecked, Join(c.path[..|c.path| - 2]), None)]
  {
    assert c.path[..|c.path| - 1][..|c.path| - 2] == c.path[..|c.path| - 2];
    assert c.path[..|c.path| - 2][..|c.path| - 3] == c.path[..|c.path| - 3];
    Pop(Msg(Pop(Pop(c)), IanaIdNotChecked))
  }

  /**
   * The identifier must be a string `parseInt` reads a number from, and
   * that number must be the one `parseInt` reads from the handle. The
   * string test is `checkType`, which throws on a `null` identifier.
   */
  function IanaIdentifier(c: Ctx, id: Json, handle: Json): (r: Run<Ctx>)
    ensures r.Thrown? <==> Nullish(id) || MemberOf(id, "identifier") == Some(JNull)
    ensures r.Thrown? ==> r.at == c
    ensures r.Val? ==> r.value.path == c.path && r.value.spec == c.spec && c.log <= r.value.log
    ensures r.Val? ==>
      var ident := Prop(id, "identifier");
      var numeric := ident.JStr? && c.env.parseInt(ident.s).Some?;
      |r.value.log| == |c.log| + (if numeric then 2 else 1) &&
      r.value.log[|c.log|] == Result(JBool(numeric), IanaIdNotInteger, Join(c.path), None) &&
      forall k :: |c.log| <= k < |r.value.log| ==> r.value.log[k].path == Join(c.path) && r.value.log[k].reference == None
    ensures r.Val? ==>
      ((forall k :: |c.log| <= k < |r.value.log| ==> r.value.log[k].verdict == JBool(true)) <==>
       var ident := Prop(id, "identifier");
       ident.JStr? && c.env.parseInt(ident.s).Some? && c.env.parseInt(ident.s) == c.env.parseInt(Show(handle)))
  {
    var ident :- Try(c, Get(id, "identifier"));
    var isString :- Try(c, IsString(ident));
    var numeric := isString && c.env.parseInt(ident.s).Some?;
    var c1 := Check(c, numeric, IanaIdNotInteger, "");
    assert c1.log[|c.log|].verdict == JBool(numeric);
    if !numeric then Val(c1)
    else
      var same := c.env.parseInt(ident.s) == c.env.parseInt(Show(handle));
      var c2 := Check(c1, same, HandleNotIanaId, "");
      assert c2.log[|c.log|].verdict == JBool(true) && c2.log[|c.log| + 1].verdict == JBool(same);
      Val(c2)
  }

  /**
   * When `entities` is an array, the index loop looks for the first entity
   * with the abuse role; there must be one, and its vCard, when it has
   * one, must have TEL and EMAIL properties.
   */
  function AbuseContact(c: Ctx, rar: Json): (r: Run<Ctx>)
    ensures Grows(c, r) && Restores(c, r)
  {
    var c1 := Push(c, MemberSegment("entities"));
    if !Has(rar, "entities") then Val(Pop(c1))
    else
      var entities := Prop(rar, "entities");
      var isArray :- Try(c1, IsArray(entities));
      if !isArray then Val(Pop(c1))
      else
        var i :- Try(c1, FirstRoleIndex(entities.elems, "abuse", 0));
        var found := i < |entities.elems|;
        var c2 := Check(c1, found, AbuseEntityMissing, "");
        if !found then Val(Pop(c2))
        else
          var c3 :- AbuseCard(Push(c2, IndexSegment(i)), entities.elems[i]);
          Val(Pop(Pop(c3)))
  }

  /** The abuse contact's vCard properties, when `vcardArray` and its item 1 are arrays, must include TEL and EMAIL. */
  function AbuseCard(c: Ctx, abuse: Json): (r: Run<Ctx>)
    ensures Grows(c, r) && Restores(c, r)
  {
    var has :- Try(c, HasOwn(abuse, "vcardArray"));
    if !has then Val(c)
    else
      var card := Prop(abuse, "vcardArray");
      var isArray :- Try(c, IsArray(card));
      if !isArray then Val(c)
      else
        var items := Item(card, 1);
        var itemsArray :- Try(c, IsArray(items));
        if !itemsArray then Val(c)
        else
          var c1 := Push(c, ".vcardArray[1]");
          var seen :- Try(c1, NamesSeen(items.elems));
          var c2 := Check(c1, "TEL" in seen, AbusePropertyMissing("TEL"), "");
          Val(Pop(Check(c2, "EMAIL" in seen, AbusePropertyMissing("EMAIL"), "")))
  }

  /** The registrar must have `links`; an array of them only gets a placeholder message. */
  function LinksPresent(c: Ctx, rar: Json): (r: Run<Ctx>)
    ensures Grows(c, r) && Restores(c, r)
  {
    var c1 := Push(c, MemberSegment("links"));
    var has := Has(rar, "links");
    var c2 := Check(c1, has, RegistrarLinksMissing, "");
    if !has then Val(Pop(c2))
    else
      var isArray :- Try(c2, IsArray(Prop(rar, "links")));
      Val(Pop(if isArray then Msg(c2, TodoRegistrarLinks) else c2))
  }

  // ---------------------------------------------------------------------
  // nameserver, entity and help responses

  /**
   * `validateGTLDNameserver`: the common gTLD checks and, for an object,
   * the name checks; a nameserver with an array of entities makes the
   * check read `domain`, which is not defined there, and throw.
   */
  function Nameserver(c: Ctx, ns: Json, name: string): (r: Run<Ctx>)
    ensures Grows(c, r) && Restores(c, r)
    ensures ns.JObj? && MemberOf(ns, "entities").Some? && MemberOf(ns, "entities").value.JArr? ==> r.Thrown?
  {
    var c1 :- ResponseProperties(c, ns);
    var isObject :- Try(c1, IsObject(ns));
    if !isObject then Val(c1)
    else
      var c2 :- NameProperties(c1, ns, name);
      if !Has(ns, "entities") then Val(c2)
      else
        var isArray :- Try(c2, IsArray(Prop(ns, "entities")));
        if isArray then Thrown(Push(c2, MemberSegment("entities"))) else Val(c2)
  }

  /**
   * `validateGTLDEntity`: the entity must have the registrar role, and its
   * vCard must have FN, ADR, TEL and EMAIL properties, with street and
   * city in each address.
   */
  function Entity(c: Ctx, rar: Json): (r: Run<Ctx>)
    ensures Grows(c, r) && Extends(c, r)
  {
    var c1 :- RegistrarRole(Msg(c, ValidatingGTLDEntity), rar);
    RegistrarCard(c1, rar)
  }

  /** When `roles` is an array, it must include `registrar`. */
  function RegistrarRole(c: Ctx, rar: Json): (r: Run<Ctx>)
    ensures Grows(c, r) && Restores(c, r)
    ensures r.Val? && |r.value.log| > |c.log| ==> (MemberOf(rar, "roles").Some? && MemberOf(rar, "roles").value.JArr? &&
      r.value.log == c.log + [Result(JBool(JStr("registrar") in MemberOf(rar, "roles").value.elems), RegistrarRoleMissing, Join(c.path + [MemberSegment("roles")]), None)])
    ensures r.Thrown? <==> Nullish(rar) || MemberOf(rar, "roles") == Some(JNull)
    ensures r.Val? ==> (|r.value.log| > |c.log| <==> MemberOf(rar, "roles").Some? && MemberOf(rar, "roles").value.JArr?)
    ensures r.Val? && |r.value.log| == |c.log| ==> r.value == c
  {
    var has :- Try(c, HasOwn(rar, "roles"));
    if !has then Val(c)
    else
      var roles := Prop(rar, "roles");
      var isArray :- Try(c, IsArray(roles));
      if !isArray then Val(c)
      else Val(Pop(Check(Push(c, MemberSegment("roles")), JStr("registrar") in roles.elems, RegistrarRoleMissing, "")))
  }

  /** The registrar's vCard, when `vcardArray` and its item 1 are arrays: the property scan, then the four required properties. */
  function RegistrarCard(c: Ctx, rar: Json): (r: Run<Ctx>)
    ensures Grows(c, r) && Extends(c, r)
  {
    var has :- Try(c, HasOwn(rar, "vcardArray"));
    if !has then Val(c)
    else
      var card := Prop(rar, "vcardArray");
      var isArray :- Try(c, IsArray(card));
      if !isArray then Val(c)
      else
        var items := Item(card, 1);
        var itemsArray :- Try(c, IsArray(items));
        if !itemsArray then Val(c)
        else
          var scan :- TypesSeen(Push(c, ".vcardArray[1]"), items.elems, 0, {});
          Val(Pop(RequiredTypes(scan.0, scan.1)))
  }

  /** One result per required property type, in the order FN, ADR, TEL, EMAIL. */
  function RequiredTypes(c: Ctx, seen: set<string>): (d: Ctx)
    ensures d.path == c.path && d.spec == c.spec
    ensures d.log == c.log + [
      Result(JBool("FN" in seen), RegistrarJCardPropertyMissing("FN"), Join(c.path), None),
      Result(JBool("ADR" in seen), RegistrarJCardPropertyMissing("ADR"), Join(c.path), None),
      Result(JBool("TEL" in seen), RegistrarJCardPropertyMissing("TEL"), Join(c.path), None),
      Result(JBool("EMAIL" in seen), RegistrarJCardPropertyMissing("EMAIL"), Join(c.path), None)]
  {
    var c1 := Check(c, "FN" in seen, RegistrarJCardPropertyMissing("FN"), "");
    var c2 := Check(c1, "ADR" in seen, RegistrarJCardPropertyMissing("ADR"), "");
    var c3 := Check(c2, "TEL" in seen, RegistrarJCardPropertyMissing("TEL"), "");
    Check(c3, "EMAIL" in seen, RegistrarJCardPropertyMissing("EMAIL"), "")
  }

  /**
   * `iterate` over the vCard properties with the closure that fills
   * `seen_types`: the property names seen so far, and the path, which
   * grows by one index for each address the closure leaves a segment for.
   */
  function TypesSeen(c: Ctx, props: seq<Json>, i: nat, seen: set<string>): (r: Run<(Ctx, set<string>)>)
    requires i <= |props|
    ensures c.log <= LastOf(r).log
    ensures r.Val? ==> c.path <= r.value.0.path && seen <= r.value.1
    decreases |props| - i
  {
    if i == |props| then Val((c, seen))
    else
      var step :- TypeEntry(Push(c, IndexSegment(i)), props[i]);
      TypesSeen(Pop(step.0), props, i + 1, if step.1.Some? then seen + {step.1.value} else seen)
  }

  /** A property the closure reads as an address: it names the type ADR. */
  predicate AddressProperty(p: Json)
  {
    p.JArr? && Item(p, 1).JStr? && FirstItemUpper(p) == Ok("ADR")
  }

  /** The `[i]` segments the walk from `i` on leaves behind: one per address property. */
  function AddressIndices(props: seq<Json>, i: nat): (segs: seq<string>)
    requires i <= |props|
    ensures |segs| <= |props| - i
    decreases |props| - i
  {
    if i == |props| then []
    else (if AddressProperty(props[i]) then [IndexSegment(i)] else []) + AddressIndices(props, i + 1)
  }

  /**
   * When the walk returns, the path has grown by exactly the index of
   * every address property: `iterate`'s pop removes the `[1]` the closure
   * left, not the index it pushed.
   */
  lemma {:induction false} TypesSeenPath(c: Ctx, props: seq<Json>, i: nat, seen: set<string>)
    requires i <= |props|
    ensures TypesSeen(c, props, i, seen).Val? ==> TypesSeen(c, props, i, seen).value.0.path == c.path + AddressIndices(props, i)
    decreases |props| - i
  {
    if i < |props| {
      var step := TypeEntry(Push(c, IndexSegment(i)), props[i]);
      if step.Val? {
        TypeEntryPath(c, props[i], i);
        TypesSeenPath(Pop(step.value.0), props, i + 1, if step.value.1.Some? then seen + {step.value.1.value} else seen);
        var own := if AddressProperty(props[i]) then [IndexSegment(i)] else [];
        assert c.path + own + AddressIndices(props, i + 1) == c.path + AddressIndices(props, i);
      }
    }
  }

  /** One property, with its index pushed and popped around it, leaves that index exactly when it is an address. */
  lemma TypeEntryPath(c: Ctx, p: Json, i: nat)
    ensures var step := TypeEntry(Push(c, IndexSegment(i)), p);
      step.Val? ==> Pop(step.value.0).path == c.path + (if AddressProperty(p) then [IndexSegment(i)] else [])
  {
  }

  /**
   * The registrar's vCard check leaves `.vcardArray[1]` and the index of
   * every address property but the last on the path, since its final pop
   * removes only the last index left; with no address property the path
   * is restored.
   */
  lemma RegistrarCardPath(c: Ctx, rar: Json)
    requires MemberOf(rar, "vcardArray").Some? && MemberOf(rar, "vcardArray").value.JArr?
    requires Item(MemberOf(rar, "vcardArray").value, 1).JArr?
    ensures var leaked := c.path + [".vcardArray[1]"] + AddressIndices(Item(MemberOf(rar, "vcardArray").value, 1).elems, 0);
      RegistrarCard(c, rar).Val? ==> RegistrarCard(c, rar).value.path == leaked[..|leaked| - 1]
    ensures AddressIndices(Item(MemberOf(rar, "vcardArray").value, 1).elems, 0) == [] && RegistrarCard(c, rar).Val? ==>
      RegistrarCard(c, rar).value.path == c.path
  {
    var items := Item(MemberOf(rar, "vcardArray").value, 1);
    TypesSeenPath(Push(c, ".vcardArray[1]"), items.elems, 0, {});
    var leaked := c.path + [".vcardArray[1]"] + AddressIndices(items.elems, 0);
    if AddressIndices(items.elems, 0) == [] {
      assert leaked[..|leaked| - 1] == c.path;
    }
  }

  /**
   * The closure on one property: an array whose item 1 is a string names
   * a type. For an address, the closure pushes `[1]` and pops it only in a
   * branch that needs item 1 to be an object, so the segment stays; then,
   * when item 3 is an array, it needs a street and a city.
   */
  function TypeEntry(c: Ctx, p: Json): (r: Run<(Ctx, Option<string>)>)
    ensures c.log <= LastOf(r).log
    ensures r.Val? ==> r.value.0.path == c.path || r.value.0.path == c.path + [IndexSegment(1)]
    ensures r.Val? && r.value.1 == Some("ADR") ==> r.value.0.path == c.path + [IndexSegment(1)]
    ensures r.Val? && r.value.1 != Some("ADR") ==> r.value.0.path == c.path
    ensures r.Val? && r.value.1.Some? ==> p.JArr? && FirstItemUpper(p) == Ok(r.value.1.value)
    ensures r.Val? ==> (r.value.1.Some? <==> p.JArr? && Item(p, 1).JStr?)
    ensures p.JArr? && Item(p, 1).JStr? && FirstItemUpper(p).Throw? ==> r.Thrown?
    ensures r.Thrown? ==> p.JNull? || (p.JArr? && (Item(p, 1).JNull? || (Item(p, 1).JStr? && (FirstItemUpper(p).Throw? || FirstItemUpper(p) == Ok("ADR")))))
    ensures !p.JNull? && !(p.JArr? && Item(p, 1).JStr?) && !(p.JArr? && Item(p, 1).JNull?) ==> r == Val((c, None))
  {
    var isArray :- Try(c, IsArray(p));
    if !isArray then Val((c, None))
    else
      var named :- Try(c, IsString(Item(p, 1)));
      if !named then Val((c, None))
      else
        var name :- Try(c, FirstItemUpper(p));
        if name != "ADR" then Val((c, Some(name)))
        else
          var c1 :- AddressParts(Push(c, IndexSegment(1)), Item(p, 3));
          Val((c1, Some(name)))
  }

  /**
   * A property as every jCard writes it, with its parameters as item 1,
   * names no type as written; the intended test, on item 0, names it.
   */
  lemma StandardPropertyUnnamed(c: Ctx)
    ensures var p := JArr([JStr("fn"), JObj([]), JStr("text"), JStr("Jane Doe")]);
      TypeEntry(c, p) == Val((c, None)) && TypeNameIntended(p) == Ok(Some("FN"))
  {
    var p := JArr([JStr("fn"), JObj([]), JStr("text"), JStr("Jane Doe")]);
    assert Item(p, 1) == JObj([]);
    assert Upper("fn") == "FN";
  }

  /**
   * The test `isArray(p) && isString(p[0])` the closure evidently means:
   * a property names the upper-cased text of its item 0.
   */
  function TypeNameIntended(p: Json): (r: Js<Option<string>>)
    ensures r.Throw? <==> p.JNull? || (p.JArr? && |p.elems| > 0 && p.elems[0].JNull?)
    ensures r.Ok? && r.value.Some? ==> p.JArr? && FirstItemUpper(p) == Ok(r.value.value)
    ensures p.JArr? && |p.elems| > 0 && p.elems[0].JStr? ==> r == Ok(Some(Upper(p.elems[0].s)))
  {
    var isArray :- IsArray(p);
    if !isArray then Ok(None)
    else
      var named :- IsString(Item(p, 0));
      if !named then Ok(None)
      else
        var name :- FirstItemUpper(p);
        Ok(Some(name))
  }

  /** An address value that is an array must have a street (item 2) and a city (item 3), reported under `[3]`. */
  function AddressParts(c: Ctx, value: Json): (r: Run<Ctx>)
    ensures Grows(c, r) && Restores(c, r)
  {
    var isArray :- Try(c, IsArray(value));
    if !isArray then Val(c)
    else
      var c1 := Push(c, IndexSegment(3));
      var street :- Try(c1, StreetPresent(Item(value, 2)));
      var c2 := Check(c1, street, StreetMissing, "");
      var city :- Try(c2, CityPresent(Item(value, 3)));
      Val(Pop(Check(c2, city, CityMissing, "")))
  }

  /** `validateGTLDHelp`: a message, then the common gTLD checks. */
  function Help(c: Ctx, help: Json): (r: Run<Ctx>)
    ensures Grows(c, r) && Restores(c, r)
    ensures |Last(r).log| > |c.log| && Last(r).log[|c.log|] == Result(JNull, ValidatingGTLDHelp, Join(c.path), None)
    ensures c.env.protocolOf(c.url).Some? ==>
      |Last(r).log| >= |c.log| + 3 &&
      Last(r).log[|c.log| + 1] == Result(JBool(c.env.protocolOf(c.url) == Some("https:")), SchemeNotHttps, Join(c.path), None) &&
      Last(r).log[|c.log| + 2] == Result(JBool(HeaderValue(c.headers, "access-control-allow-origin").Some?), CorsHeaderMissing, Join(c.path), None)
  {
    ResponseProperties(Msg(c, ValidatingGTLDHelp), help)
  }
}
