/**
 * Properties of whole checks, stated over the results they report: what
 * `iterate` reports for a closure that checks each element, the role,
 * secureDNS and conformance results, the gTLD event results, and the order
 * in which a run reports the response checks, the completion callback and
 * the body checks.
 */
module Properties {
  import opened Wrappers
  import opened Json
  import opened JsRuntime
  import opened Predicates
  import opened Tables
  import opened Paths
  import opened Results
  import opened Messages
  import opened Queries
  import opened Context
  import opened Members
  import opened Semantics
  import Dispatch
  import Gtld
  import Responses

  // ---------------------------------------------------------------------
  // iterate with a closure that reports one result per element

  /** The result the closure reports for element `j`, under `[j]`. */
  function AssertionResult(path: seq<string>, spec: string, a: Assertion, elems: seq<Json>, j: nat): Result
    requires j < |elems|
  {
    Result(JBool(AssertionPasses(a, elems[j])), AssertionMessage(a, elems[j]), Join(path + [IndexSegment(j)]), Ref(spec, AssertionFragment(a)))
  }

  /** The results for the elements from index `from` on, in index order. */
  function AssertionResults(path: seq<string>, spec: string, a: Assertion, elems: seq<Json>, from: nat): (rs: seq<Result>)
    requires from <= |elems|
    ensures |rs| == |elems| - from
  {
    seq(|elems| - from, k requires 0 <= k < |elems| - from => AssertionResult(path, spec, a, elems, from + k))
  }

  /**
   * `iterate` calls the closure once per element, in ascending index order,
   * with `[i]` on top of the path, and leaves the path as it found it.
   */
  lemma {:induction false} IterateAssertions(c: Ctx, elems: seq<Json>, a: Assertion, from: nat)
    requires from <= |elems|
    ensures IterFrom(c, elems, Assert(a), from) == Val(c.(log := c.log + AssertionResults(c.path, c.spec, a, elems, from)))
    decreases |elems| - from
  {
    if from == |elems| {
      assert c.log + AssertionResults(c.path, c.spec, a, elems, from) == c.log;
    } else {
      var head := AssertionResult(c.path, c.spec, a, elems, from);
      var c1 := c.(log := c.log + [head]);
      AssertStep(c, elems, a, from);
      IterateAssertions(c1, elems, a, from + 1);
      AssertionResultsUnfold(c.log, c.path, c.spec, a, elems, from);
      assert c1.path == c.path && c1.spec == c.spec;
    }
  }

  /** The results from `from` on are the one for `from` followed by the rest. */
  lemma AssertionResultsUnfold(log: seq<Result>, path: seq<string>, spec: string, a: Assertion, elems: seq<Json>, from: nat)
    requires from < |elems|
    ensures log + [AssertionResult(path, spec, a, elems, from)] + AssertionResults(path, spec, a, elems, from + 1) ==
      log + AssertionResults(path, spec, a, elems, from)
  {
    var rest := AssertionResults(path, spec, a, elems, from + 1);
    var all := AssertionResults(path, spec, a, elems, from);
    assert all == [AssertionResult(path, spec, a, elems, from)] + rest by {
      assert forall k :: 0 <= k < |rest| ==> all[k + 1] == rest[k];
    }
  }

  /** One turn of the loop: the element's result is reported, and the path is back where it was. */
  lemma AssertStep(c: Ctx, elems: seq<Json>, a: Assertion, i: nat)
    requires i < |elems|
    ensures IterFrom(c, elems, Assert(a), i) == IterFrom(c.(log := c.log + [AssertionResult(c.path, c.spec, a, elems, i)]), elems, Assert(a), i + 1)
  {
    var pushed := Push(c, IndexSegment(i));
    var x := elems[i];
    IterFromStep(c, elems, Assert(a), i);
    assert Invoke(pushed, Assert(a), x) == Val(Check(pushed, AssertionPasses(a, x), AssertionMessage(a, x), AssertionFragment(a)));
    assert pushed.path[..|pushed.path| - 1] == c.path;
  }

  // ---------------------------------------------------------------------
  // entity roles

  /**
   * An entity with an array of roles reports that the roles are there and
   * are an array, and then one result per role, in order, each at its own
   * index under `.roles`.
   */
  lemma EntityRolesReported(c: Ctx, e: Json)
    requires MemberOf(e, "roles").Some? && MemberOf(e, "roles").value.JArr?
    ensures var roles := MemberOf(e, "roles").value.elems;
      var at := Join(c.path + [MemberSegment("roles")]);
      EntityRoles(c, e) == Val(c.(log := c.log + [Result(JBool(true), RolesMissing, at, None), Result(JBool(true), RolesNotArray, at, None)] +
        AssertionResults(c.path + [MemberSegment("roles")], c.spec, RoleValue, roles, 0)))
  {
    var roles := MemberOf(e, "roles").value;
    var at := c.path + [MemberSegment("roles")];
    var head := [Result(JBool(true), RolesMissing, Join(at), None), Result(JBool(true), RolesNotArray, Join(at), None)];
    var c1 := Push(c, MemberSegment("roles"));
    assert HasOwn(e, "roles") == Ok(true);
    assert Prop(e, "roles") == roles;
    var c3 := Check(Check(c1, true, RolesMissing, ""), true, RolesNotArray, "");
    assert c3 == c1.(log := c.log + head);
    var rs := AssertionsIterated(c3, roles.elems, RoleValue);
    var c4 := c3.(log := c3.log + rs);
    assert EntityRoles(c, e) == Val(Pop(c4));
    assert c1.path[..|c1.path| - 1] == c.path;
  }

  /** Iterating the role check over an array reports one result per role, as `IterateAssertions` gives. */
  lemma AssertionsIterated(c: Ctx, elems: seq<Json>, a: Assertion) returns (rs: seq<Result>)
    ensures rs == AssertionResults(c.path, c.spec, a, elems, 0)
    ensures Iterate(c, JArr(elems), Assert(a)) == Val(c.(log := c.log + rs))
  {
    rs := AssertionResults(c.path, c.spec, a, elems, 0);
    IterateAssertions(c, elems, a, 0);
  }

  /**
   * A role that is not one of the registered role strings gets a failing
   * result at the path ending in `.roles[i]`, where `i` is its index.
   */
  lemma UnregisteredRoleFails(c: Ctx, e: Json, i: nat)
    requires MemberOf(e, "roles").Some? && MemberOf(e, "roles").value.JArr?
    requires i < |MemberOf(e, "roles").value.elems|
    requires forall k :: 0 <= k < |Roles| ==> MemberOf(e, "roles").value.elems[i] != JStr(Roles[k])
    ensures EntityRoles(c, e).Val?
    ensures var log := EntityRoles(c, e).value.log;
      |log| > |c.log| + 2 + i &&
      log[|c.log| + 2 + i].verdict == JBool(false) &&
      log[|c.log| + 2 + i].path == Join(c.path) + MemberSegment("roles") + IndexSegment(i)
  {
    var roles := MemberOf(e, "roles").value.elems;
    var at := c.path + [MemberSegment("roles")];
    RoleResultAt(c, e, i);
    RoleAssertionMeaning(roles[i]);
    RolePath(c.path, i);
  }

  /** Result `2 + i` of the roles check is the one the closure reports for role `i`. */
  lemma RoleResultAt(c: Ctx, e: Json, i: nat)
    requires MemberOf(e, "roles").Some? && MemberOf(e, "roles").value.JArr?
    requires i < |MemberOf(e, "roles").value.elems|
    ensures EntityRoles(c, e).Val?
    ensures var log := EntityRoles(c, e).value.log;
      |log| > |c.log| + 2 + i &&
      log[|c.log| + 2 + i] == AssertionResult(c.path + [MemberSegment("roles")], c.spec, RoleValue, MemberOf(e, "roles").value.elems, i)
  {
    var roles := MemberOf(e, "roles").value.elems;
    var at := c.path + [MemberSegment("roles")];
    EntityRolesReported(c, e);
    var rs := AssertionResults(at, c.spec, RoleValue, roles, 0);
    var head := [Result(JBool(true), RolesMissing, Join(at), None), Result(JBool(true), RolesNotArray, Join(at), None)];
    var tail := head + rs;
    assert c.log + head + rs == c.log + tail;
    assert tail[2 + i] == rs[i];
    assert (c.log + tail)[|c.log| + 2 + i] == tail[2 + i];
  }

  /** The path of role `i` reads as the entity's path, then `.roles`, then `[i]`. */
  lemma RolePath(path: seq<string>, i: nat)
    ensures Join(path + [MemberSegment("roles")] + [IndexSegment(i)]) == Join(path) + MemberSegment("roles") + IndexSegment(i)
  {
    JoinAppend(path, [MemberSegment("roles"), IndexSegment(i)]);
    assert Join([MemberSegment("roles"), IndexSegment(i)]) == MemberSegment("roles") + IndexSegment(i) by {
      assert [MemberSegment("roles"), IndexSegment(i)][..1] == [MemberSegment("roles")];
      assert [MemberSegment("roles")][..0] == [];
    }
    assert path + [MemberSegment("roles")] + [IndexSegment(i)] == path + [MemberSegment("roles"), IndexSegment(i)];
  }

  // ---------------------------------------------------------------------
  // member checks

  /**
   * What one member check reports: whether a required member is there,
   * and, when the member is there, whether its value has the rule's kind;
   * both under the member's segment.
   */
  function RuleResults(path: seq<string>, spec: string, x: Json, rule: MemberRule): seq<Result>
  {
    var at := Join(path + [MemberSegment(rule.key)]);
    var cite := Ref(spec, rule.fragment);
    var present := MemberOf(x, rule.key).Some?;
    (if rule.presence.Some? then [Result(JBool(present), rule.presence.value, at, cite)] else []) +
    (if present then [Result(JBool(TypeTest(rule.kind, MemberOf(x, rule.key).value) == Ok(true)), rule.typeMessage, at, cite)] else [])
  }

  /** What a list of member checks reports, rule by rule. */
  function RulesResults(path: seq<string>, spec: string, x: Json, rules: seq<MemberRule>): seq<Result>
    decreases |rules|
  {
    if rules == [] then [] else RuleResults(path, spec, x, rules[0]) + RulesResults(path, spec, x, rules[1..])
  }

  /** No member a rule names is `null`, the one value whose kind test throws. */
  predicate NoNullMember(x: Json, rules: seq<MemberRule>)
  {
    forall i :: 0 <= i < |rules| ==> MemberOf(x, rules[i].key) != Some(JNull)
  }

  /** One member check on an object whose member, if there, is not `null`. */
  lemma MemberCheckReport(c: Ctx, x: Json, rule: MemberRule)
    requires x.JObj? && MemberOf(x, rule.key) != Some(JNull)
    ensures MemberCheck(c, x, rule) == Val(c.(log := c.log + RuleResults(c.path, c.spec, x, rule)))
  {
    var c1 := Push(c, MemberSegment(rule.key));
    var present := MemberOf(x, rule.key).Some?;
    var c2 := if rule.presence.Some? then Check(c1, present, rule.presence.value, rule.fragment) else c1;
    var c3 := if present then Check(c2, TypeTest(rule.kind, MemberOf(x, rule.key).value) == Ok(true), rule.typeMessage, rule.fragment) else c2;
    assert HasOwn(x, rule.key) == Ok(present);
    assert present ==> Prop(x, rule.key) == MemberOf(x, rule.key).value;
    assert MemberCheck(c, x, rule) == Val(Pop(c3));
    var at := Join(c.path + [MemberSegment(rule.key)]);
    var cite := Ref(c.spec, rule.fragment);
    var a := if rule.presence.Some? then [Result(JBool(present), rule.presence.value, at, cite)] else [];
    var b := if present then [Result(JBool(TypeTest(rule.kind, MemberOf(x, rule.key).value) == Ok(true)), rule.typeMessage, at, cite)] else [];
    assert c2.log == c.log + a && c2.path == c1.path && c2.spec == c.spec;
    assert c3.log == c.log + a + b && c3.path == c1.path && c3.spec == c.spec;
    assert RuleResults(c.path, c.spec, x, rule) == a + b;
    assert c1.path[..|c1.path| - 1] == c.path;
    assert Pop(c3) == c.(log := c.log + (a + b));
  }

  /** On an object with no `null` member among those checked, the member checks report exactly their results, rule by rule. */
  lemma {:induction false} MemberChecksReport(c: Ctx, x: Json, rules: seq<MemberRule>)
    requires x.JObj? && NoNullMember(x, rules)
    ensures MemberChecks(c, x, rules) == Val(c.(log := c.log + RulesResults(c.path, c.spec, x, rules)))
    decreases |rules|
  {
    if rules != [] {
      MemberCheckReport(c, x, rules[0]);
      var d := c.(log := c.log + RuleResults(c.path, c.spec, x, rules[0]));
      assert NoNullMember(x, rules[1..]) by {
        forall i | 0 <= i < |rules[1..]| ensures MemberOf(x, rules[1..][i].key) != Some(JNull) {
          assert rules[1..][i] == rules[i + 1];
        }
      }
      assert MemberChecks(c, x, rules) == MemberChecks(d, x, rules[1..]);
      MemberChecksReport(d, x, rules[1..]);
      assert d.path == c.path && d.spec == c.spec;
      assert d.log + RulesResults(c.path, c.spec, x, rules[1..]) == c.log + RulesResults(c.path, c.spec, x, rules);
    } else {
      assert c.log + RulesResults(c.path, c.spec, x, rules) == c.log;
    }
  }

  /** No result of a list is a failure. */
  predicate NoneFails(rs: seq<Result>)
  {
    forall k :: 0 <= k < |rs| ==> !IsError(rs[k])
  }

  lemma NoneFailsConcat(a: seq<Result>, b: seq<Result>)
    ensures NoneFails(a + b) <==> NoneFails(a) && NoneFails(b)
  {
    if NoneFails(a + b) {
      forall k | 0 <= k < |a| ensures !IsError(a[k]) {
        assert (a + b)[k] == a[k];
      }
      forall k | 0 <= k < |b| ensures !IsError(b[k]) {
        assert (a + b)[|a| + k] == b[k];
      }
    }
    if NoneFails(a) && NoneFails(b) {
      forall k | 0 <= k < |a + b| ensures !IsError((a + b)[k]) {
        if k < |a| {
          assert (a + b)[k] == a[k];
        } else {
          assert (a + b)[k] == b[k - |a|];
        }
      }
    }
  }

  /** One rule reports no failure exactly when the object obeys it. */
  lemma RuleResultsPass(path: seq<string>, spec: string, x: Json, rule: MemberRule)
    ensures NoneFails(RuleResults(path, spec, x, rule)) <==> RuleSatisfied(x, rule)
  {
    var at := Join(path + [MemberSegment(rule.key)]);
    var cite := Ref(spec, rule.fragment);
    var present := MemberOf(x, rule.key).Some?;
    var a := if rule.presence.Some? then [Result(JBool(present), rule.presence.value, at, cite)] else [];
    var b := if present then [Result(JBool(TypeTest(rule.kind, MemberOf(x, rule.key).value) == Ok(true)), rule.typeMessage, at, cite)] else [];
    assert RuleResults(path, spec, x, rule) == a + b;
    assert NoneFails(a) <==> (rule.presence.Some? ==> present) by {
      if rule.presence.Some? { assert a[0].verdict == JBool(present); }
    }
    assert NoneFails(b) <==> (present ==> TypeTest(rule.kind, MemberOf(x, rule.key).value) == Ok(true)) by {
      if present { assert b[0].verdict == JBool(TypeTest(rule.kind, MemberOf(x, rule.key).value) == Ok(true)); }
    }
    NoneFailsConcat(a, b);
  }

  /** The member checks report no failure exactly when the object obeys every rule. */
  lemma {:induction false} RulesResultsPass(path: seq<string>, spec: string, x: Json, rules: seq<MemberRule>)
    ensures NoneFails(RulesResults(path, spec, x, rules)) <==> forall i :: 0 <= i < |rules| ==> RuleSatisfied(x, rules[i])
    decreases |rules|
  {
    if rules != [] {
      RuleResultsPass(path, spec, x, rules[0]);
      RulesResultsPass(path, spec, x, rules[1..]);
      NoneFailsConcat(RuleResults(path, spec, x, rules[0]), RulesResults(path, spec, x, rules[1..]));
      assert forall i :: 1 <= i < |rules| ==> rules[1..][i - 1] == rules[i];
    }
  }

  // ---------------------------------------------------------------------
  // public IDs

  /** What the check of one public ID member `k` reports: present, then a string. */
  function PublicIdMemberResults(path: seq<string>, id: Json, k: string): seq<Result>
  {
    var at := Join(path + [MemberSegment(k)]);
    var cite := Ref("rfc9083", "section-4.8");
    [Result(JBool(MemberOf(id, k).Some?), PublicIdMemberMissing(k), at, cite),
     Result(JBool(MemberOf(id, k).Some? && MemberOf(id, k).value.JStr?), NotString(k), at, cite)]
  }

  /** What the check of a public ID reports, in order. */
  function PublicIdResults(path: seq<string>, id: Json): seq<Result>
  {
    [Result(JNull, ValidatingPublicId, Join(path), None),
     Result(JBool(id.JObj?), PublicIdNotObject, Join(path), Ref("rfc9083", "section-4.8"))] +
    PublicIdMemberResults(path, id, "type") + PublicIdMemberResults(path, id, "identifier")
  }

  /** One member check of a public ID whose member, if there, is not `null`. */
  lemma PublicIdMemberReport(c: Ctx, id: Json, k: string)
    requires !Nullish(id) && MemberOf(id, k) != Some(JNull) && c.spec == "rfc9083"
    ensures PublicIdMember(c, id, k) == Val(c.(log := c.log + PublicIdMemberResults(c.path, id, k)))
  {
    var c1 := Push(c, MemberSegment(k));
    assert HasOwn(id, k) == Ok(Has(id, k));
    var v := Prop(id, k);
    assert MemberOf(id, k).None? ==> v == JUndefined;
    assert IsString(v) == Ok(MemberOf(id, k).Some? && MemberOf(id, k).value.JStr?);
    var c3 := Check(Check(c1, Has(id, k), PublicIdMemberMissing(k), "section-4.8"), v.JStr?, NotString(k), "section-4.8");
    assert PublicIdMember(c, id, k) == Val(Pop(c3));
    assert c3.log == c.log + PublicIdMemberResults(c.path, id, k);
    assert c1.path[..|c1.path| - 1] == c.path;
    assert Pop(c3) == c.(log := c.log + PublicIdMemberResults(c.path, id, k));
  }

  /**
   * A public ID that is not `null` and has no `null` member among `type`
   * and `identifier` reports exactly its results, and the member checks run
   * even when it is not an object.
   */
  lemma PublicIdReported(c: Ctx, id: Json)
    requires !Nullish(id) && MemberOf(id, "type") != Some(JNull) && MemberOf(id, "identifier") != Some(JNull)
    ensures PublicId(c, id) == Val(c.(log := c.log + PublicIdResults(c.path, id)))
  {
    var c1 := Msg(c, ValidatingPublicId);
    var c2 := SetSpec(c1, "rfc9083");
    var c3 := Check(c2, id.JObj?, PublicIdNotObject, "section-4.8");
    PublicIdMemberReport(c3, id, "type");
    var c4 := c3.(log := c3.log + PublicIdMemberResults(c3.path, id, "type"));
    PublicIdMemberReport(c4, id, "identifier");
    var c5 := c4.(log := c4.log + PublicIdMemberResults(c4.path, id, "identifier"));
    assert PublicId(c, id) == Val(SetSpec(c5, c.spec));
    assert c5.log == c.log + PublicIdResults(c.path, id);
  }

  /** A public ID reports no failure exactly when it is an object whose `type` and `identifier` are strings. */
  lemma PublicIdPasses(path: seq<string>, id: Json)
    ensures NoneFails(PublicIdResults(path, id)) <==>
      id.JObj? && MemberOf(id, "type").Some? && MemberOf(id, "type").value.JStr? &&
      MemberOf(id, "identifier").Some? && MemberOf(id, "identifier").value.JStr?
  {
    var head := [Result(JNull, ValidatingPublicId, Join(path), None),
                 Result(JBool(id.JObj?), PublicIdNotObject, Join(path), Ref("rfc9083", "section-4.8"))];
    var t := PublicIdMemberResults(path, id, "type");
    var n := PublicIdMemberResults(path, id, "identifier");
    assert PublicIdResults(path, id) == head + t + n;
    NoneFailsConcat(head + t, n);
    NoneFailsConcat(head, t);
    assert NoneFails(head) <==> id.JObj? by { assert head[1].verdict == JBool(id.JObj?); }
    assert NoneFails(t) <==> MemberOf(id, "type").Some? && MemberOf(id, "type").value.JStr? by {
      assert t[0].verdict == JBool(MemberOf(id, "type").Some?);
      assert t[1].verdict == JBool(MemberOf(id, "type").Some? && MemberOf(id, "type").value.JStr?);
    }
    assert NoneFails(n) <==> MemberOf(id, "identifier").Some? && MemberOf(id, "identifier").value.JStr? by {
      assert n[0].verdict == JBool(MemberOf(id, "identifier").Some?);
      assert n[1].verdict == JBool(MemberOf(id, "identifier").Some? && MemberOf(id, "identifier").value.JStr?);
    }
  }

  // ---------------------------------------------------------------------
  // links

  /**
   * A link that is an object with no `null` member among those checked
   * reports the link message, a passing object test and then its member
   * checks rule by rule; the check returns and gives back `currentSpec`.
   */
  lemma LinkReported(c: Ctx, link: Json)
    requires link.JObj? && NoNullMember(link, LinkRules)
    ensures Link(c, link).Val? && Link(c, link).value.spec == c.spec
    ensures c.log + [Result(JNull, ValidatingLink, Join(c.path), None), Result(JBool(true), LinkNotObject, Join(c.path), Ref("rfc9083", "section-4.2"))] +
      RulesResults(c.path, "rfc9083", link, LinkRules) <= Link(c, link).value.log
  {
    var c3 := LinkObjectPrefix(c, link);
    var rr := RulesResults(c.path, "rfc9083", link, LinkRules);
    var c4 := c3.(log := c3.log + rr);
    assert MemberChecks(c3, link, LinkRules) == Val(c4) by {
      MemberChecksReport(c3, link, LinkRules);
    }
    var d := LinkTargets(c4, link);
    assert Link(c, link) == Val(SetSpec(d, c.spec));
    assert c4.log <= d.log;
  }

  /** The state a link that is an object reaches before its member checks. */
  lemma LinkObjectPrefix(c: Ctx, link: Json) returns (c3: Ctx)
    requires link.JObj?
    ensures c3 == Check(SetSpec(Msg(c, ValidatingLink), "rfc9083"), true, LinkNotObject, "section-4.2")
    ensures c3.path == c.path && c3.spec == "rfc9083"
    ensures c3.log == c.log + [Result(JNull, ValidatingLink, Join(c.path), None), Result(JBool(true), LinkNotObject, Join(c.path), Ref("rfc9083", "section-4.2"))]
    ensures IsObject(link) == Ok(true)
  {
    c3 := Check(SetSpec(Msg(c, ValidatingLink), "rfc9083"), true, LinkNotObject, "section-4.2");
  }

  // ---------------------------------------------------------------------
  // IP networks and autnums

  /** A list of string members that names `country` throws on a record that has one. */
  lemma {:induction false} StringFieldsCountryThrows(c: Ctx, x: Json, fields: seq<string>, fragment: string)
    requires "country" in fields && MemberOf(x, "country").Some?
    ensures StringFields(c, x, fields, fragment).Thrown?
    decreases |fields|
  {
    if fields[0] == "country" {
      assert HasOwn(x, "country") == Ok(true);
      assert StringField(c, x, "country", fragment).Thrown?;
    } else {
      assert "country" in fields[1..];
      match StringField(c, x, fields[0], fragment)
      case Thrown(_) =>
      case Val(c1) => StringFieldsCountryThrows(c1, x, fields[1..], fragment);
    }
  }

  /** Validating an IP network that has a `country` member always throws. */
  lemma IPNetworkCountryThrows(c: Ctx, x: Json)
    requires MemberOf(x, "country").Some?
    ensures IPNetwork(c, x).Thrown?
  {
    var c2 := SetSpec(Msg(c, ValidatingIPNetwork), "rfc9083");
    match CommonObjectProperties(c2, x, Some("ip network"))
    case Thrown(_) =>
    case Val(c3) => StringFieldsCountryThrows(c3, x, IPNetworkFields, "section-5.4");
  }

  /** Validating an autnum that has a `country` member always throws. */
  lemma AutnumCountryThrows(c: Ctx, x: Json)
    requires MemberOf(x, "country").Some?
    ensures Autnum(c, x).Thrown?
  {
    var c2 := SetSpec(Msg(c, ValidatingAutnum), "rfc9083");
    match CommonObjectProperties(c2, x, Some("autnum"))
    case Thrown(_) =>
    case Val(c3) =>
      match MemberChecks(c3, x, AutnumRules)
      case Thrown(_) =>
      case Val(c4) => StringFieldsCountryThrows(c4, x, AutnumFields, "section-5.5");
  }

  /**
   * A DS record that is an object reports, after its message and the
   * object check, the results of its four member checks.
   */
  lemma DSDataReports(c: Ctx, d: Json)
    requires d.JObj? && NoNullMember(d, DSDataRules)
    ensures c.log + [Result(JNull, ValidatingDSData, Join(c.path), None), Result(JBool(true), DSDataNotObject, Join(c.path), None)] +
      RulesResults(c.path, c.spec, d, DSDataRules) <= Last(DSData(c, d)).log
  {
    var head := [Result(JNull, ValidatingDSData, Join(c.path), None), Result(JBool(true), DSDataNotObject, Join(c.path), None)];
    var c2 := Check(Msg(c, ValidatingDSData), true, DSDataNotObject, "");
    assert c2.path == c.path && c2.spec == c.spec && c2.log == c.log + head;
    var rr := RulesResults(c.path, c.spec, d, DSDataRules);
    MemberChecksReport(c2, d, DSDataRules);
    var c3 := c2.(log := c2.log + rr);
    assert MemberChecks(c2, d, DSDataRules) == Val(c3);
    assert DSData(c, d) == CommonObjectProperties(c3, d, None);
    assert c3.log <= Last(CommonObjectProperties(c3, d, None)).log;
    assert c.log + head + rr == c3.log;
  }

  /**
   * A key record that is an object reports, after its message and the
   * object check, the results of its four member checks.
   */
  lemma KeyDataReports(c: Ctx, k: Json)
    requires k.JObj? && NoNullMember(k, KeyDataRules)
    ensures c.log + [Result(JNull, ValidatingKeyData, Join(c.path), None), Result(JBool(true), KeyDataNotObject, Join(c.path), None)] +
      RulesResults(c.path, c.spec, k, KeyDataRules) <= Last(KeyData(c, k)).log
  {
    var head := [Result(JNull, ValidatingKeyData, Join(c.path), None), Result(JBool(true), KeyDataNotObject, Join(c.path), None)];
    var c2 := Check(Msg(c, ValidatingKeyData), true, KeyDataNotObject, "");
    assert c2.path == c.path && c2.spec == c.spec && c2.log == c.log + head;
    var rr := RulesResults(c.path, c.spec, k, KeyDataRules);
    MemberChecksReport(c2, k, KeyDataRules);
    var c3 := c2.(log := c2.log + rr);
    assert MemberChecks(c2, k, KeyDataRules) == Val(c3);
    assert KeyData(c, k) == CommonObjectProperties(c3, k, None);
    assert c3.log <= Last(CommonObjectProperties(c3, k, None)).log;
    assert c.log + head + rr == c3.log;
  }

  // ---------------------------------------------------------------------
  // nameserver addresses

  /**
   * An address list that is an array is reported as one, and then each
   * address gets one result under its index; a list that is there but is
   * not an array is reported as such and then makes `forEach` throw.
   */
  lemma AddressListReported(c: Ctx, addresses: Json, t: string, a: Assertion)
    requires MemberOf(addresses, t).Some?
    ensures var list := MemberOf(addresses, t).value;
      var at := c.path + [MemberSegment(t)];
      (list.JArr? ==> AddressList(c, addresses, t, a) == Val(c.(log := c.log + [Result(JBool(true), AddressListNotArray(t), Join(at), None)] +
        AssertionResults(at, c.spec, a, list.elems, 0)))) &&
      (!list.JArr? ==> AddressList(c, addresses, t, a).Thrown?)
  {
    var list := MemberOf(addresses, t).value;
    var c1 := Push(c, MemberSegment(t));
    assert HasOwn(addresses, t) == Ok(true);
    assert Prop(addresses, t) == list;
    if list.JArr? {
      AddressArrayReported(c, addresses, t, a);
    }
  }

  /** The array case of `AddressListReported`. */
  lemma AddressArrayReported(c: Ctx, addresses: Json, t: string, a: Assertion)
    requires MemberOf(addresses, t).Some? && MemberOf(addresses, t).value.JArr?
    ensures var at := c.path + [MemberSegment(t)];
      AddressList(c, addresses, t, a) == Val(c.(log := c.log + [Result(JBool(true), AddressListNotArray(t), Join(at), None)] +
        AssertionResults(at, c.spec, a, MemberOf(addresses, t).value.elems, 0)))
  {
    var list := MemberOf(addresses, t).value;
    var c1 := Push(c, MemberSegment(t));
    assert HasOwn(addresses, t) == Ok(true);
    assert Prop(addresses, t) == list;
    var c2 := Check(c1, true, AddressListNotArray(t), "");
    assert c2.path == c1.path && c2.spec == c.spec;
    var rs := AssertionsIterated(c2, list.elems, a);
    var c3 := c2.(log := c2.log + rs);
    assert AddressList(c, addresses, t, a) == Val(Pop(c3));
    assert c1.path[..|c1.path| - 1] == c.path;
    assert Pop(c3) == c.(log := c.log + [Result(JBool(true), AddressListNotArray(t), Join(c1.path), None)] + rs);
  }

  // ---------------------------------------------------------------------
  // objectClassName

  /**
   * For one of the five object types, a string `objectClassName` is
   * reported present and a string, and then passes exactly when it names
   * the type, citing the section that defines the class.
   */
  lemma ClassNameReported(c: Ctx, record: Json, objectType: string, name: string)
    requires objectType in ObjectTypes && MemberOf(record, "objectClassName") == Some(JStr(name))
    ensures var at := Join(c.path + [MemberSegment("objectClassName")]);
      ObjectClassName(c, record, objectType) == Val(c.(spec := "rfc9083", log := c.log + [
        Result(JBool(true), ClassNameMissing, at, Ref("rfc9083", "section-4.9")),
        Result(JBool(true), ClassNameNotString, at, Ref("rfc9083", "section-4.9")),
        Result(JBool(name == objectType), ClassNameMismatch(name, objectType), at, Ref("rfc9083", ObjectClassNameReference(objectType).value))]))
  {
    var c1 := SetSpec(c, "rfc9083");
    var c2 := Push(c1, MemberSegment("objectClassName"));
    assert HasOwn(record, "objectClassName") == Ok(true);
    assert Prop(record, "objectClassName") == JStr(name);
    var c3 := Check(c2, true, ClassNameMissing, "section-4.9");
    var c4 := Check(c3, true, ClassNameNotString, "section-4.9");
    var c5 := Check(c4, objectType == name, ClassNameMismatch(name, objectType), ObjectClassNameReference(objectType).value);
    assert ClassNameValue(c3, JStr(name), objectType) == Val(c5);
    assert ObjectClassName(c, record, objectType) == Val(Pop(c5));
    assert c2.path[..|c2.path| - 1] == c.path;
    assert Pop(c5).log == c.log + [
        Result(JBool(true), ClassNameMissing, Join(c2.path), Ref("rfc9083", "section-4.9")),
        Result(JBool(true), ClassNameNotString, Join(c2.path), Ref("rfc9083", "section-4.9")),
        Result(JBool(name == objectType), ClassNameMismatch(name, objectType), Join(c2.path), Ref("rfc9083", ObjectClassNameReference(objectType).value))];
  }

  // ---------------------------------------------------------------------
  // secureDNS

  /** A secureDNS value that is neither an object nor `null` gets its message and one failure, and nothing else. */
  lemma SecureDNSNotObjectFails(c: Ctx, s: Json)
    requires !s.JObj? && !s.JNull?
    ensures SecureDNS(c, s) == Val(c.(log := c.log + [
      Result(JNull, ValidatingSecureDNS, Join(c.path), None),
      Result(JBool(false), SecureDNSNotObject, Join(c.path), None)]))
  {
    var c1 := Msg(c, ValidatingSecureDNS);
    assert Try(c1, IsObject(s)) == Val(false);
    var c2 := Check(c1, false, SecureDNSNotObject, "");
    assert SecureDNS(c, s) == Val(c2);
    assert c2.log == c.log + [Result(JNull, ValidatingSecureDNS, Join(c.path), None), Result(JBool(false), SecureDNSNotObject, Join(c.path), None)];
  }

  /**
   * A signed delegation whose `dsData` and `keyData` hold no element
   * between them ends with a failure; one that holds some ends with a pass.
   */
  lemma SignedDelegationNeedsRecords(c: Ctx, s: Json)
    requires s.JObj? && Truthy(Prop(s, "delegationSigned"))
    requires SecureDNS(c, s).Val?
    ensures var log := SecureDNS(c, s).value.log;
      |log| > 0 && log[|log| - 1] == Result(JBool(DnssecRecordCount(s) > 0), SignedWithoutRecords, Join(c.path), None)
  {
    var c1 := Msg(c, ValidatingSecureDNS);
    var c2 := Check(c1, true, SecureDNSNotObject, "");
    var c3 := MemberChecks(c2, s, SecureDNSRules);
    assert c3.Val?;
    var c4 := SignedRecordMembers(c3.value, s);
    assert c4.Val?;
    assert c4.value.path == c.path;
  }

  // ---------------------------------------------------------------------
  // rdapConformance

  /** A record without `rdapConformance` gets one failure, at `.rdapConformance`, citing section 4.1 of RFC 9083. */
  lemma ConformanceMissingFails(c: Ctx, record: Json)
    requires record.JObj? && MemberOf(record, "rdapConformance").None?
    ensures RDAPConformance(c, record) == Val(c.(spec := "rfc9083", log := c.log + [
      Result(JBool(false), ConformanceMissing, Join(c.path + [MemberSegment("rdapConformance")]), Ref("rfc9083", "section-4.1"))]))
  {
    var c1 := Push(SetSpec(c, "rfc9083"), MemberSegment("rdapConformance"));
    assert c1.path[..|c1.path| - 1] == c.path;
  }

  /** When the array holds `rdap_level_0`, all three conformance checks pass. */
  lemma ConformanceLevelPasses(c: Ctx, record: Json)
    requires MemberOf(record, "rdapConformance").Some? && MemberOf(record, "rdapConformance").value.JArr?
    requires JStr("rdap_level_0") in MemberOf(record, "rdapConformance").value.elems
    ensures var at := Join(c.path + [MemberSegment("rdapConformance")]);
      var cite := Ref("rfc9083", "section-4.1");
      RDAPConformance(c, record) == Val(c.(spec := "rfc9083", log := c.log + [
        Result(JBool(true), ConformanceMissing, at, cite),
        Result(JBool(true), ConformanceNotArray, at, cite),
        Result(JBool(true), ConformanceLevelMissing, at, cite)]))
  {
    var v := MemberOf(record, "rdapConformance").value;
    var c1 := Push(SetSpec(c, "rfc9083"), MemberSegment("rdapConformance"));
    var c2 := Check(c1, true, ConformanceMissing, "section-4.1");
    assert HasOwn(record, "rdapConformance") == Ok(true);
    assert Prop(record, "rdapConformance") == v;
    var c3 := Check(c2, true, ConformanceNotArray, "section-4.1");
    assert IndexOfFound(v, "rdap_level_0") == Ok(true);
    var c4 := Check(c3, true, ConformanceLevelMissing, "section-4.1");
    assert ConformanceValue(c2, v) == Val(c4);
    assert RDAPConformance(c, record) == Val(Pop(c4));
    assert c1.path[..|c1.path| - 1] == c.path;
    assert Pop(c4).path == c.path;
    assert Pop(c4).log == c.log + [
        Result(JBool(true), ConformanceMissing, Join(c1.path), Ref("rfc9083", "section-4.1")),
        Result(JBool(true), ConformanceNotArray, Join(c1.path), Ref("rfc9083", "section-4.1")),
        Result(JBool(true), ConformanceLevelMissing, Join(c1.path), Ref("rfc9083", "section-4.1"))];
  }

  // ---------------------------------------------------------------------
  // gTLD domain events

  /** The domain's `events` is an array in which some event's action, as a string, is `action`. */
  predicate EventListed(domain: Json, action: string)
  {
    MemberOf(domain, "events").Some? && MemberOf(domain, "events").value.JArr? &&
    exists i :: 0 <= i < |MemberOf(domain, "events").value.elems| &&
      MemberOf(MemberOf(domain, "events").value.elems[i], "eventAction").Some? &&
      Show(MemberOf(MemberOf(domain, "events").value.elems[i], "eventAction").value) == action
  }

  /**
   * Under the gTLD profile, a domain gets a failure for the registration
   * event exactly when no event carries that action, and likewise for the
   * expiration event.
   */
  lemma DomainEventsFailWhenMissing(c: Ctx, domain: Json)
    requires Gtld.DomainEvents(c, domain).Val?
    ensures var at := Join(c.path + [MemberSegment("events")]);
      Gtld.DomainEvents(c, domain).value.log == c.log + [
        Result(JBool(EventListed(domain, "registration")), DomainEventMissing("registration"), at, None),
        Result(JBool(EventListed(domain, "expiration")), DomainEventMissing("expiration"), at, None)]
  {
    var seen := Gtld.DomainActions(domain);
    assert seen.Ok?;
    if MemberOf(domain, "events").Some? && MemberOf(domain, "events").value.JArr? {
      ActionsSeenMeaning(MemberOf(domain, "events").value.elems);
    }
  }

  // ---------------------------------------------------------------------
  // a whole run

  /** A response type or server type `testURL` does not know gives one failure, one error, and the completion callback at once. */
  lemma RejectedTypeOneError(c: Ctx, url: string, responseType: string, serverType: string, fetched: Dispatch.Fetched)
    requires responseType !in ResponseTypes || serverType !in ServerTypes
    ensures var s := Dispatch.TestURL(c, url, responseType, serverType, fetched);
      s.final.Val? && |s.final.value.log| == 1 && ErrorCount(s.final.value.log) == 1 && s.completedAt == Some(1)
  {
    var s := Dispatch.TestURL(c, url, responseType, serverType, fetched);
    ErrorCountAppend([], s.final.value.log[0]);
    assert [] + [s.final.value.log[0]] == s.final.value.log;
  }

  /**
   * A run whose response passes the status and media type checks and whose
   * body is an object without `rdapConformance`: the completion callback
   * fires after the seven results of the request and the response, and the
   * body's first check after that is followed by the failure at
   * `$.rdapConformance`.
   */
  lemma ConformanceMissingAtRoot(c: Ctx, url: string, responseType: string, serverType: string, res: Dispatch.HttpResponse, record: Json)
    requires responseType in ResponseTypes && serverType in ServerTypes
    requires Dispatch.StatusAccepted(res.status, responseType) && Dispatch.MediaAccepted(res.headers)
    requires res.body == Dispatch.Parsed(record) && record.JObj? && MemberOf(record, "rdapConformance").None?
    ensures var s := Dispatch.TestURL(c, url, responseType, serverType, Dispatch.Responded(res));
      s.completedAt == Some(7) && |Last(s.final).log| > 8 &&
      Last(s.final).log[8] == Result(JBool(false), ConformanceMissing, "$.rdapConformance", Ref("rfc9083", "section-4.1"))
  {
    var c2 := Dispatch.Requested(Dispatch.Start(c), url, responseType, serverType);
    var t := Dispatch.TestResponse(c2, res, responseType);
    assert t.Val? && t.value.1;
    var d := t.value.0;
    assert |d.log| == 7 && d.path == ["$"];
    assert Dispatch.TestURL(c, url, responseType, serverType, Dispatch.Responded(res)) ==
      Dispatch.Session(Dispatch.ValidateResponse(d, record, responseType, serverType), Some(7));
    var e := Check(d, true, BodyNotObject, "section-5");
    ConformanceMissingFails(e, record);
    ConformanceFirst(d, record, responseType, serverType);
    RootConformancePath();
  }

  /** The path of the conformance member of the response's root. */
  lemma RootConformancePath()
    ensures Join(["$"] + [MemberSegment("rdapConformance")]) == "$.rdapConformance"
  {
    var p := ["$"] + [MemberSegment("rdapConformance")];
    assert p[..1] == ["$"];
    assert ["$"][..0] == [];
    assert Join(["$"]) == "$";
    assert Join(p) == "$" + ".rdapConformance";
  }

  /** The body checks of an object start with the object check and the conformance checks, and keep what those reported. */
  lemma ConformanceFirst(d: Ctx, record: Json, responseType: string, serverType: string)
    requires record.JObj?
    ensures Last(RDAPConformance(Check(d, true, BodyNotObject, "section-5"), record)).log <=
      Last(Dispatch.ValidateResponse(d, record, responseType, serverType)).log
  {
    var e := Check(d, true, BodyNotObject, "section-5");
    var conf := RDAPConformance(e, record);
    var pre := Dispatch.Preamble(e, record, responseType);
    assert Last(conf).log <= Last(pre).log by {
      if conf.Val? {
        var n := ObjectClassName(conf.value, record, responseType);
        assert Last(n).log <= Last(pre).log;
      }
    }
    assert Last(pre).log <= Last(Dispatch.ValidateResponse(d, record, responseType, serverType)).log;
  }

  // ---------------------------------------------------------------------
  // events

  /**
   * What the check of an event member `k` reports under its segment: that
   * it is there; when it is, that it is a string; and for a string, that
   * an action is registered or that a date is valid, which always passes.
   */
  function EventMemberResults(path: seq<string>, e: Json, k: string): seq<Result>
  {
    var at := Join(path + [MemberSegment(k)]);
    var cite := Ref("rfc9083", "section-4.5");
    var m := MemberOf(e, k);
    [Result(JBool(m.Some?), EventMemberMissing(k), at, cite)] +
    if m.None? then []
    else
      [Result(JBool(m.value.JStr?), NotString(k), at, cite)] +
      if !m.value.JStr? then []
      else if k == "eventAction" then [Result(JBool(m.value.s in EventActions), EventActionUnknown, at, cite)]
      else if k == "eventDate" then [Result(JBool(true), EventDateInvalid, at, cite)]
      else []
  }

  /** What the check of an event reports before its common properties: the message, the object test, the action, the date. */
  function EventResults(path: seq<string>, e: Json): seq<Result>
  {
    [Result(JNull, ValidatingEvent, Join(path), None),
     Result(JBool(e.JObj?), EventNotObject, Join(path), Ref("rfc9083", "section-4.5"))] +
    EventMemberResults(path, e, "eventAction") + EventMemberResults(path, e, "eventDate")
  }

  /** One event member that, if there, is not `null`, reports exactly its results. */
  lemma EventMemberReport(c: Ctx, e: Json, k: string)
    requires e.JObj? && MemberOf(e, k) != Some(JNull) && c.spec == "rfc9083"
    ensures EventMember(c, e, k) == Val(c.(log := c.log + EventMemberResults(c.path, e, k)))
  {
    var c1 := Push(c, MemberSegment(k));
    var m := MemberOf(e, k);
    assert HasOwn(e, k) == Ok(m.Some?);
    var c2 := Check(c1, m.Some?, EventMemberMissing(k), "section-4.5");
    assert c1.path[..|c1.path| - 1] == c.path;
    if m.Some? {
      var v := m.value;
      assert Prop(e, k) == v;
      assert IsString(v) == Ok(v.JStr?);
      var c3 := Check(c2, v.JStr?, NotString(k), "section-4.5");
      var c4 := if !v.JStr? then c3
        else if k == "eventAction" then Check(c3, v.s in EventActions, EventActionUnknown, "section-4.5")
        else if k == "eventDate" then Check(c3, true, EventDateInvalid, "section-4.5")
        else c3;
      assert EventValue(c2, v, k) == Val(c4);
      assert EventMember(c, e, k) == Val(Pop(c4));
      assert c4.log == c.log + EventMemberResults(c.path, e, k);
    } else {
      assert EventMember(c, e, k) == Val(Pop(c2));
      assert c2.log == c.log + EventMemberResults(c.path, e, k);
    }
  }

  /**
   * An event that is an object, with no `null` action or date, reports
   * the message, a passing object test, and then its action and date
   * results, before anything its common properties report.
   */
  lemma EventReported(c: Ctx, e: Json)
    requires e.JObj? && MemberOf(e, "eventAction") != Some(JNull) && MemberOf(e, "eventDate") != Some(JNull)
    ensures c.log + EventResults(c.path, e) <= Last(Event(c, e)).log
  {
    var c2 := SetSpec(Msg(c, ValidatingEvent), "rfc9083");
    var c3 := Check(c2, true, EventNotObject, "section-4.5");
    EventMemberReport(c3, e, "eventAction");
    var c4 := c3.(log := c3.log + EventMemberResults(c3.path, e, "eventAction"));
    EventMemberReport(c4, e, "eventDate");
    var c5 := c4.(log := c4.log + EventMemberResults(c4.path, e, "eventDate"));
    assert c5.log == c.log + EventResults(c.path, e);
    var rest := CommonObjectProperties(c5, e, None);
    assert Event(c, e) == if rest.Thrown? then rest else Val(SetSpec(rest.value, c.spec));
  }

  /** An event's own results hold no failure exactly when it is an object with a registered string action and a string date. */
  lemma EventPasses(path: seq<string>, e: Json)
    ensures NoneFails(EventResults(path, e)) <==>
      e.JObj? && MemberOf(e, "eventAction").Some? && MemberOf(e, "eventAction").value.JStr? &&
      MemberOf(e, "eventAction").value.s in EventActions &&
      MemberOf(e, "eventDate").Some? && MemberOf(e, "eventDate").value.JStr?
  {
    var head := [Result(JNull, ValidatingEvent, Join(path), None),
                 Result(JBool(e.JObj?), EventNotObject, Join(path), Ref("rfc9083", "section-4.5"))];
    var a := EventMemberResults(path, e, "eventAction");
    var d := EventMemberResults(path, e, "eventDate");
    assert EventResults(path, e) == head + a + d;
    NoneFailsConcat(head + a, d);
    NoneFailsConcat(head, a);
    assert NoneFails(head) <==> e.JObj? by { assert head[1].verdict == JBool(e.JObj?); }
    var ma := MemberOf(e, "eventAction");
    assert NoneFails(a) <==> ma.Some? && ma.value.JStr? && ma.value.s in EventActions by {
      assert a[0].verdict == JBool(ma.Some?);
      if ma.Some? {
        assert a[1].verdict == JBool(ma.value.JStr?);
        if ma.value.JStr? { assert a[2].verdict == JBool(ma.value.s in EventActions); }
      }
    }
    var md := MemberOf(e, "eventDate");
    assert NoneFails(d) <==> md.Some? && md.value.JStr? by {
      assert d[0].verdict == JBool(md.Some?);
      if md.Some? {
        assert d[1].verdict == JBool(md.value.JStr?);
        if md.value.JStr? { assert d[2].verdict == JBool(true); }
      }
    }
  }

  // ---------------------------------------------------------------------
  // jCards

  /** What a jCard check reports first: the message, the array test, and for an array the non-empty test. */
  function JCardHead(path: seq<string>, v: Json): seq<Result>
  {
    [Result(JNull, ValidatingJCard, Join(path), None), Result(JBool(v.JArr?), JCardNotArray, Join(path), None)] +
    if v.JArr? then [Result(JBool(|v.elems| > 0), JCardEmpty, Join(path), None)] else []
  }

  /** Every property's first item can be upper-cased, so the VERSION and FN tests return. */
  predicate FirstItemsUpper(props: seq<Json>)
  {
    forall i :: 0 <= i < |props| ==> FirstItemUpper(props[i]).Ok?
  }

  /** Some property's first item, upper-cased, is `name`. */
  predicate PropertyNamed(props: seq<Json>, name: string)
  {
    exists i :: 0 <= i < |props| && FirstItemUpper(props[i]) == Ok(name)
  }

  /** The VERSION and FN results of a jCard whose properties all have a first item that can be upper-cased. */
  function JCardTail(path: seq<string>, props: seq<Json>): seq<Result>
  {
    [Result(JBool(PropertyNamed(props, "VERSION")), JCardPropertyMissing("VERSION"), Join(path), None),
     Result(JBool(PropertyNamed(props, "FN")), JCardPropertyMissing("FN"), Join(path), None)]
  }

  /**
   * A non-empty jCard reports its head, then what the property closure
   * reports for each property, then whether a VERSION and an FN property
   * are among them; the last two tests throw when some property's first
   * item cannot be upper-cased.
   */
  lemma JCardReported(c: Ctx, v: Json)
    requires v.JArr? && |v.elems| > 0
    ensures var props := Iterate(c.(log := c.log + JCardHead(c.path, v)), v, EachJCardProperty);
      (props.Thrown? ==> JCard(c, v) == props) &&
      (props.Val? && !FirstItemsUpper(v.elems) ==> JCard(c, v).Thrown?) &&
      (props.Val? && FirstItemsUpper(v.elems) ==>
        JCard(c, v) == Val(props.value.(log := props.value.log + JCardTail(c.path, v.elems))))
  {
    var c1 := Msg(c, ValidatingJCard);
    var c2 := Check(c1, true, JCardNotArray, "");
    var c3 := Check(c2, true, JCardEmpty, "");
    var head := [Result(JNull, ValidatingJCard, Join(c.path), None), Result(JBool(true), JCardNotArray, Join(c.path), None),
                 Result(JBool(true), JCardEmpty, Join(c.path), None)];
    assert JCardHead(c.path, v) == head;
    assert c3.log == c.log + head;
    assert c3 == c.(log := c.log + JCardHead(c.path, v));
    var props := Iterate(c3, v, EachJCardProperty);
    JCardUnfold(c, v);
    if props.Val? {
      var c4 := props.value;
      assert c4.path == c.path;
      RequiredPropertyReport(c4, v.elems, "VERSION");
      if !FirstItemsUpper(v.elems) {
        assert RequiredProperty(c4, v.elems, "VERSION") == Thrown(c4);
      } else {
        var tail := JCardTail(c.path, v.elems);
        var c5 := c4.(log := c4.log + [tail[0]]);
        assert RequiredProperty(c4, v.elems, "VERSION") == Val(c5);
        RequiredPropertyReport(c5, v.elems, "FN");
        var c6 := c5.(log := c5.log + [tail[1]]);
        assert RequiredProperty(c5, v.elems, "FN") == Val(c6);
        assert c6.log == c4.log + tail;
      }
    }
  }

  /** A non-empty jCard step by step: its head, the properties, the VERSION test and the FN test. */
  lemma JCardUnfold(c: Ctx, v: Json)
    requires v.JArr? && |v.elems| > 0
    ensures JCard(c, v) ==
      match Iterate(Check(Check(Msg(c, ValidatingJCard), true, JCardNotArray, ""), true, JCardEmpty, ""), v, EachJCardProperty)
      case Thrown(d) => Thrown(d)
      case Val(c4) =>
        match RequiredProperty(c4, v.elems, "VERSION")
        case Thrown(d) => Thrown(d)
        case Val(c5) => RequiredProperty(c5, v.elems, "FN")
  {
    assert IsArray(v) == Ok(true);
  }

  /** The test for a required jCard property throws when some property's first item cannot be upper-cased, and otherwise reports whether one names it. */
  lemma RequiredPropertyReport(c: Ctx, props: seq<Json>, name: string)
    ensures !FirstItemsUpper(props) ==> RequiredProperty(c, props, name) == Thrown(c)
    ensures FirstItemsUpper(props) ==>
      RequiredProperty(c, props, name) == Val(c.(log := c.log + [
        Result(JBool(PropertyNamed(props, name)), JCardPropertyMissing(name), Join(c.path), None)]))
  {
    PropertyNamePresentMeaning(props, name);
  }

  // ---------------------------------------------------------------------
  // common object properties

  /**
   * What the class name check reports for one of the five object types,
   * under `.objectClassName`: that it is there; when it is, that it is a
   * string; and for a string, that it names the type.
   */
  function ClassNameResults(path: seq<string>, record: Json, objectType: string): seq<Result>
    requires objectType in ObjectTypes
  {
    var at := Join(path + [MemberSegment("objectClassName")]);
    var cite := Ref("rfc9083", "section-4.9");
    var m := MemberOf(record, "objectClassName");
    [Result(JBool(m.Some?), ClassNameMissing, at, cite)] +
    if m.None? then []
    else
      [Result(JBool(m.value.JStr?), ClassNameNotString, at, cite)] +
      if !m.value.JStr? then []
      else [Result(JBool(objectType == m.value.s), ClassNameMismatch(m.value.s, objectType), at,
                   Ref("rfc9083", ObjectClassNameReference(objectType).value))]
  }

  /** The class name check on a record whose `objectClassName`, if there, is not `null` reports exactly its results. */
  lemma ClassNameChecked(c: Ctx, record: Json, objectType: string)
    requires objectType in ObjectTypes && !Nullish(record) && MemberOf(record, "objectClassName") != Some(JNull)
    ensures ObjectClassName(c, record, objectType) ==
      Val(c.(spec := "rfc9083", log := c.log + ClassNameResults(c.path, record, objectType)))
  {
    var c2 := Push(SetSpec(c, "rfc9083"), MemberSegment("objectClassName"));
    var m := MemberOf(record, "objectClassName");
    assert HasOwn(record, "objectClassName") == Ok(m.Some?);
    var c3 := Check(c2, m.Some?, ClassNameMissing, "section-4.9");
    assert c2.path[..|c2.path| - 1] == c.path;
    if m.Some? {
      var v := m.value;
      assert Prop(record, "objectClassName") == v;
      assert IsString(v) == Ok(v.JStr?);
      var c4 := Check(c3, v.JStr?, ClassNameNotString, "section-4.9");
      var c5 := if v.JStr? then Check(c4, objectType == v.s, ClassNameMismatch(v.s, objectType), ObjectClassNameReference(objectType).value) else c4;
      assert ClassNameValue(c3, v, objectType) == Val(c5);
      assert ObjectClassName(c, record, objectType) == Val(Pop(c5));
      assert c5.log == c.log + ClassNameResults(c.path, record, objectType);
    } else {
      assert ObjectClassName(c, record, objectType) == Val(Pop(c3));
      assert c3.log == c.log + ClassNameResults(c.path, record, objectType);
    }
  }

  /** The class name results hold no failure exactly when `objectClassName` is the type's own name. */
  lemma ClassNamePasses(path: seq<string>, record: Json, objectType: string)
    requires objectType in ObjectTypes
    ensures NoneFails(ClassNameResults(path, record, objectType)) <==> MemberOf(record, "objectClassName") == Some(JStr(objectType))
  {
    var rs := ClassNameResults(path, record, objectType);
    var m := MemberOf(record, "objectClassName");
    assert rs[0].verdict == JBool(m.Some?);
    if m.Some? {
      assert rs[1].verdict == JBool(m.value.JStr?);
      if m.value.JStr? { assert rs[2].verdict == JBool(objectType == m.value.s); }
    }
  }

  /**
   * `validateCommonObjectProperties` with a type reports its message and
   * the class name results, and then goes through the common properties
   * from the first one.
   */
  lemma CommonPropertiesClassName(c: Ctx, x: Json, objectType: string)
    requires objectType in ObjectTypes && !Nullish(x) && MemberOf(x, "objectClassName") != Some(JNull)
    ensures CommonObjectProperties(c, x, Some(objectType)) ==
      CommonFrom(c.(spec := "rfc9083", log := c.log + [Result(JNull, CheckingCommonProperties, Join(c.path), None)] +
        ClassNameResults(c.path, x, objectType)), x, 0)
  {
    var c1 := Msg(c, CheckingCommonProperties);
    ClassNameChecked(c1, x, objectType);
    assert c1.path == c.path;
  }

  /** The position of the first common property, from position `i` on, that the record has; the end of the list if none. */
  function NextCommon(x: Json, i: nat): (j: nat)
    requires i <= |CommonKeys|
    ensures i <= j <= |CommonKeys|
    ensures j < |CommonKeys| ==> MemberOf(x, CommonKeys[j]).Some?
    ensures forall k :: i <= k < j ==> MemberOf(x, CommonKeys[k]).None?
    decreases |CommonKeys| - i
  {
    if i == |CommonKeys| || MemberOf(x, CommonKeys[i]).Some? then i else NextCommon(x, i + 1)
  }

  /**
   * The walk from position `j`, when the record has the property there:
   * that property's block of checks, then the rest; nothing at the end.
   */
  function CommonFromPresent(c: Ctx, x: Json, j: nat): Run<Ctx>
    requires x.JObj? && j <= |CommonKeys|
  {
    if j == |CommonKeys| then Val(c)
    else match CommonMember(c, x, CommonKeys[j])
      case Thrown(d) => Thrown(d)
      case Val(d) => CommonFrom(d, x, j + 1)
  }

  /**
   * The common properties are checked in the order of the list: the
   * properties the record lacks are skipped without a report, and the next
   * one it has gets its own block of checks before the rest.
   */
  lemma {:induction false} CommonFromNext(c: Ctx, x: Json, i: nat)
    requires x.JObj? && i <= |CommonKeys|
    ensures CommonFrom(c, x, i) == CommonFromPresent(c, x, NextCommon(x, i))
    decreases |CommonKeys| - i
  {
    if i == |CommonKeys| {
      assert NextCommon(x, i) == i;
    } else if MemberOf(x, CommonKeys[i]).None? {
      CommonFromSkip(c, x, i);
      CommonFromNext(c, x, i + 1);
      assert NextCommon(x, i) == NextCommon(x, i + 1);
    } else {
      CommonFromVisit(c, x, i);
      assert NextCommon(x, i) == i;
    }
  }

  /** A common property the record lacks is skipped without a report. */
  lemma CommonFromSkip(c: Ctx, x: Json, i: nat)
    requires x.JObj? && i < |CommonKeys| && MemberOf(x, CommonKeys[i]).None?
    ensures CommonFrom(c, x, i) == CommonFrom(c, x, i + 1)
  {
    assert HasOwn(x, CommonKeys[i]) == Ok(false);
  }

  /** A common property the record has gets its block of checks before the rest. */
  lemma CommonFromVisit(c: Ctx, x: Json, i: nat)
    requires x.JObj? && i < |CommonKeys| && MemberOf(x, CommonKeys[i]).Some?
    ensures CommonFrom(c, x, i) ==
      match CommonMember(c, x, CommonKeys[i])
      case Thrown(d) => Thrown(d)
      case Val(d) => CommonFrom(d, x, i + 1)
  {
    assert HasOwn(x, CommonKeys[i]) == Ok(true);
  }

  /**
   * The block of one common property the record has, whose value is not
   * `null`: the property's message and its kind test, both under its
   * segment; a string-valued property, or an array-valued one that is not
   * an array, reports nothing more.
   */
  lemma CommonMemberReported(c: Ctx, x: Json, name: string)
    requires x.JObj? && MemberOf(x, name).Some? && MemberOf(x, name).value != JNull
    ensures var at := c.path + [MemberSegment(name)];
      var v := MemberOf(x, name).value;
      c.log + [Result(JNull, CheckingProperty(name), Join(at), None), CommonKindResult(at, name, v)] <= Last(CommonMember(c, x, name)).log
    ensures var at := c.path + [MemberSegment(name)];
      var v := MemberOf(x, name).value;
      CommonCheckOf(name).StringValued? || !v.JArr? ==>
        CommonMember(c, x, name).Val? &&
        CommonMember(c, x, name).value.log == c.log + [Result(JNull, CheckingProperty(name), Join(at), None), CommonKindResult(at, name, v)]
  {
    var v := MemberOf(x, name).value;
    assert Prop(x, name) == v;
    var c1 := Msg(Push(c, MemberSegment(name)), CheckingProperty(name));
    var r := CommonProperty(c1, name, v);
    assert CommonMember(c, x, name) == if r.Thrown? then r else Val(Pop(r.value));
  }

  /**
   * A `status` that is an array reports the array test and then one
   * result per status, in order, each at its own index, cited under
   * section 4.6 of RFC 9083; `currentSpec` is given back.
   */
  lemma StatusReported(c: Ctx, v: Json)
    requires v.JArr?
    ensures CommonProperty(c, "status", v) == Val(c.(log := c.log + [CommonKindResult(c.path, "status", v)] +
      AssertionResults(c.path, "rfc9083", StatusValue, v.elems, 0)))
  {
    var c2 := Check(SetSpec(c, "rfc9083"), true, NotArray("status"), "section-4.6");
    assert c2.log == c.log + [CommonKindResult(c.path, "status", v)];
    var rs := AssertionsIterated(c2, v.elems, StatusValue);
    assert CommonProperty(c, "status", v) == Val(SetSpec(c2.(log := c2.log + rs), c.spec));
  }

  // ---------------------------------------------------------------------
  // domains

  /**
   * A domain whose `objectClassName`, if there, is not `null` reports the
   * domain message, the common properties message and its class name
   * results before anything else.
   */
  lemma DomainReported(c: Ctx, d: Json)
    requires !Nullish(d) && MemberOf(d, "objectClassName") != Some(JNull)
    ensures c.log + [Result(JNull, ValidatingDomain, Join(c.path), None), Result(JNull, CheckingCommonProperties, Join(c.path), None)] +
      ClassNameResults(c.path, d, "domain") <= Last(Domain(c, d)).log
  {
    var c1 := Msg(SetSpec(c, "rfc9083"), ValidatingDomain);
    CommonPropertiesClassName(c1, d, "domain");
    var a := [Result(JNull, ValidatingDomain, Join(c.path), None)];
    var b := [Result(JNull, CheckingCommonProperties, Join(c.path), None)];
    var names := ClassNameResults(c.path, d, "domain");
    var c2 := c1.(spec := "rfc9083", log := c1.log + b + names);
    assert c1.log == c.log + a && c1.path == c.path;
    assert c2.log == c.log + (a + b) + names by {
      AppendAssociative(c.log, a, b);
    }
    assert a + b == [Result(JNull, ValidatingDomain, Join(c.path), None), Result(JNull, CheckingCommonProperties, Join(c.path), None)];
    var common := CommonObjectProperties(c1, d, Some("domain"));
    assert c2.log <= Last(common).log;
    if common.Val? {
      var u := UnicodeName(common.value, d);
      if u.Val? {
        var ns := DomainNameservers(u.value, d);
        if ns.Val? {
          assert Domain(c, d) == DomainSecureDNS(ns.value, d);
        } else {
          assert Domain(c, d) == ns;
        }
      } else {
        assert Domain(c, d) == u;
      }
    } else {
      assert Domain(c, d) == common;
    }
  }

  // ---------------------------------------------------------------------
  // notices and remarks

  /**
   * What the `description` check reports under its segment: that it is
   * there; when it is, that it is an array and that it holds only strings.
   */
  function DescriptionResults(path: seq<string>, n: Json): seq<Result>
  {
    var at := Join(path + [MemberSegment("description")]);
    var cite := Ref("rfc9083", "section-4.3");
    var m := MemberOf(n, "description");
    [Result(JBool(m.Some?), DescriptionMissing, at, cite)] +
    if m.None? then []
    else [Result(JBool(m.value.JArr?), DescriptionNotArray, at, cite),
          Result(JBool(DescriptionVerdict(m.value) == Ok(true)), DescriptionNotStrings, at, cite)]
  }

  /** What the optional `type` check reports under its segment: a string, and a registered one. */
  function NoticeTypeResults(path: seq<string>, n: Json): seq<Result>
  {
    var at := Join(path + [MemberSegment("type")]);
    var cite := Ref("rfc9083", "section-4.3");
    var m := MemberOf(n, "type");
    if m.None? then []
    else [Result(JBool(m.value.JStr?), NotString("type"), at, cite),
          Result(JBool(m.value.JStr? && m.value.s in NoticeAndRemarkTypes), NoticeTypeUnknown, at, cite)]
  }

  /** What the checks of a notice's title, description and type report. */
  function NoticeMemberResults(path: seq<string>, n: Json): seq<Result>
  {
    RuleResults(path, "rfc9083", n, NoticeTitleRule) + DescriptionResults(path, n) + NoticeTypeResults(path, n)
  }

  /** What the check of a notice or remark reports before its common properties. */
  function NoticeResults(path: seq<string>, n: Json): seq<Result>
  {
    [Result(JNull, ValidatingNoticeOrRemark, Join(path), None),
     Result(JBool(n.JObj?), NoticeNotObject, Join(path), Ref("rfc9083", "section-4.3"))] +
    NoticeMemberResults(path, n)
  }

  /** The checks a notice's members need in order to return: no `null` title or type, and a description whose test does not throw. */
  predicate NoticeMembersReturn(n: Json)
  {
    MemberOf(n, "title") != Some(JNull) && MemberOf(n, "type") != Some(JNull) &&
    (MemberOf(n, "description").Some? ==> DescriptionVerdict(MemberOf(n, "description").value).Ok?)
  }

  /** The `description` check of a notice whose description test does not throw reports exactly its results. */
  lemma DescriptionReported(c: Ctx, n: Json)
    requires n.JObj? && NoticeMembersReturn(n) && c.spec == "rfc9083"
    ensures Description(c, n) == Val(c.(log := c.log + DescriptionResults(c.path, n)))
  {
    var c1 := Push(c, MemberSegment("description"));
    var m := MemberOf(n, "description");
    assert HasOwn(n, "description") == Ok(m.Some?);
    var c2 := Check(c1, m.Some?, DescriptionMissing, "section-4.3");
    assert c1.path[..|c1.path| - 1] == c.path;
    if m.Some? {
      var d := m.value;
      assert Prop(n, "description") == d;
      DescriptionVerdictMeaning(d);
      assert IsArray(d) == Ok(d.JArr?);
      var c4 := Check(Check(c2, d.JArr?, DescriptionNotArray, "section-4.3"), DescriptionVerdict(d).value, DescriptionNotStrings, "section-4.3");
      assert DescriptionValue(c2, d) == Val(c4);
      assert Description(c, n) == Val(Pop(c4));
      assert c4.log == c.log + DescriptionResults(c.path, n);
    } else {
      assert Description(c, n) == Val(Pop(c2));
      assert c2.log == c.log + DescriptionResults(c.path, n);
    }
  }

  /** The `type` check of a notice whose type, if there, is not `null` reports exactly its results. */
  lemma NoticeTypeReported(c: Ctx, n: Json)
    requires n.JObj? && MemberOf(n, "type") != Some(JNull) && c.spec == "rfc9083"
    ensures NoticeType(c, n) == Val(c.(log := c.log + NoticeTypeResults(c.path, n)))
  {
    var m := MemberOf(n, "type");
    assert HasOwn(n, "type") == Ok(m.Some?);
    if m.Some? {
      var t := m.value;
      assert Prop(n, "type") == t;
      assert IsString(t) == Ok(t.JStr?);
      var c1 := Push(c, MemberSegment("type"));
      var c3 := Check(Check(c1, t.JStr?, NotString("type"), "section-4.3"), t.JStr? && t.s in NoticeAndRemarkTypes, NoticeTypeUnknown, "section-4.3");
      assert NoticeType(c, n) == Val(Pop(c3));
      assert c1.path[..|c1.path| - 1] == c.path;
      assert c3.log == c.log + NoticeTypeResults(c.path, n);
    } else {
      assert c.log + NoticeTypeResults(c.path, n) == c.log;
    }
  }

  /**
   * A notice or remark that is an object, and whose member checks return,
   * reports the message, a passing object test, and then its title,
   * description and type results, before anything its common properties
   * report.
   */
  lemma NoticeOrRemarkReported(c: Ctx, n: Json)
    requires n.JObj? && NoticeMembersReturn(n)
    ensures c.log + NoticeResults(c.path, n) <= Last(NoticeOrRemark(c, n)).log
  {
    var c3 := Check(SetSpec(Msg(c, ValidatingNoticeOrRemark), "rfc9083"), true, NoticeNotObject, "section-4.3");
    NoticeObjectUnfold(c, n);
    var c6 := NoticeMembersReported(c3, n);
    var rest := CommonObjectProperties(c6, n, None);
    var final := Last(rest).log;
    assert Last(NoticeOrRemark(c, n)).log == final;
    assert c6.log <= final;
    assert c6.log == c.log + NoticeResults(c.path, n) by {
      var head := [Result(JNull, ValidatingNoticeOrRemark, Join(c.path), None),
                   Result(JBool(true), NoticeNotObject, Join(c.path), Ref("rfc9083", "section-4.3"))];
      assert c3.log == c.log + head && c3.path == c.path;
      var m := NoticeMemberResults(c.path, n);
      assert c6.log == (c.log + head) + m;
      assert NoticeResults(c.path, n) == head + m;
      AppendAssociative(c.log, head, m);
    }
  }

  /** Appending is associative; stated once so that long logs are not compared element by element. */
  lemma AppendAssociative(a: seq<Result>, b: seq<Result>, d: seq<Result>)
    ensures a + (b + d) == (a + b) + d
  {
  }

  /** A notice or remark that is an object: the message, the passing object test, its members, and `currentSpec` given back. */
  lemma NoticeObjectUnfold(c: Ctx, n: Json)
    requires n.JObj?
    ensures NoticeOrRemark(c, n) ==
      match NoticeOrRemarkMembers(Check(SetSpec(Msg(c, ValidatingNoticeOrRemark), "rfc9083"), true, NoticeNotObject, "section-4.3"), n)
      case Thrown(at) => Thrown(at)
      case Val(c7) => Val(SetSpec(c7, c.spec))
  {
    assert IsObject(n) == Ok(true);
  }

  /** The members of a notice whose checks return report the title, description and type results, then the common properties. */
  lemma NoticeMembersReported(c: Ctx, n: Json) returns (d: Ctx)
    requires n.JObj? && NoticeMembersReturn(n) && c.spec == "rfc9083"
    ensures d == c.(log := c.log + NoticeMemberResults(c.path, n))
    ensures NoticeOrRemarkMembers(c, n) == CommonObjectProperties(d, n, None)
  {
    assert NoNullMember(n, [NoticeTitleRule]);
    MemberCheckReport(c, n, NoticeTitleRule);
    var c4 := c.(log := c.log + RuleResults(c.path, "rfc9083", n, NoticeTitleRule));
    DescriptionReported(c4, n);
    var c5 := c4.(log := c4.log + DescriptionResults(c4.path, n));
    NoticeTypeReported(c5, n);
    d := c5.(log := c5.log + NoticeTypeResults(c5.path, n));
    assert d.log == c.log + NoticeMemberResults(c.path, n);
  }

  /**
   * A notice's own results hold no failure exactly when it is an object
   * with a string title if any, a non-empty description of strings, and a
   * registered string type if any.
   */
  lemma NoticePasses(path: seq<string>, n: Json)
    ensures NoneFails(NoticeResults(path, n)) <==>
      n.JObj? && RuleSatisfied(n, NoticeTitleRule) &&
      MemberOf(n, "description").Some? && MemberOf(n, "description").value.JArr? &&
      |MemberOf(n, "description").value.elems| > 0 &&
      (forall i :: 0 <= i < |MemberOf(n, "description").value.elems| ==> MemberOf(n, "description").value.elems[i].JStr?) &&
      (MemberOf(n, "type").Some? ==> MemberOf(n, "type").value.JStr? && MemberOf(n, "type").value.s in NoticeAndRemarkTypes)
  {
    var head := [Result(JNull, ValidatingNoticeOrRemark, Join(path), None),
                 Result(JBool(n.JObj?), NoticeNotObject, Join(path), Ref("rfc9083", "section-4.3"))];
    var t := RuleResults(path, "rfc9083", n, NoticeTitleRule);
    var d := DescriptionResults(path, n);
    var y := NoticeTypeResults(path, n);
    assert NoticeMemberResults(path, n) == t + d + y;
    assert NoticeResults(path, n) == head + t + d + y;
    NoneFailsConcat(head + t + d, y);
    NoneFailsConcat(head + t, d);
    NoneFailsConcat(head, t);
    assert NoneFails(head) <==> n.JObj? by { assert head[1].verdict == JBool(n.JObj?); }
    RuleResultsPass(path, "rfc9083", n, NoticeTitleRule);
    var m := MemberOf(n, "description");
    assert NoneFails(d) <==> m.Some? && m.value.JArr? && |m.value.elems| > 0 && forall i :: 0 <= i < |m.value.elems| ==> m.value.elems[i].JStr? by {
      assert d[0].verdict == JBool(m.Some?);
      if m.Some? {
        DescriptionVerdictMeaning(m.value);
        assert d[1].verdict == JBool(m.value.JArr?);
        assert d[2].verdict == JBool(DescriptionVerdict(m.value) == Ok(true));
      }
    }
    var k := MemberOf(n, "type");
    assert NoneFails(y) <==> (k.Some? ==> k.value.JStr? && k.value.s in NoticeAndRemarkTypes) by {
      if k.Some? {
        assert y[0].verdict == JBool(k.value.JStr?);
        assert y[1].verdict == JBool(k.value.JStr? && k.value.s in NoticeAndRemarkTypes);
      }
    }
  }

  // ---------------------------------------------------------------------
  // iterate over a callback that validates

  /**
   * When `iterate` returns, the callback ran on every element from `i` on:
   * element `j` was checked at the path ending in `[j]`, after what came
   * before, and what it reported is kept in the final log.
   */
  lemma {:induction false} IterFromRunsEach(c: Ctx, elems: seq<Json>, cb: Callback, i: nat, j: nat) returns (cj: Ctx)
    requires i <= j < |elems| && IterFrom(c, elems, cb, i).Val?
    ensures cj.path == c.path + [IndexSegment(j)] && c.log <= cj.log
    ensures Invoke(cj, cb, elems[j]).Val? && Invoke(cj, cb, elems[j]).value.log <= IterFrom(c, elems, cb, i).value.log
    decreases j - i
  {
    IterFromStep(c, elems, cb, i);
    var first := Invoke(Push(c, IndexSegment(i)), cb, elems[i]);
    assert first.Val?;
    var c1 := first.value;
    assert IterFrom(c, elems, cb, i) == IterFrom(Pop(c1), elems, cb, i + 1);
    if j == i {
      cj := Push(c, IndexSegment(i));
      assert Last(IterFrom(Pop(c1), elems, cb, i + 1)).log == IterFrom(c, elems, cb, i).value.log;
    } else {
      assert c1.path[..|c1.path| - 1] == c.path;
      cj := IterFromRunsEach(Pop(c1), elems, cb, i + 1, j);
    }
  }

  /**
   * A `notices` array that is checked to the end reports the array test
   * under `.notices`, and every notice in it was checked, under its own
   * index, with what that check reported kept in the log.
   */
  lemma NoticesEach(c: Ctx, notices: Json, j: nat) returns (cj: Ctx)
    requires notices.JArr? && j < |notices.elems| && Responses.Notices(c, notices).Val?
    ensures c.log + [Result(JBool(true), NoticesNotArray, Join(c.path + [MemberSegment("notices")]), Ref("rfc9083", "section-4.3"))] <= Responses.Notices(c, notices).value.log
    ensures cj.path == c.path + [MemberSegment("notices"), IndexSegment(j)]
    ensures NoticeOrRemark(cj, notices.elems[j]).Val? && NoticeOrRemark(cj, notices.elems[j]).value.log <= Responses.Notices(c, notices).value.log
  {
    var c2 := Check(Push(SetSpec(c, "rfc9083"), MemberSegment("notices")), true, NoticesNotArray, "section-4.3");
    assert IsArray(notices) == Ok(true);
    var it := IterFrom(c2, notices.elems, EachNoticeOrRemark, 0);
    assert Responses.Notices(c, notices) == if it.Thrown? then it else Val(Pop(it.value));
    cj := IterFromRunsEach(c2, notices.elems, EachNoticeOrRemark, 0, j);
  }

  /**
   * A gTLD response with a `rdapConformance` array reports, under
   * `.rdapConformance`, the two profile identifier results as written and
   * then one registration result per entry other than "rdap_level_0", and
   * gives back the path.
   */
  lemma ProfileConformanceReported(c: Ctx, response: Json)
    requires response.JObj? && MemberOf(response, "rdapConformance").Some? && MemberOf(response, "rdapConformance").value.JArr?
    ensures var conf := MemberOf(response, "rdapConformance").value;
      var c1 := Push(c, MemberSegment("rdapConformance"));
      var c3 := Gtld.ProfileIdsAsWritten(c1, conf.elems);
      Gtld.ProfileConformance(c, response) ==
        Val(c.(log := c3.log + AssertionResults(c1.path, c.spec, RegisteredExtension, NonBaseEntries(conf.elems), 0)))
  {
    var conf := MemberOf(response, "rdapConformance").value;
    var c1 := Push(c, MemberSegment("rdapConformance"));
    var c3 := Gtld.ProfileIdsAsWritten(c1, conf.elems);
    assert HasOwn(response, "rdapConformance") == Ok(true);
    assert IsArray(Prop(response, "rdapConformance")) == Ok(true);
    var rs := AssertionsIterated(c3, NonBaseEntries(conf.elems), RegisteredExtension);
    assert Pop(c3.(log := c3.log + rs)) == c.(log := c3.log + rs);
  }
}
