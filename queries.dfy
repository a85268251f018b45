/**
 * The pure parts of the checks: the per-element assertions `iterate` is
 * given, the member type tests, and the queries some checks evaluate
 * before they report (role tests on entities, the registrar's IANA
 * identifiers, the notices a gTLD domain must carry, the event actions it
 * lists, the parts of a vCard address). Each throws exactly where the
 * JavaScript expression it models does.
 */
module Queries {
  import opened Wrappers
  import opened Json
  import opened JsRuntime
  import opened Predicates
  import opened Tables

  /** The closures that `iterate` is given which report exactly one result per element. */
  datatype Assertion =
    | RoleValue            // entity roles, lib/rdap-validator.js:484-490
    | StatusValue          // status values, lib/rdap-validator.js:1135-1142
    | ParameterName        // jCard parameter names, lib/rdap-validator.js:624-630
    | RegisteredExtension  // gTLD rdapConformance entries, lib/rdap-validator.js:1586-1592
    | IPv4Address          // nameserver v4 addresses, lib/rdap-validator.js:719-733
    | IPv6Address          // nameserver v6 addresses

  function AssertionPasses(a: Assertion, x: Json): bool
  {
    match a
    case RoleValue => x.JStr? && x.s in Roles
    case StatusValue => x.JStr? && x.s in StatusValues
    case ParameterName => x.JStr? && Upper(x.s) in JCardParameters
    case RegisteredExtension => x.JStr? && x.s in Extensions
    case IPv4Address => IPv4Text(Show(x))
    case IPv6Address => IPv6Text(Show(x))
  }

  function AssertionMessage(a: Assertion, x: Json): string
  {
    match a
    case RoleValue => "Role '" + Show(x) + "' MUST be a valid RDAP value."
    case StatusValue => "Status '" + Show(x) + "' MUST be a valid status."
    case ParameterName => "Parameter name '" + Show(x) + "' MUST be present in the IANA registry"
    case RegisteredExtension => "The '" + Show(x) + "' extension MUST be registered with IANA."
    case IPv4Address => "The value '" + Show(x) + "' MUST be a valid IPv4 address."
    case IPv6Address => "The value '" + Show(x) + "' MUST be a valid IPv6 address."
  }

  function AssertionFragment(a: Assertion): string
  {
    if a == StatusValue then "section-10.2.2" else ""
  }

  /** A role is accepted exactly when it is one of the registered role strings. */
  lemma RoleAssertionMeaning(x: Json)
    ensures AssertionPasses(RoleValue, x) <==> exists i :: 0 <= i < |Roles| && x == JStr(Roles[i])
  {
    if AssertionPasses(RoleValue, x) {
      var i :| 0 <= i < |Roles| && Roles[i] == x.s;
    }
  }

  /** The type tests `add` is given in the member checks. */
  datatype ValueKind = StringKind | IntegerKind | BooleanKind

  function TypeTest(kind: ValueKind, v: Json): (r: Js<bool>)
    ensures r.Throw? <==> v.JNull?
    ensures r.Ok? ==> (r.value <==> (kind == StringKind && v.JStr?) || (kind == IntegerKind && v.JInt?) || (kind == BooleanKind && v.JBool?))
  {
    match kind
    case StringKind => IsString(v)
    case IntegerKind => IsInteger(v)
    case BooleanKind => IsBoolean(v)
  }


  /**
   * One member check of a validator's list of them: the member, the kind
   * its value must have, the failure reported when a required member is
   * missing, the one reported for a value of another kind, and the section
   * both cite.
   */
  datatype MemberRule = MemberRule(key: string, kind: ValueKind, presence: Option<string>, typeMessage: string, fragment: string)


  /** An object obeys a rule when the member is there if required and has the rule's kind if there. */
  predicate RuleSatisfied(obj: Json, rule: MemberRule)
  {
    (rule.presence.Some? ==> MemberOf(obj, rule.key).Some?) &&
    (MemberOf(obj, rule.key).Some? ==> TypeTest(rule.kind, MemberOf(obj, rule.key).value) == Ok(true))
  }


  /** `n[0].toUpperCase()` for one jCard property `n`. */
  function FirstItemUpper(n: Json): (r: Js<string>)
    ensures r.Ok? ==> n.JObj? || n.JArr? || n.JStr?
    ensures n.JArr? ==> r == if |n.elems| > 0 && n.elems[0].JStr? then Ok(Upper(n.elems[0].s)) else Throw
    ensures n.JStr? ==> r == if |n.s| > 0 then Ok(Upper([n.s[0]])) else Throw
    ensures n.JObj? ==> r == if MemberOf(n, "0").Some? && MemberOf(n, "0").value.JStr? then Ok(Upper(MemberOf(n, "0").value.s)) else Throw
  {
    assert NatToString(0) == "0";
    var first :- At(n, 0);
    ToUpperCase(first)
  }

  /**
   * `jcard.filter((n) => r === n[0].toUpperCase()).length > 0`: the filter
   * visits every property, so any one whose first item is not a string
   * throws, even after a match.
   */
  function PropertyNamePresent(props: seq<Json>, name: string): Js<bool>
  {
    if props == [] then Ok(false)
    else
      var front :- PropertyNamePresent(props[..|props| - 1], name);
      var last :- FirstItemUpper(props[|props| - 1]);
      Ok(front || last == name)
  }

  /** The filter throws exactly when some property's first item is not a string, and otherwise finds the name iff some property bears it. */
  lemma {:induction false} PropertyNamePresentMeaning(props: seq<Json>, name: string)
    ensures PropertyNamePresent(props, name).Throw? <==> exists i :: 0 <= i < |props| && FirstItemUpper(props[i]).Throw?
    ensures PropertyNamePresent(props, name).Ok? ==>
      (PropertyNamePresent(props, name).value <==> exists i :: 0 <= i < |props| && FirstItemUpper(props[i]) == Ok(name))
  {
    if props != [] {
      PropertyNamePresentMeaning(props[..|props| - 1], name);
      assert forall i :: 0 <= i < |props| - 1 ==> props[..|props| - 1][i] == props[i];
    }
  }

  /** How many records an own array member `p` of a secureDNS object holds; none when it is absent or not an array. */
  function RecordCount(secureDNS: Json, p: string): nat
  {
    if !secureDNS.JObj? then 0
    else
      match Lookup(secureDNS.members, p)
      case Some(JArr(a)) => |a|
      case _ => 0
  }

  /** The number of DS and key records a secureDNS object holds. */
  function DnssecRecordCount(secureDNS: Json): nat
  {
    RecordCount(secureDNS, "dsData") + RecordCount(secureDNS, "keyData")
  }

  /** `isObject(e) && e.hasOwnProperty("roles") && isArray(e.roles) && e.roles.includes(role)`. */
  function HasRole(e: Json, role: string): (r: Js<bool>)
    ensures r.Throw? <==> e.JNull? || MemberOf(e, "roles") == Some(JNull)
    ensures r.Ok? ==> (r.value <==> MemberOf(e, "roles").Some? && MemberOf(e, "roles").value.JArr? && JStr(role) in MemberOf(e, "roles").value.elems)
    ensures r == Ok(true) ==> e.JObj?
  {
    var isObject :- IsObject(e);
    if !isObject then Ok(false)
    else
      var hasRoles :- HasOwn(e, "roles");
      if !hasRoles then Ok(false)
      else
        var roles :- Get(e, "roles");
        var isArray :- IsArray(roles);
        if !isArray then Ok(false) else IncludesValue(roles, JStr(role))
  }

  /**
   * `entities.filter((e) => <e has the role>).shift()` tested with
   * `isObject`: whether some entity has the role. The filter visits every
   * entity, so one that makes the test throw throws even after a match.
   */
  function SomeWithRole(entities: seq<Json>, role: string): (r: Js<bool>)
    ensures r.Throw? <==> exists i :: 0 <= i < |entities| && HasRole(entities[i], role).Throw?
    ensures r.Ok? ==> (r.value <==> exists i :: 0 <= i < |entities| && HasRole(entities[i], role) == Ok(true))
  {
    if entities == [] then Ok(false)
    else
      var front :- SomeWithRole(entities[..|entities| - 1], role);
      var last :- HasRole(entities[|entities| - 1], role);
      assert forall i :: 0 <= i < |entities| - 1 ==> entities[..|entities| - 1][i] == entities[i];
      Ok(front || last)
  }

  /**
   * The index of the first entity with the role at or after `from`: the
   * registrar check's `for` loop, which stops at the first match and
   * otherwise ends at the length of the list. An entity the role test
   * throws on before a match is found ends the loop with the exception.
   */
  function FirstRoleIndex(entities: seq<Json>, role: string, from: nat): (r: Js<nat>)
    requires from <= |entities|
    ensures r.Ok? ==> from <= r.value <= |entities|
    decreases |entities| - from
  {
    if from == |entities| then Ok(from)
    else
      var found :- HasRole(entities[from], role);
      if found then Ok(from) else FirstRoleIndex(entities, role, from + 1)
  }

  /**
   * The search stops at the first entity with the role, after entities
   * without it, and throws exactly when the role test throws on an entity
   * before any match.
   */
  lemma {:induction false} FirstRoleIndexMeaning(entities: seq<Json>, role: string, from: nat)
    requires from <= |entities|
    ensures FirstRoleIndex(entities, role, from).Throw? <==>
      exists i :: from <= i < |entities| && HasRole(entities[i], role).Throw? &&
        forall j :: from <= j < i ==> HasRole(entities[j], role) == Ok(false)
    ensures FirstRoleIndex(entities, role, from).Ok? ==>
      var k := FirstRoleIndex(entities, role, from).value;
      (forall j :: from <= j < k ==> HasRole(entities[j], role) == Ok(false)) &&
      (k < |entities| ==> HasRole(entities[k], role) == Ok(true))
    decreases |entities| - from
  {
    if from < |entities| && HasRole(entities[from], role) == Ok(false) {
      FirstRoleIndexMeaning(entities, role, from + 1);
    }
  }

  /** The registrar entity check's `for` loop looking for the abuse contact. */
  method FirstWithRole(entities: seq<Json>, role: string) returns (r: Js<nat>)
    ensures r == FirstRoleIndex(entities, role, 0)
  {
    var i := 0;
    while i < |entities|
      invariant i <= |entities|
      invariant FirstRoleIndex(entities, role, i) == FirstRoleIndex(entities, role, 0)
    {
      var found := HasRole(entities[i], role);
      if found.Throw? {
        return Throw;
      }
      if found.value {
        return Ok(i);
      }
      i := i + 1;
    }
    return Ok(i);
  }

  /** `"IANA Registrar ID" == id.type`, for an identifier that can be read. */
  predicate IsIanaId(id: Json)
  {
    match Get(id, "type")
    case Ok(t) => LooseEqualsText(t, "IANA Registrar ID")
    case Throw => false
  }

  function IanaIdsOf(ids: seq<Json>): (r: Js<seq<Json>>)
    ensures r.Throw? <==> exists i :: 0 <= i < |ids| && Nullish(ids[i])
    ensures r.Ok? ==> |r.value| <= |ids| && forall x :: x in r.value <==> x in ids && IsIanaId(x)
  {
    if ids == [] then Ok([])
    else
      var front :- IanaIdsOf(ids[..|ids| - 1]);
      var last := ids[|ids| - 1];
      if Nullish(last) then Throw
      else
        assert ids == ids[..|ids| - 1] + [last];
        Ok(if IsIanaId(last) then front + [last] else front)
  }

  /**
   * `publicIds.filter((id) => type == id.type)`: only an array has
   * `filter`, and reading `type` of a `null` identifier throws.
   */
  function IanaIds(publicIds: Json): (r: Js<seq<Json>>)
    ensures r.Throw? <==> !publicIds.JArr? || exists i :: 0 <= i < |publicIds.elems| && Nullish(publicIds.elems[i])
    ensures r.Ok? ==> |r.value| <= |publicIds.elems| && forall x :: x in r.value <==> x in publicIds.elems && IsIanaId(x)
  {
    if publicIds.JArr? then IanaIdsOf(publicIds.elems) else Throw
  }

  /** A string of the registrar's IANA identifier type matches; one that merely contains it does not. */
  lemma IanaIdTypeMatches(rest: seq<Member>)
    ensures IsIanaId(JObj([Member("type", JStr("IANA Registrar ID"))] + rest))
    ensures !IsIanaId(JObj([Member("type", JStr("IANA Registrar ID 2"))] + rest))
  {
  }

  /**
   * A link qualifying a domain's required notice:
   * `isObject(l) && l.hasOwnProperty("rel") && rel === l.rel && l.hasOwnProperty("href") && href === n.href`,
   * where `n` is the notice. The last test reads the notice's `href`, not the link's.
   */
  function LinkQualifies(l: Json, n: Json, rel: string, href: string): (r: Js<bool>)
    ensures r.Throw? <==> l.JNull? || (l.JObj? && Lookup(l.members, "rel") == Some(JStr(rel)) && Lookup(l.members, "href").Some? && Nullish(n))
    ensures r.Ok? ==> (r.value <==> (l.JObj? && Lookup(l.members, "rel") == Some(JStr(rel)) && Lookup(l.members, "href").Some? &&
                                     MemberOf(n, "href") == Some(JStr(href))))
  {
    var isObject :- IsObject(l);
    if !isObject then Ok(false)
    else
      var hasRel :- HasOwn(l, "rel");
      var relValue :- Get(l, "rel");
      if !hasRel || relValue != JStr(rel) then Ok(false)
      else
        var hasHref :- HasOwn(l, "href");
        if !hasHref then Ok(false)
        else
          var noticeHref :- Get(n, "href");
          Ok(noticeHref == JStr(href))
  }

  /** `links.filter((l) => <l qualifies>).length > 0`. */
  function SomeLinkQualifies(links: seq<Json>, n: Json, rel: string, href: string): (r: Js<bool>)
    ensures r.Throw? <==> exists i :: 0 <= i < |links| && LinkQualifies(links[i], n, rel, href).Throw?
    ensures r.Ok? ==> (r.value <==> exists i :: 0 <= i < |links| && LinkQualifies(links[i], n, rel, href) == Ok(true))
  {
    if links == [] then Ok(false)
    else
      var front :- SomeLinkQualifies(links[..|links| - 1], n, rel, href);
      var last :- LinkQualifies(links[|links| - 1], n, rel, href);
      assert forall i :: 0 <= i < |links| - 1 ==> links[..|links| - 1][i] == links[i];
      Ok(front || last)
  }

  /**
   * A notice counted by the domain's notice checks: an object with the
   * given title and a `links` array holding a qualifying link.
   */
  function NoticeQualifies(n: Json, title: string, rel: string, href: string): (r: Js<bool>)
    ensures r.Throw? ==> n.JNull? || n.JObj?
    ensures r == Ok(true) ==> n.JObj? && Lookup(n.members, "title") == Some(JStr(title)) && Lookup(n.members, "href") == Some(JStr(href))
    ensures r.Throw? <==> (n.JNull? || (n.JObj? && Lookup(n.members, "title") == Some(JStr(title)) && Lookup(n.members, "links").Some? &&
      (Lookup(n.members, "links").value.JNull? || (Lookup(n.members, "links").value.JArr? && JNull in Lookup(n.members, "links").value.elems))))
    ensures r == Ok(true) <==> (n.JObj? && Lookup(n.members, "title") == Some(JStr(title)) && Lookup(n.members, "href") == Some(JStr(href)) &&
      Lookup(n.members, "links").Some? && Lookup(n.members, "links").value.JArr? && JNull !in Lookup(n.members, "links").value.elems &&
      exists l :: l in Lookup(n.members, "links").value.elems && l.JObj? && Lookup(l.members, "rel") == Some(JStr(rel)) && Lookup(l.members, "href").Some?)
  {
    var isObject :- IsObject(n);
    if !isObject then Ok(false)
    else
      var t :- Get(n, "title");
      if t != JStr(title) then Ok(false)
      else
        var hasLinks :- HasOwn(n, "links");
        if !hasLinks then Ok(false)
        else
          var links :- Get(n, "links");
          var isArray :- IsArray(links);
          if !isArray then Ok(false) else SomeLinkQualifies(links.elems, n, rel, href)
  }

  /** `notices.filter((n) => <n qualifies>).length`. */
  function QualifyingNotices(notices: seq<Json>, title: string, rel: string, href: string): (r: Js<nat>)
    ensures r.Throw? <==> exists i :: 0 <= i < |notices| && NoticeQualifies(notices[i], title, rel, href).Throw?
    ensures r.Ok? ==> r.value <= |notices|
    ensures r.Ok? && r.value > 0 ==> exists i :: 0 <= i < |notices| && NoticeQualifies(notices[i], title, rel, href) == Ok(true)
  {
    if notices == [] then Ok(0)
    else
      var front :- QualifyingNotices(notices[..|notices| - 1], title, rel, href);
      var last :- NoticeQualifies(notices[|notices| - 1], title, rel, href);
      assert forall i :: 0 <= i < |notices| - 1 ==> notices[..|notices| - 1][i] == notices[i];
      Ok(front + if last then 1 else 0)
  }

  /** The count is exactly the number of positions holding a qualifying notice. */
  lemma {:induction false} QualifyingNoticesCount(notices: seq<Json>, title: string, rel: string, href: string)
    ensures QualifyingNotices(notices, title, rel, href).Ok? ==>
      QualifyingNotices(notices, title, rel, href).value == |QualifyingIndices(notices, title, rel, href)|
  {
    if notices == [] {
      assert QualifyingIndices(notices, title, rel, href) == {};
    } else {
      QualifyingNoticesCount(notices[..|notices| - 1], title, rel, href);
      QualifyingIndicesSplit(notices, title, rel, href);
    }
  }

  /** The positions of the notices that qualify. */
  function QualifyingIndices(notices: seq<Json>, title: string, rel: string, href: string): set<int>
  {
    set i | 0 <= i < |notices| && NoticeQualifies(notices[i], title, rel, href) == Ok(true)
  }

  /** The last notice adds its own position, or nothing, to the positions among the others. */
  lemma QualifyingIndicesSplit(notices: seq<Json>, title: string, rel: string, href: string)
    requires |notices| > 0
    ensures var front := QualifyingIndices(notices[..|notices| - 1], title, rel, href);
      |QualifyingIndices(notices, title, rel, href)| ==
        |front| + if NoticeQualifies(notices[|notices| - 1], title, rel, href) == Ok(true) then 1 else 0
  {
    var f := n => NoticeQualifies(n, title, rel, href) == Ok(true);
    assert QualifyingIndices(notices, title, rel, href) == IndicesWhere(notices, f);
    assert QualifyingIndices(notices[..|notices| - 1], title, rel, href) == IndicesWhere(notices[..|notices| - 1], f);
    IndicesWhereSplit(notices, f);
  }

  function IndicesWhere<T>(s: seq<T>, f: T -> bool): set<int>
  {
    set i | 0 <= i < |s| && f(s[i])
  }

  lemma IndicesWhereSplit<T>(s: seq<T>, f: T -> bool)
    requires |s| > 0
    ensures |IndicesWhere(s, f)| == |IndicesWhere(s[..|s| - 1], f)| + if f(s[|s| - 1]) then 1 else 0
  {
    var k := |s| - 1;
    var front := IndicesWhere(s[..k], f);
    assert forall i :: 0 <= i < k ==> s[..k][i] == s[i];
    if f(s[k]) {
      assert IndicesWhere(s, f) == front + {k};
    } else {
      assert IndicesWhere(s, f) == front;
    }
  }

  /** The link test the notice check evidently means: the link's own `rel` and `href`. */
  function LinkQualifiesIntended(l: Json, rel: string, href: string): (r: Js<bool>)
    ensures r.Throw? <==> l.JNull?
    ensures r.Ok? ==> (r.value <==> MemberOf(l, "rel") == Some(JStr(rel)) && MemberOf(l, "href") == Some(JStr(href)))
  {
    var isObject :- IsObject(l);
    if !isObject then Ok(false)
    else
      var hasRel :- HasOwn(l, "rel");
      var relValue :- Get(l, "rel");
      if !hasRel || relValue != JStr(rel) then Ok(false)
      else
        var hasHref :- HasOwn(l, "href");
        var hrefValue :- Get(l, "href");
        Ok(hasHref && hrefValue == JStr(href))
  }

  /**
   * A notice whose link carries the right `rel` and `href` is not counted
   * when the notice itself has no `href`: the check reads the wrong object.
   * The intended test accepts the link.
   */
  lemma NoticeLinkHrefIgnored(title: string, rel: string, href: string)
    ensures NoticeQualifies(
      JObj([Member("title", JStr(title)),
            Member("links", JArr([JObj([Member("rel", JStr(rel)), Member("href", JStr(href))])]))]),
      title, rel, href) == Ok(false)
    ensures LinkQualifiesIntended(JObj([Member("rel", JStr(rel)), Member("href", JStr(href))]), rel, href) == Ok(true)
  {
    var link := JObj([Member("rel", JStr(rel)), Member("href", JStr(href))]);
    var notice := JObj([Member("title", JStr(title)), Member("links", JArr([link]))]);
    assert Lookup(notice.members, "href") == None by {
      var m := notice.members;
      assert "title"[0] != "href"[0] && "links"[0] != "href"[0];
      assert m[1..][1..] == [];
      assert Lookup(m[1..], "href") == Lookup(m[1..][1..], "href") == None;
    }
    assert "title"[0] != "links"[0] && "rel"[0] != "href"[0];
    assert Lookup(notice.members, "links") == Some(JArr([link]));
    assert Lookup(link.members, "href") == Some(JStr(href));
    assert LinkQualifies(link, notice, rel, href) == Ok(false);
    assert SomeLinkQualifies([link], notice, rel, href) == Ok(false) by {
      assert [link][..0] == [];
    }
  }

  /**
   * The domain check's event scan: `seen[e.eventAction] = 1` for every
   * object event that has an action, so that `Object.keys(seen)` lists the
   * actions as strings. Testing a `null` event throws.
   */
  function ActionsSeen(events: seq<Json>): (r: Js<set<string>>)
  {
    if events == [] then Ok({})
    else
      var front :- ActionsSeen(events[..|events| - 1]);
      var e := events[|events| - 1];
      var isObject :- IsObject(e);
      if isObject && Lookup(e.members, "eventAction").Some? then Ok(front + {Show(Lookup(e.members, "eventAction").value)})
      else Ok(front)
  }

  /** The scan throws exactly at a `null` event, and otherwise has seen exactly the actions the object events carry, as strings. */
  lemma {:induction false} ActionsSeenMeaning(events: seq<Json>)
    ensures ActionsSeen(events).Throw? <==> exists i :: 0 <= i < |events| && events[i].JNull?
    ensures ActionsSeen(events).Ok? ==> forall a :: a in ActionsSeen(events).value <==>
      exists i :: 0 <= i < |events| && MemberOf(events[i], "eventAction").Some? && Show(MemberOf(events[i], "eventAction").value) == a
  {
    if events != [] {
      var n := |events| - 1;
      ActionsSeenMeaning(events[..n]);
      assert forall i :: 0 <= i < n ==> events[..n][i] == events[i];
    }
  }

  /** Once the scan throws on a prefix of the events, it throws on the whole list. */
  lemma {:induction false} ActionsSeenThrowsOn(events: seq<Json>, k: nat)
    requires k <= |events| && ActionsSeen(events[..k]).Throw?
    ensures ActionsSeen(events).Throw?
    decreases |events| - k
  {
    if k < |events| {
      assert events[..k + 1][..k] == events[..k];
      ActionsSeenThrowsOn(events, k + 1);
    } else {
      assert events[..k] == events;
    }
  }

  /** The scan as the domain check writes it, a `forEach` over the events. */
  method EventActionsSeen(events: seq<Json>) returns (r: Js<set<string>>)
    ensures r == ActionsSeen(events)
  {
    var seen: set<string> := {};
    var i := 0;
    while i < |events|
      invariant i <= |events|
      invariant ActionsSeen(events[..i]) == Ok(seen)
    {
      assert events[..i + 1][..i] == events[..i];
      var isObject := IsObject(events[i]);
      if isObject.Throw? {
        ActionsSeenThrowsOn(events, i + 1);
        return Throw;
      }
      if isObject.value && Lookup(events[i].members, "eventAction").Some? {
        seen := seen + {Show(Lookup(events[i].members, "eventAction").value)};
      }
      i := i + 1;
    }
    assert events[..i] == events;
    return Ok(seen);
  }

  /** `"last update of RDAP database" == e.eventAction` for one event that can be read. */
  predicate ReportsLastUpdate(e: Json)
  {
    match Get(e, "eventAction")
    case Ok(a) => LooseEqualsText(a, "last update of RDAP database")
    case Throw => false
  }

  function SomeReportsLastUpdate(events: seq<Json>): (r: Js<bool>)
    ensures r.Throw? <==> exists i :: 0 <= i < |events| && Nullish(events[i])
    ensures r.Ok? ==> (r.value <==> exists i :: 0 <= i < |events| && ReportsLastUpdate(events[i]))
  {
    if events == [] then Ok(false)
    else
      var front :- SomeReportsLastUpdate(events[..|events| - 1]);
      var last := events[|events| - 1];
      if Nullish(last) then Throw
      else
        assert forall i :: 0 <= i < |events| - 1 ==> events[..|events| - 1][i] == events[i];
        Ok(front || ReportsLastUpdate(last))
  }

  /** `events.filter((e) => "last update of RDAP database" == e.eventAction).length > 0`. */
  function LastUpdatePresent(events: Json): (r: Js<bool>)
    ensures r.Throw? <==> !events.JArr? || exists i :: 0 <= i < |events.elems| && Nullish(events.elems[i])
    ensures r.Ok? ==> (r.value <==> exists i :: 0 <= i < |events.elems| && ReportsLastUpdate(events.elems[i]))
  {
    if events.JArr? then SomeReportsLastUpdate(events.elems) else Throw
  }

  /** `keys.filter((k) => name == k.toUpperCase()).shift()`. */
  function FirstKeyMatching(keys: seq<string>, name: string): (r: Option<string>)
    ensures r.None? <==> forall i :: 0 <= i < |keys| ==> Upper(keys[i]) != name
    ensures r.Some? ==> r.value in keys && Upper(r.value) == name
    ensures r.Some? ==> exists j :: 0 <= j < |keys| && keys[j] == r.value && forall i :: 0 <= i < j ==> Upper(keys[i]) != name
  {
    if keys == [] then None
    else if Upper(keys[0]) == name then Some(keys[0])
    else
      var rest := FirstKeyMatching(keys[1..], name);
      assert forall i :: 1 <= i < |keys| ==> keys[1..][i - 1] == keys[i];
      rest
  }

  /** The TEL check: the parameter under the first name spelling `type` in any case is `voice` or `fax`. */
  function TelTypeVerdict(params: seq<Member>): (r: bool)
    ensures r ==> exists k :: k in KeysOf(params) && Upper(k) == "TYPE"
    ensures r <==> exists j :: 0 <= j < |params| && FirstTypeParameter(params, j) && params[j].value in {JStr("voice"), JStr("fax")}
  {
    KeysOfKeys(params);
    match FirstKeyMatching(KeysOf(params), "TYPE")
    case None => false
    case Some(k) =>
      TypeParameterFound(params, k);
      Lookup(params, k) == Some(JStr("voice")) || Lookup(params, k) == Some(JStr("fax"))
  }

  /** Parameter `j` is the first whose name spells `type` in some case. */
  predicate FirstTypeParameter(params: seq<Member>, j: int)
    requires 0 <= j < |params|
  {
    Upper(params[j].key) == "TYPE" && forall i :: 0 <= i < j ==> Upper(params[i].key) != "TYPE"
  }

  /** The key the search finds is the first type parameter's, and a lookup reads that parameter. */
  lemma TypeParameterFound(params: seq<Member>, k: string)
    requires FirstKeyMatching(KeysOf(params), "TYPE") == Some(k)
    ensures exists j :: 0 <= j < |params| && FirstTypeParameter(params, j) && params[j].key == k && Lookup(params, k) == Some(params[j].value)
    ensures forall j :: 0 <= j < |params| && FirstTypeParameter(params, j) ==> params[j].key == k && Lookup(params, k) == Some(params[j].value)
  {
    KeysOfKeys(params);
    var j :| 0 <= j < |KeysOf(params)| && KeysOf(params)[j] == k && forall i :: 0 <= i < j ==> Upper(KeysOf(params)[i]) != "TYPE";
    assert FirstTypeParameter(params, j);
    LookupFirst(params, j);
    forall j' | 0 <= j' < |params| && FirstTypeParameter(params, j')
      ensures j' == j
    {
    }
  }

  /** The parameter name is matched in any case, the value exactly. */
  lemma TelTypeSpellings()
    ensures TelTypeVerdict([Member("Type", JStr("fax"))])
    ensures !TelTypeVerdict([Member("type", JStr("Voice"))])
  {
    assert Upper("Type") == "TYPE";
    assert Upper("type") == "TYPE";
  }

  /**
   * `(isString(x) && x.length > 0) || (isArray(x) && x.filter((s) => s.length > 0).length > 0)`,
   * the street part of an address.
   */
  function StreetPresent(x: Json): (r: Js<bool>)
    ensures r.Throw? <==> x.JNull? || (x.JArr? && exists i :: 0 <= i < |x.elems| && Nullish(x.elems[i]))
    ensures r.Ok? ==> (r.value <==> (x.JStr? && |x.s| > 0) || (x.JArr? && exists i :: 0 <= i < |x.elems| && LengthPositive(x.elems[i]) == Ok(true)))
  {
    var isString :- IsString(x);
    if isString && |x.s| > 0 then Ok(true)
    else
      var isArray :- IsArray(x);
      if !isArray then Ok(false) else SomeNonEmpty(x.elems)
  }

  function SomeNonEmpty(a: seq<Json>): (r: Js<bool>)
    ensures r.Throw? <==> exists i :: 0 <= i < |a| && Nullish(a[i])
    ensures r.Ok? ==> (r.value <==> exists i :: 0 <= i < |a| && LengthPositive(a[i]) == Ok(true))
  {
    if a == [] then Ok(false)
    else
      var front :- SomeNonEmpty(a[..|a| - 1]);
      var last :- LengthPositive(a[|a| - 1]);
      assert forall i :: 0 <= i < |a| - 1 ==> a[..|a| - 1][i] == a[i];
      Ok(front || last)
  }

  /** `isString(x) && x.length > 0`, the city part of an address. */
  function CityPresent(x: Json): (r: Js<bool>)
    ensures r.Throw? <==> x.JNull?
    ensures r.Ok? ==> (r.value <==> x.JStr? && |x.s| > 0)
  {
    var isString :- IsString(x);
    Ok(isString && |x.s| > 0)
  }

  /** `props.filter((p) => isArray(p)).map((p) => p[0].toUpperCase())`. */
  function ArrayPropertyNames(props: seq<Json>): (r: Js<seq<string>>)
    ensures r.Throw? <==> exists i :: 0 <= i < |props| && (props[i].JNull? || (props[i].JArr? && FirstItemUpper(props[i]).Throw?))
  {
    if props == [] then Ok([])
    else
      var front :- ArrayPropertyNames(props[..|props| - 1]);
      var last := props[|props| - 1];
      assert forall i :: 0 <= i < |props| - 1 ==> props[..|props| - 1][i] == props[i];
      var isArray :- IsArray(last);
      if !isArray then Ok(front)
      else
        var name :- FirstItemUpper(last);
        Ok(front + [name])
  }

  /**
   * `validategTLDRegistrantEntity`: it collects the names of the
   * registrant's vCard properties and reports nothing, so all it can do to
   * a run is throw.
   */
  function GTLDRegistrantEntity(rant: Json): (r: Outcome)
    ensures r.Throw? <==> (rant.JNull? ||
      (MemberOf(rant, "vcardArray").Some? && (MemberOf(rant, "vcardArray").value.JNull? ||
        (MemberOf(rant, "vcardArray").value.JArr? && SecondItem(MemberOf(rant, "vcardArray").value).JNull?) ||
        (MemberOf(rant, "vcardArray").value.JArr? && SecondItem(MemberOf(rant, "vcardArray").value).JArr? &&
          ArrayPropertyNames(SecondItem(MemberOf(rant, "vcardArray").value).elems).Throw?))))
  {
    var isObject :- IsObject(rant);
    if !isObject then Done
    else
      var hasCard :- HasOwn(rant, "vcardArray");
      if !hasCard then Done
      else
        var card :- Get(rant, "vcardArray");
        var isArray :- IsArray(card);
        if !isArray then Done
        else
          var items :- At(card, 1);
          var itemsArray :- IsArray(items);
          if !itemsArray then Done
          else
            var names :- ArrayPropertyNames(items.elems);
            Done
  }

  /** `vcardArray[1]` of an array. */
  function SecondItem(card: Json): Json
    requires card.JArr?
  {
    if |card.elems| > 1 then card.elems[1] else JUndefined
  }

  /** The JSONPath segment the registrar check pushes for the IANA identifier it looks for. */
  const IanaIdSegment: string := "[?('IANA Registrar ID' == @.type)][0]"

  /** `rdapConformance.filter((s) => s != "rdap_level_0")`. */
  function NonBaseEntries(a: seq<Json>): (r: seq<Json>)
    ensures |r| <= |a|
    ensures forall x :: x in r <==> x in a && !LooseEqualsText(x, "rdap_level_0")
  {
    if a == [] then []
    else
      var front := NonBaseEntries(a[..|a| - 1]);
      var last := a[|a| - 1];
      assert a == a[..|a| - 1] + [last];
      if LooseEqualsText(last, "rdap_level_0") then front else front + [last]
  }

  /** Loose inequality also drops an array whose only element is the base level. */
  lemma NestedBaseLevelDropped()
    ensures NonBaseEntries([JArr([JStr("rdap_level_0")]), JStr("redacted")]) == [JStr("redacted")]
  {
    assert [JArr([JStr("rdap_level_0")]), JStr("redacted")][..1] == [JArr([JStr("rdap_level_0")])];
    assert [JArr([JStr("rdap_level_0")]), JStr("redacted")][..1][..0] == [];
  }

  /** The abuse contact scan: `seen[p[0].toUpperCase()] = 1` for every vCard property. */
  function NamesSeen(props: seq<Json>): (r: Js<set<string>>)
  {
    if props == [] then Ok({})
    else
      var front :- NamesSeen(props[..|props| - 1]);
      var name :- FirstItemUpper(props[|props| - 1]);
      Ok(front + {name})
  }

  /** The scan throws exactly when some property's name is not a string, and otherwise has seen exactly the properties' names. */
  lemma NamesSeenMeaning(props: seq<Json>)
    ensures NamesSeen(props).Throw? <==> exists i :: 0 <= i < |props| && FirstItemUpper(props[i]).Throw?
    ensures NamesSeen(props).Ok? ==> forall n :: n in NamesSeen(props).value <==> exists i :: 0 <= i < |props| && FirstItemUpper(props[i]) == Ok(n)
  {
    NamesSeenThrows(props);
    if NamesSeen(props).Ok? {
      NamesSeenNames(props);
    }
  }

  /** The scan throws exactly when some property's name cannot be upper-cased. */
  lemma {:induction false} NamesSeenThrows(props: seq<Json>)
    ensures NamesSeen(props).Throw? <==> exists i :: 0 <= i < |props| && FirstItemUpper(props[i]).Throw?
  {
    if props != [] {
      var k := |props| - 1;
      var front := props[..k];
      NamesSeenThrows(front);
      assert forall i :: 0 <= i < k ==> front[i] == props[i];
    }
  }

  /** A scan that returns has seen exactly the upper-cased names of the properties. */
  lemma NamesSeenNames(props: seq<Json>)
    requires NamesSeen(props).Ok?
    ensures forall n :: n in NamesSeen(props).value <==> exists i :: 0 <= i < |props| && FirstItemUpper(props[i]) == Ok(n)
  {
    forall n | n in NamesSeen(props).value
      ensures exists i :: 0 <= i < |props| && FirstItemUpper(props[i]) == Ok(n)
    {
      var i := NameSource(props, n);
    }
    forall i | 0 <= i < |props| && FirstItemUpper(props[i]).Ok?
      ensures FirstItemUpper(props[i]).value in NamesSeen(props).value
    {
      NameRecorded(props, i);
    }
  }

  /** Every name a scan has seen comes from some property. */
  lemma {:induction false} NameSource(props: seq<Json>, n: string) returns (i: nat)
    requires NamesSeen(props).Ok? && n in NamesSeen(props).value
    ensures i < |props| && FirstItemUpper(props[i]) == Ok(n)
  {
    var k := |props| - 1;
    var front := props[..k];
    var name := FirstItemUpper(props[k]).value;
    assert NamesSeen(props) == Ok(NamesSeen(front).value + {name});
    if n == name {
      i := k;
    } else {
      i := NameSource(front, n);
      assert front[i] == props[i];
    }
  }

  /** Every property's name is among the names a scan that returns has seen. */
  lemma {:induction false} NameRecorded(props: seq<Json>, i: nat)
    requires NamesSeen(props).Ok? && i < |props| && FirstItemUpper(props[i]).Ok?
    ensures FirstItemUpper(props[i]).value in NamesSeen(props).value
  {
    var k := |props| - 1;
    var front := props[..k];
    var name := FirstItemUpper(props[k]).value;
    assert NamesSeen(props) == Ok(NamesSeen(front).value + {name});
    if i < k {
      assert front[i] == props[i];
      NameRecorded(front, i);
    }
  }

  /** Once the scan throws on a prefix of the properties, it throws on the whole list. */
  lemma {:induction false} NamesSeenThrowsOn(props: seq<Json>, k: nat)
    requires k <= |props| && NamesSeen(props[..k]).Throw?
    ensures NamesSeen(props).Throw?
    decreases |props| - k
  {
    if k < |props| {
      assert props[..k + 1][..k] == props[..k];
      NamesSeenThrowsOn(props, k + 1);
    } else {
      assert props[..k] == props;
    }
  }

  /** The scan as the registrar check writes it, a `forEach` over the properties. */
  method PropertyNamesSeen(props: seq<Json>) returns (r: Js<set<string>>)
    ensures r == NamesSeen(props)
  {
    var seen: set<string> := {};
    var i := 0;
    while i < |props|
      invariant i <= |props|
      invariant NamesSeen(props[..i]) == Ok(seen)
    {
      assert props[..i + 1][..i] == props[..i];
      var name := FirstItemUpper(props[i]);
      if name.Throw? {
        NamesSeenThrowsOn(props, i + 1);
        return Throw;
      }
      seen := seen + {name.value};
      i := i + 1;
    }
    assert props[..i] == props;
    return Ok(seen);
  }
}
