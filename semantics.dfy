/**
 * The RFC 9083 validators that call one another: `iterate` and the
 * callbacks it is given, `validateCommonObjectProperties` and the common
 * property validators, and the validators of domains, secureDNS objects, DS
 * and key records, entities, jCards, nameservers, notices and remarks,
 * events, IP networks and autnums, together with the two closures of the
 * gTLD profile that are handed to `iterate`.
 *
 * Each validator is a function from the state it starts in to the state it
 * leaves, or to the state an exception escaped in. Every one of them keeps
 * what was reported (the log only grows) and, when it returns normally,
 * leaves the JSONPath stack as it found it.
 *
 * Termination: every call either moves to a value inside the one being
 * validated (its `Size` decreases) or stays on the same value and goes down
 * in the rank written second in each `decreases` clause. An `iterate` over
 * a closure that only reports (an `Assert`) calls no validator, so its
 * measure does not depend on the array's size.
 */
module Semantics {
  import opened Wrappers
  import opened Json
  import opened JsRuntime
  import opened Predicates
  import opened Tables
  import opened Paths
  import opened Results
  import opened Messages
  import opened Queries
  import opened Context
  import opened Members

  /** The callbacks the validators hand to `iterate`. */
  datatype Callback =
    | Assert(assertion: Assertion)  // a closure that reports one result per element
    | EachNoticeOrRemark
    | EachLink
    | EachEntity
    | EachEvent
    | EachPublicId
    | EachNameserver
    | EachDomain
    | EachDSData
    | EachKeyData
    | EachIPNetwork
    | EachAutnum
    | EachJCardProperty
    | EachGTLDResponseEntity           // the entity closure of the gTLD response checks
    | EachGTLDVCardProperty    // the vCard property closure inside it

  /**
   * `iterate(array, callback)`: for each element in order, push `[i]`, run
   * the callback, pop. Only an array has `forEach`; anything else throws.
   */
  function Iterate(c: Ctx, v: Json, cb: Callback): (r: Run<Ctx>)
    ensures Grows(c, r) && Restores(c, r)
    ensures !v.JArr? ==> r == Thrown(c)
    decreases if cb.Assert? then 0 else Size(v), if cb.Assert? then 2 else 7, 0
  {
    if v.JArr? then IterFrom(c, v.elems, cb, 0) else Thrown(c)
  }

  /** The elements from index `i` on. */
  function IterFrom(c: Ctx, elems: seq<Json>, cb: Callback, i: nat): (r: Run<Ctx>)
    requires i <= |elems|
    ensures Grows(c, r) && Restores(c, r)
    decreases if cb.Assert? then 0 else SizeOfElems(elems), if cb.Assert? then 1 else 6, |elems| - i
  {
    if i == |elems| then Val(c)
    else
      ElemBelowSum(elems, i);
      var c1 :- Invoke(Push(c, IndexSegment(i)), cb, elems[i]);
      IterFrom(Pop(c1), elems, cb, i + 1)
  }

  /** One turn of `iterate`'s loop: the callback on element `i` under `[i]`, a pop, and the rest. */
  lemma IterFromStep(c: Ctx, elems: seq<Json>, cb: Callback, i: nat)
    requires i < |elems|
    ensures IterFrom(c, elems, cb, i) ==
      match Invoke(Push(c, IndexSegment(i)), cb, elems[i])
      case Thrown(d) => Thrown(d)
      case Val(c1) => IterFrom(Pop(c1), elems, cb, i + 1)
  {
  }

  /** One call of a callback on one element. */
  function Invoke(c: Ctx, cb: Callback, x: Json): (r: Run<Ctx>)
    ensures Grows(c, r) && Restores(c, r)
    decreases if cb.Assert? then 0 else Size(x), if cb.Assert? then 0 else 5, 0
  {
    match cb
    case Assert(a) => Val(Check(c, AssertionPasses(a, x), AssertionMessage(a, x), AssertionFragment(a)))
    case EachNoticeOrRemark => NoticeOrRemark(c, x)
    case EachLink => Link(c, x)
    case EachEntity => Entity(c, x)
    case EachEvent => Event(c, x)
    case EachPublicId => PublicId(c, x)
    case EachNameserver => Nameserver(c, x)
    case EachDomain => Domain(c, x)
    case EachDSData => DSData(c, x)
    case EachKeyData => KeyData(c, x)
    case EachIPNetwork => IPNetwork(c, x)
    case EachAutnum => Autnum(c, x)
    case EachJCardProperty => JCardProperty(c, x)
    case EachGTLDResponseEntity => GTLDResponseEntity(c, x)
    case EachGTLDVCardProperty => GTLDVCardProperty(c, x)
  }

  /**
   * An array-valued member's value: reported as an array or not, and when
   * it is one, each element handed to the callback.
   */
  function ArrayValue(c: Ctx, v: Json, message: string, fragment: string, cb: Callback): (r: Run<Ctx>)
    ensures Grows(c, r) && Restores(c, r)
    decreases Size(v), 8, 0
  {
    var isArray :- Try(c, IsArray(v));
    var c1 := Check(c, isArray, message, fragment);
    if isArray then Iterate(c1, v, cb) else Val(c1)
  }

  /**
   * One entry of a `forEach` over the names of array members: push the
   * member's segment; if the member is there, check its value as an array
   * of what the callback validates; pop.
   */
  function ArrayMember(c: Ctx, x: Json, p: string, cb: Callback): (r: Run<Ctx>)
    ensures Grows(c, r) && Restores(c, r)
    decreases Size(x), 3, 0
  {
    var c1 := Push(c, MemberSegment(p));
    var has :- Try(c1, HasOwn(x, p));
    var c2 :- if has then ArrayValue(c1, Prop(x, p), NotArray(p), "", cb) else Val(c1);
    Val(Pop(c2))
  }

  /** `ArrayMember` step by step: the presence test under the member's segment, the value's checks, the pop. */
  lemma ArrayMemberSteps(c: Ctx, x: Json, p: string, cb: Callback)
    ensures ArrayMember(c, x, p, cb) ==
      match HasOwn(x, p)
      case Throw => Thrown(Push(c, MemberSegment(p)))
      case Ok(has) =>
        if !has then Val(Pop(Push(c, MemberSegment(p))))
        else
          match ArrayValue(Push(c, MemberSegment(p)), Prop(x, p), NotArray(p), "", cb)
          case Thrown(d) => Thrown(d)
          case Val(d) => Val(Pop(d))
  {
  }

  /** The common properties, in the order their validators are declared. */
  const CommonKeys: seq<string> := [
    "handle", "links", "remarks", "lang", "entities", "events", "status", "port43", "publicIds", "ldhName", "unicodeName"
  ]

  /** What the validator of a common property checks, and which section it cites. */
  datatype CommonCheck = StringValued(fragment: string) | ArrayValued(fragment: string, each: Callback)

  function CommonCheckOf(name: string): CommonCheck
  {
    match name
    case "handle" => StringValued("section-3")
    case "links" => ArrayValued("section-4.2", EachLink)
    case "remarks" => ArrayValued("section-4.3", EachNoticeOrRemark)
    case "lang" => StringValued("section-4.4")
    case "entities" => ArrayValued("section-5.3", EachEntity)
    case "events" => ArrayValued("section-4.5", EachEvent)
    case "status" => ArrayValued("section-4.6", Assert(StatusValue))
    case "port43" => StringValued("section-4.7")
    case "publicIds" => ArrayValued("section-4.8", EachPublicId)
    case "ldhName" => StringValued("section-3")
    case _ => StringValued("section-3")
  }

  /**
   * `commonPropertyValidators[name](value)`: a string-valued property must
   * be a string; an array-valued one must be an array, whose elements its
   * callback then checks. Each sets `currentSpec` and puts it back, except
   * that an array validator given something else returns before doing so.
   */
  function CommonProperty(c: Ctx, name: string, v: Json): (r: Run<Ctx>)
    ensures Grows(c, r) && Restores(c, r)
    ensures r.Val? ==> r.value.spec == if CommonCheckOf(name).ArrayValued? && !v.JArr? then "rfc9083" else c.spec
    ensures v.JNull? ==> r == Thrown(SetSpec(c, "rfc9083"))
    ensures !v.JNull? ==> c.log + [CommonKindResult(c.path, name, v)] <= Last(r).log
    ensures !v.JNull? && (CommonCheckOf(name).StringValued? || !v.JArr?) ==>
      r.Val? && r.value.log == c.log + [CommonKindResult(c.path, name, v)]
    decreases Size(v), 8, 0
  {
    match CommonCheckOf(name)
    case StringValued(fragment) => StringProperty(c, name, v, fragment)
    case ArrayValued(fragment, each) =>
      var c1 := SetSpec(c, "rfc9083");
      var isArray :- Try(c1, IsArray(v));
      var c2 := Check(c1, isArray, NotArray(name), fragment);
      if !isArray then Val(c2)
      else
        var c3 :- Iterate(c2, v, each);
        Val(SetSpec(c3, c.spec))
  }

  /**
   * The first result of a common property's check: whether the value has
   * the kind the property needs, cited under RFC 9083.
   */
  function CommonKindResult(path: seq<string>, name: string, v: Json): Result
  {
    match CommonCheckOf(name)
    case StringValued(fragment) => Result(JBool(v.JStr?), NotString(name), Join(path), Ref("rfc9083", fragment))
    case ArrayValued(fragment, _) => Result(JBool(v.JArr?), NotArray(name), Join(path), Ref("rfc9083", fragment))
  }

  /**
   * `validateCommonObjectProperties(record, type)`: the class name check
   * when a type is given, then each common property the record has, in
   * turn, under its own segment.
   */
  function CommonObjectProperties(c: Ctx, x: Json, objectType: Option<string>): (r: Run<Ctx>)
    ensures Grows(c, r) && Restores(c, r)
    decreases Size(x), 3, 0
  {
    var c1 := Msg(c, CheckingCommonProperties);
    var c2 :- if objectType.Some? then ObjectClassName(c1, x, objectType.value) else Val(c1);
    CommonFrom(c2, x, 0)
  }

  /** The common properties from position `i` of the list on. */
  function CommonFrom(c: Ctx, x: Json, i: nat): (r: Run<Ctx>)
    requires i <= |CommonKeys|
    ensures Grows(c, r) && Restores(c, r)
    decreases Size(x), 2, |CommonKeys| - i
  {
    if i == |CommonKeys| then Val(c)
    else
      var name := CommonKeys[i];
      var has :- Try(c, HasOwn(x, name));
      var c1 :- if has then CommonMember(c, x, name) else Val(c);
      CommonFrom(c1, x, i + 1)
  }

  /** One common property the record has: push, announce, validate, pop. */
  function CommonMember(c: Ctx, x: Json, name: string): (r: Run<Ctx>)
    requires x.JObj?
    ensures Grows(c, r) && Restores(c, r)
    decreases Size(x), 1, 0
  {
    var c1 := Msg(Push(c, MemberSegment(name)), CheckingProperty(name));
    var c2 :- CommonProperty(c1, name, Prop(x, name));
    Val(Pop(c2))
  }

  /**
   * `validateNoticeOrRemark`: an object whose optional `title` is a
   * string, with a `description` of strings, an optional registered
   * `type`, and valid common properties.
   */
  function NoticeOrRemark(c: Ctx, n: Json): (r: Run<Ctx>)
    ensures Grows(c, r) && Restores(c, r)
    ensures r.Val? ==> r.value.spec == if n.JObj? then c.spec else "rfc9083"
    ensures !n.JObj? ==> (r.Val? <==> !n.JNull?)
    ensures !n.JObj? && !n.JNull? ==> r.Val? && r.value.log == c.log + [
      Result(JNull, ValidatingNoticeOrRemark, Join(c.path), None),
      Result(JBool(false), NoticeNotObject, Join(c.path), Ref("rfc9083", "section-4.3"))]
    decreases Size(n), 4, 0
  {
    var c1 := Msg(c, ValidatingNoticeOrRemark);
    var c2 := SetSpec(c1, "rfc9083");
    var isObject :- Try(c2, IsObject(n));
    var c3 := Check(c2, isObject, NoticeNotObject, "section-4.3");
    if !isObject then Val(c3)
    else
      var c7 :- NoticeOrRemarkMembers(c3, n);
      Val(SetSpec(c7, c1.spec))
  }

  /** The members of a notice or remark that is an object: `title`, `description`, `type`, then the common properties. */
  function NoticeOrRemarkMembers(c: Ctx, n: Json): (r: Run<Ctx>)
    ensures Grows(c, r) && Restores(c, r)
    decreases Size(n), 3, 1
  {
    var c1 :- MemberCheck(c, n, NoticeTitleRule);
    var c2 :- Description(c1, n);
    var c3 :- NoticeType(c2, n);
    CommonObjectProperties(c3, n, None)
  }

  /** `validateEvent`: an object with a registered `eventAction`, an `eventDate`, and valid common properties. */
  function Event(c: Ctx, e: Json): (r: Run<Ctx>)
    ensures Grows(c, r) && Restores(c, r)
    ensures r.Val? ==> r.value.spec == if e.JObj? then c.spec else "rfc9083"
    ensures !e.JObj? ==> (r.Val? <==> !e.JNull?)
    ensures !e.JObj? && !e.JNull? ==> r.Val? && r.value.log == c.log + [
      Result(JNull, ValidatingEvent, Join(c.path), None),
      Result(JBool(false), EventNotObject, Join(c.path), Ref("rfc9083", "section-4.5"))]
    decreases Size(e), 4, 0
  {
    var c1 := Msg(c, ValidatingEvent);
    var c2 := SetSpec(c1, "rfc9083");
    var isObject :- Try(c2, IsObject(e));
    var c3 := Check(c2, isObject, EventNotObject, "section-4.5");
    if !isObject then Val(c3)
    else
      var c4 :- EventMember(c3, e, "eventAction");
      var c5 :- EventMember(c4, e, "eventDate");
      var c6 :- CommonObjectProperties(c5, e, None);
      Val(SetSpec(c6, c1.spec))
  }

  /** `validateDSData`: an object with integer `keyTag`, `algorithm` and `digestType` and a string `digest`. */
  function DSData(c: Ctx, d: Json): (r: Run<Ctx>)
    ensures Grows(c, r) && Restores(c, r)
    decreases Size(d), 4, 0
  {
    var c1 := Msg(c, ValidatingDSData);
    var isObject :- Try(c1, IsObject(d));
    var c2 := Check(c1, isObject, DSDataNotObject, "");
    if !isObject then Val(c2)
    else
      var c3 :- MemberChecks(c2, d, DSDataRules);
      CommonObjectProperties(c3, d, None)
  }

  /** `validateKeyData`: an object with integer `flags`, `protocol` and `algorithm` and a string `publicKey`. */
  function KeyData(c: Ctx, k: Json): (r: Run<Ctx>)
    ensures Grows(c, r) && Restores(c, r)
    decreases Size(k), 4, 0
  {
    var c1 := Msg(c, ValidatingKeyData);
    var isObject :- Try(c1, IsObject(k));
    var c2 := Check(c1, isObject, KeyDataNotObject, "");
    if !isObject then Val(c2)
    else
      var c3 :- MemberChecks(c2, k, KeyDataRules);
      CommonObjectProperties(c3, k, None)
  }

  /**
   * `validateSecureDNS`: an object whose `zoneSigned` and `delegationSigned`
   * are booleans; a signed delegation must carry DS or key records, each of
   * which is checked.
   */
  function SecureDNS(c: Ctx, s: Json): (r: Run<Ctx>)
    ensures Grows(c, r) && Restores(c, r)
    decreases Size(s), 4, 0
  {
    var c1 := Msg(c, ValidatingSecureDNS);
    var isObject :- Try(c1, IsObject(s));
    var c2 := Check(c1, isObject, SecureDNSNotObject, "");
    if !isObject then Val(c2)
    else
      var c3 :- MemberChecks(c2, s, SecureDNSRules);
      if !Truthy(Prop(s, "delegationSigned")) then Val(c3)
      else
        var c4 :- SignedRecordMembers(c3, s);
        Val(Check(c4, DnssecRecordCount(s) > 0, SignedWithoutRecords, ""))
  }

  /** The `forEach` over the record members of a signed delegation: the DS records, then the key records. */
  function SignedRecordMembers(c: Ctx, s: Json): (r: Run<Ctx>)
    ensures Grows(c, r) && Restores(c, r)
    decreases Size(s), 3, 1
  {
    var c1 :- ArrayMember(c, s, "dsData", EachDSData);
    ArrayMember(c1, s, "keyData", EachKeyData)
  }

  /**
   * `validateDomain`: the common properties, the `unicodeName` stub, the
   * nameservers, and the secureDNS object. There is no test that the
   * domain is an object.
   */
  function Domain(c: Ctx, d: Json): (r: Run<Ctx>)
    ensures Grows(c, r) && Restores(c, r)
    decreases Size(d), 4, 0
  {
    var c1 := Msg(SetSpec(c, "rfc9083"), ValidatingDomain);
    var c2 :- CommonObjectProperties(c1, d, Some("domain"));
    var c3 :- UnicodeName(c2, d);
    var c4 :- DomainNameservers(c3, d);
    DomainSecureDNS(c4, d)
  }

  /** A domain's `nameservers`, when it has them, under their own segment: an array of nameservers. */
  function DomainNameservers(c: Ctx, d: Json): (r: Run<Ctx>)
    ensures Grows(c, r) && Restores(c, r)
    decreases Size(d), 3, 0
  {
    var has :- Try(c, HasOwn(d, "nameservers"));
    if !has then Val(c)
    else
      var c1 :- ArrayValue(Push(c, MemberSegment("nameservers")), Prop(d, "nameservers"), NameserversNotArray, "section-5.3-7.6", EachNameserver);
      Val(Pop(c1))
  }

  function DomainSecureDNS(c: Ctx, d: Json): (r: Run<Ctx>)
    ensures Grows(c, r) && Restores(c, r)
    decreases Size(d), 3, 0
  {
    var has :- Try(c, HasOwn(d, "secureDNS"));
    if !has then Val(c)
    else
      var c1 :- SecureDNS(Push(c, MemberSegment("secureDNS")), Prop(d, "secureDNS"));
      Val(Pop(c1))
  }

  /**
   * `validateEntity`: an object with valid common properties, registered
   * `roles`, a vCard array, and arrays of events, networks and autnums.
   */
  function Entity(c: Ctx, e: Json): (r: Run<Ctx>)
    ensures Grows(c, r) && Restores(c, r)
    decreases Size(e), 4, 0
  {
    var c1 := Msg(c, ValidatingEntity);
    var isObject :- Try(c1, IsObject(e));
    var c2 := Check(c1, isObject, EntityNotObject, "");
    if !isObject then Val(c2)
    else
      var c3 :- CommonObjectProperties(c2, e, Some("entity"));
      var c4 :- EntityRoles(c3, e);
      var c5 :- EntityVCard(c4, e);
      var c6 :- ArrayMember(c5, e, "asEventActor", EachEvent);
      var c7 :- ArrayMember(c6, e, "networks", EachIPNetwork);
      ArrayMember(c7, e, "autnums", EachAutnum)
  }

  /** An entity must have an array of `roles`, each a registered role. */
  function EntityRoles(c: Ctx, e: Json): (r: Run<Ctx>)
    ensures Grows(c, r) && Restores(c, r)
    decreases Size(e), 3, 0
  {
    var c1 := Push(c, MemberSegment("roles"));
    var has :- Try(c1, HasOwn(e, "roles"));
    var c2 := Check(c1, has, RolesMissing, "");
    if !has then Val(Pop(c2))
    else
      var roles := Prop(e, "roles");
      var isArray :- Try(c2, IsArray(roles));
      var c3 := Check(c2, isArray, RolesNotArray, "");
      var c4 :- if isArray then Iterate(c3, roles, Assert(RoleValue)) else Val(c3);
      Val(Pop(c4))
  }

  /** An entity's `vcardArray`, when it has one, is an array whose item 0 is `vcard` and whose item 1 is a jCard. */
  function EntityVCard(c: Ctx, e: Json): (r: Run<Ctx>)
    ensures Grows(c, r) && Restores(c, r)
    decreases Size(e), 3, 0
  {
    var c1 := Push(c, MemberSegment("vcardArray"));
    var has :- Try(c1, HasOwn(e, "vcardArray"));
    if !has then Val(Pop(c1))
    else
      var card := Prop(e, "vcardArray");
      var isArray :- Try(c1, IsArray(card));
      var c2 := Check(c1, isArray, VCardArrayNotArray, "");
      if !isArray then Val(Pop(c2))
      else
        var c3 := Pop(Check(Push(c2, IndexSegment(0)), Item(card, 0) == JStr("vcard"), VCardFirstValue, ""));
        var c4 :- JCard(Push(c3, IndexSegment(1)), Item(card, 1));
        Val(Pop(Pop(c4)))
  }

  /**
   * `validateJCard`: a non-empty array of properties, each checked, with
   * a VERSION and an FN property among them.
   */
  function JCard(c: Ctx, v: Json): (r: Run<Ctx>)
    ensures Grows(c, r) && Restores(c, r)
    ensures v.JNull? ==> r == Thrown(Msg(c, ValidatingJCard))
    ensures !v.JNull? ==> c.log + [Result(JNull, ValidatingJCard, Join(c.path), None), Result(JBool(v.JArr?), JCardNotArray, Join(c.path), None)] <= Last(r).log
    ensures !v.JArr? && !v.JNull? ==> r.Val? && |r.value.log| == |c.log| + 2
    ensures v.JArr? ==> |Last(r).log| > |c.log| + 2 && Last(r).log[|c.log| + 2] == Result(JBool(|v.elems| > 0), JCardEmpty, Join(c.path), None)
    ensures v.JArr? && |v.elems| == 0 ==> r.Val? && |r.value.log| == |c.log| + 3
    decreases Size(v), 8, 0
  {
    var c1 := Msg(c, ValidatingJCard);
    var isArray :- Try(c1, IsArray(v));
    var c2 := Check(c1, isArray, JCardNotArray, "");
    if !isArray then Val(c2)
    else
      var c3 := Check(c2, |v.elems| > 0, JCardEmpty, "");
      assert c3.log[|c.log| + 2] == Result(JBool(|v.elems| > 0), JCardEmpty, Join(c.path), None);
      if |v.elems| == 0 then Val(c3) else JCardContents(c3, v)
  }

  /** The checks of a non-empty jCard's properties: each property, then a VERSION and an FN among them. */
  function JCardContents(c: Ctx, v: Json): (r: Run<Ctx>)
    requires v.JArr?
    ensures Grows(c, r) && Restores(c, r)
    decreases Size(v), 7, 1
  {
    var c4 :- Iterate(c, v, EachJCardProperty);
    var c5 :- RequiredProperty(c4, v.elems, "VERSION");
    RequiredProperty(c5, v.elems, "FN")
  }

  /**
   * `validateJCardProperty`: an array of four items, on which the four
   * steps then run.
   */
  function JCardProperty(c: Ctx, p: Json): (r: Run<Ctx>)
    ensures Grows(c, r) && Restores(c, r)
    decreases Size(p), 4, 0
  {
    var isArray :- Try(c, IsArray(p));
    var c1 := Check(c, isArray, JCardPropertyNotArray, "");
    if !isArray then Val(c1)
    else
      var c2 := Check(c1, |p.elems| == 4, JCardPropertyNotFour, "");
      if |p.elems| != 4 then Val(c2) else JCardSteps(c2, p, 0)
  }

  /**
   * `iterate` over the list of the four steps: step `i` runs under the
   * segment `[i]`, which is also the position of the item it checks.
   */
  function JCardSteps(c: Ctx, p: Json, i: nat): (r: Run<Ctx>)
    requires p.JArr? && |p.elems| == 4 && i <= 4
    ensures Grows(c, r) && Restores(c, r)
    decreases Size(p), 3, 4 - i
  {
    if i == 4 then Val(c)
    else
      var c1 :- JCardStep(Push(c, IndexSegment(i)), p, i);
      JCardSteps(Pop(c1), p, i + 1)
  }

  /** Step `i` of a jCard property's checks. */
  function JCardStep(c: Ctx, p: Json, i: nat): (r: Run<Ctx>)
    requires p.JArr? && |p.elems| == 4 && i < 4
    ensures Grows(c, r) && Restores(c, r)
    decreases Size(p), 2, 0
  {
    if i == 0 then JCardPropertyType(c, p)
    else if i == 1 then ElemSmaller(p.elems, 1); JCardPropertyParameters(c, p.elems[1])
    else if i == 2 then JCardPropertyValueType(c, p)
    else JCardPropertyValue(c, p)
  }

  /** The parameters step, given item 1: an object, each of whose parameter names is registered. */
  function JCardPropertyParameters(c: Ctx, params: Json): (r: Run<Ctx>)
    ensures Grows(c, r) && Restores(c, r)
    decreases Size(params), 3, 0
  {
    var isObject :- Try(c, IsObject(params));
    var c1 := Check(c, isObject, JCardParametersNotObject, "");
    if !isObject then Val(c1)
    else Iterate(c1, JArr(Strings(KeysOf(params.members))), Assert(ParameterName))
  }

  /**
   * `validateNameserver`: an object with valid common properties, a string
   * `ldhName`, and an `ipAddresses` object whose `v4` and `v6` lists hold
   * addresses of the right family.
   */
  function Nameserver(c: Ctx, n: Json): (r: Run<Ctx>)
    ensures Grows(c, r) && Restores(c, r)
    decreases Size(n), 4, 0
  {
    var c1 := Msg(c, ValidatingNameserver);
    var isObject :- Try(c1, IsObject(n));
    var c2 := Check(c1, isObject, NameserverNotObject, "");
    if !isObject then Val(c2)
    else
      var c3 :- CommonObjectProperties(c2, n, Some("nameserver"));
      var c4 :- MemberCheck(c3, n, NameserverLdhNameRule);
      IPAddresses(c4, n)
  }

  function IPAddresses(c: Ctx, n: Json): (r: Run<Ctx>)
    ensures Grows(c, r) && Restores(c, r)
    decreases Size(n), 3, 0
  {
    var c1 := Push(c, MemberSegment("ipAddresses"));
    var has :- Try(c1, HasOwn(n, "ipAddresses"));
    if !has then Val(Pop(c1))
    else
      var addresses := Prop(n, "ipAddresses");
      var isObject :- Try(c1, IsObject(addresses));
      var c2 := Check(c1, isObject, IPAddressesNotObject, "");
      if !isObject then Val(Pop(c2))
      else
        var c3 :- AddressList(c2, addresses, "v4", IPv4Address);
        var c4 :- AddressList(c3, addresses, "v6", IPv6Address);
        Val(Pop(c4))
  }

  /**
   * One address list: reported as an array or not, and then iterated
   * whatever the report said, so a list that is not an array throws.
   */
  function AddressList(c: Ctx, addresses: Json, t: string, a: Assertion): (r: Run<Ctx>)
    ensures Grows(c, r) && Restores(c, r)
    decreases Size(addresses), 3, 0
  {
    var c1 := Push(c, MemberSegment(t));
    var has :- Try(c1, HasOwn(addresses, t));
    if !has then Val(Pop(c1))
    else
      var list := Prop(addresses, t);
      var isArray :- Try(c1, IsArray(list));
      var c2 := Check(c1, isArray, AddressListNotArray(t), "");
      var c3 :- Iterate(c2, list, Assert(a));
      Val(Pop(c3))
  }

  /** `validateIPNetwork`: valid common properties and string members, with a valid `ipVersion`. */
  function IPNetwork(c: Ctx, x: Json): (r: Run<Ctx>)
    ensures Grows(c, r) && Restores(c, r)
    decreases Size(x), 4, 0
  {
    var c1 := Msg(c, ValidatingIPNetwork);
    var c2 := SetSpec(c1, "rfc9083");
    var c3 :- CommonObjectProperties(c2, x, Some("ip network"));
    var c4 :- StringFields(c3, x, IPNetworkFields, "section-5.4");
    Val(SetSpec(c4, c1.spec))
  }

  /** `validateAutnum`: valid common properties, integer bounds, and string members. */
  function Autnum(c: Ctx, x: Json): (r: Run<Ctx>)
    ensures Grows(c, r) && Restores(c, r)
    decreases Size(x), 4, 0
  {
    var c1 := Msg(c, ValidatingAutnum);
    var c2 := SetSpec(c1, "rfc9083");
    var c3 :- CommonObjectProperties(c2, x, Some("autnum"));
    var c4 :- MemberChecks(c3, x, AutnumRules);
    var c5 :- StringFields(c4, x, AutnumFields, "section-5.5");
    Val(SetSpec(c5, c1.spec))
  }

  /**
   * The entity closure of the gTLD response checks: the entity must have a
   * `handle`; its vCard properties are checked; a registrant is handed to
   * the registrant check, which reports nothing.
   */
  function GTLDResponseEntity(c: Ctx, e: Json): (r: Run<Ctx>)
    ensures Grows(c, r) && Restores(c, r)
    decreases Size(e), 4, 0
  {
    var c1 := Push(c, MemberSegment("handle"));
    var has :- Try(c1, HasOwn(e, "handle"));
    var c2 := Pop(Check(c1, has, EntityHandleMissing, ""));
    var c3 :- GTLDResponseEntityVCard(c2, e);
    var registrant :- Try(c3, HasRole(e, "registrant"));
    if !registrant then Val(c3)
    else
      var done :- Try(c3, GTLDRegistrantEntity(e));
      Val(c3)
  }

  /** The entity's vCard properties, when `vcardArray` and its item 1 are arrays, under `.vcardArray[1]`. */
  function GTLDResponseEntityVCard(c: Ctx, e: Json): (r: Run<Ctx>)
    ensures Grows(c, r) && Restores(c, r)
    decreases Size(e), 3, 0
  {
    var has :- Try(c, HasOwn(e, "vcardArray"));
    if !has then Val(c)
    else
      var card := Prop(e, "vcardArray");
      var isArray :- Try(c, IsArray(card));
      if !isArray then Val(c)
      else
        var props := Item(card, 1);
        var propsArray :- Try(c, IsArray(props));
        if !propsArray then Val(c)
        else
          var c1 :- Iterate(Push(c, ".vcardArray[1]"), props, EachGTLDVCardProperty);
          Val(Pop(c1))
  }
}
