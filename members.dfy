/**
 * The checks that look at one object and call no other validator: the
 * per-member checks the validators run over fixed lists of member names,
 * `validateRDAPConformance`, `validateObjectClassName`, `validateLink` and
 * `validatePublicId`. Each is a function from the state it starts in to the
 * state it leaves (or the state an exception escaped in).
 */
module Members {
  import opened Wrappers
  import opened Json
  import opened JsRuntime
  import opened Predicates
  import opened Tables
  import opened Paths
  import opened Messages
  import opened Results
  import opened Queries
  import opened Context

  /**
   * `x[k]` where `x` is known not to be `null` or `undefined`: the member's
   * value, or `undefined` when `x` is not an object with that member.
   */
  function Prop(x: Json, k: string): (r: Json)
    ensures !Nullish(x) ==> Get(x, k) == Ok(r)
    ensures x.JObj? ==> Size(r) < Size(x)
    ensures r != JUndefined ==> MemberOf(x, k) == Some(r)
  {
    if x.JObj? && Lookup(x.members, k).Some? then
      LookupSmaller(x.members, k);
      Lookup(x.members, k).value
    else JUndefined
  }

  /** `x.hasOwnProperty(k)` where `x` is known not to be `null` or `undefined`. */
  function Has(x: Json, k: string): (r: bool)
    ensures !Nullish(x) ==> HasOwn(x, k) == Ok(r)
    ensures r <==> MemberOf(x, k).Some?
  {
    x.JObj? && Lookup(x.members, k).Some?
  }

  /** `x[i]` where `x` is known not to be `null` or `undefined`. */
  function Item(x: Json, i: nat): (r: Json)
    ensures !Nullish(x) ==> At(x, i) == Ok(r)
  {
    match At(x, i)
    case Ok(v) => v
    case Throw => JUndefined
  }

  /**
   * One entry of a validator's `forEach` over member names: push the
   * member's segment; if the member is there, check its kind; pop. A rule
   * with a presence message reports first whether the member is there.
   */
  function MemberCheck(c: Ctx, x: Json, rule: MemberRule): (r: Run<Ctx>)
    ensures Grows(c, r) && Restores(c, r)
    ensures r.Val? ==> r.value.spec == c.spec
  {
    var c1 := Push(c, MemberSegment(rule.key));
    var has :- Try(c1, HasOwn(x, rule.key));
    var c2 := if rule.presence.Some? then Check(c1, has, rule.presence.value, rule.fragment) else c1;
    var c3 :- if has then KindCheck(c2, Prop(x, rule.key), rule) else Val(c2);
    Val(Pop(c3))
  }

  /** The kind test of one rule on a member's value, reported with the rule's message. */
  function KindCheck(c: Ctx, v: Json, rule: MemberRule): (r: Run<Ctx>)
    ensures r.Thrown? <==> v.JNull?
    ensures r.Val? ==> r.value == Check(c, TypeTest(rule.kind, v).value, rule.typeMessage, rule.fragment)
    ensures Grows(c, r) && Restores(c, r)
  {
    var ok :- Try(c, TypeTest(rule.kind, v));
    Val(Check(c, ok, rule.typeMessage, rule.fragment))
  }

  /** The member checks of a list, in order; the first exception ends the walk. */
  function MemberChecks(c: Ctx, x: Json, rules: seq<MemberRule>): (r: Run<Ctx>)
    ensures Grows(c, r) && Restores(c, r)
    decreases |rules|
  {
    if rules == [] then Val(c)
    else
      var c1 :- MemberCheck(c, x, rules[0]);
      MemberChecks(c1, x, rules[1..])
  }

  /** A required member: a missing one is reported with `missing`, one of another kind with `kind`. */
  function Required(key: string, kind: ValueKind, missing: string, typeMessage: string, fragment: string): MemberRule
  {
    MemberRule(key, kind, Some(missing), typeMessage, fragment)
  }

  /** An optional member: only one that is there is checked. */
  function Optional(key: string, kind: ValueKind, typeMessage: string, fragment: string): MemberRule
  {
    MemberRule(key, kind, None, typeMessage, fragment)
  }

  /** `zoneSigned` and `delegationSigned` of a secureDNS object. */
  const SecureDNSRules: seq<MemberRule> := [
    Optional("zoneSigned", BooleanKind, NotBoolean("zoneSigned"), ""),
    Optional("delegationSigned", BooleanKind, NotBoolean("delegationSigned"), "")
  ]

  function DSDataRule(p: string): MemberRule
  {
    Required(p, if p == "digest" then StringKind else IntegerKind, DSDataMemberMissing(p), DSDataMemberKind(p), "")
  }

  /** The four members of a DS record. */
  const DSDataRules: seq<MemberRule> := [DSDataRule("keyTag"), DSDataRule("algorithm"), DSDataRule("digestType"), DSDataRule("digest")]

  function KeyDataRule(p: string): MemberRule
  {
    Required(p, if p == "publicKey" then StringKind else IntegerKind, KeyDataMemberMissing(p), KeyDataMemberKind(p), "")
  }

  /** The four members of a key record. */
  const KeyDataRules: seq<MemberRule> := [KeyDataRule("flags"), KeyDataRule("protocol"), KeyDataRule("algorithm"), KeyDataRule("publicKey")]

  /** The members a link must have and those it may have, all strings. */
  const LinkRules: seq<MemberRule> := [
    Required("value", StringKind, LinkMemberMissing("value"), LinkMemberNotString("value"), "section-4.2"),
    Required("rel", StringKind, LinkMemberMissing("rel"), LinkMemberNotString("rel"), "section-4.2"),
    Required("href", StringKind, LinkMemberMissing("href"), LinkMemberNotString("href"), "section-4.2"),
    Optional("hreflang", StringKind, LinkMemberNotString("hreflang"), "section-4.2"),
    Optional("title", StringKind, LinkMemberNotString("title"), "section-4.2"),
    Optional("media", StringKind, LinkMemberNotString("media"), "section-4.2"),
    Optional("type", StringKind, LinkMemberNotString("type"), "section-4.2")
  ]

  /** An IP network's string members; `ipVersion` and `country` have a further check. */
  const IPNetworkFields: seq<string> := ["startAddress", "endAddress", "ipVersion", "name", "type", "country", "parentHandle"]

  /** An error response's `errorCode`. */
  const ErrorCodeRule: MemberRule := Required("errorCode", IntegerKind, ErrorCodeMissing, ErrorCodeNotInteger, "")

  /** An error response's optional `title`. */
  const ErrorTitleRule: MemberRule := Optional("title", StringKind, ErrorTitleNotString, "")

  /** A nameserver's `ldhName`. */
  const NameserverLdhNameRule: MemberRule := Required("ldhName", StringKind, NameserverLdhNameMissing, NotString("ldhName"), "")

  /** A notice's or remark's optional `title`. */
  const NoticeTitleRule: MemberRule := Optional("title", StringKind, NotString("title"), "section-4.3")

  /**
   * `validateRDAPConformance`: the record must have `rdapConformance`; if
   * it does, the value must be an array and must contain `rdap_level_0`.
   * The second test runs whatever the first found, so a string passes it
   * when it contains the text and any other value makes it throw.
   */
  function RDAPConformance(c: Ctx, record: Json): (r: Run<Ctx>)
    ensures Grows(c, r) && Restores(c, r)
  {
    var c1 := Push(SetSpec(c, "rfc9083"), MemberSegment("rdapConformance"));
    var has :- Try(c1, HasOwn(record, "rdapConformance"));
    var c2 := Check(c1, has, ConformanceMissing, "section-4.1");
    var c3 :- if has then ConformanceValue(c2, Prop(record, "rdapConformance")) else Val(c2);
    Val(Pop(c3))
  }

  /** The two tests on a present `rdapConformance` value. */
  function ConformanceValue(c: Ctx, v: Json): (r: Run<Ctx>)
    ensures Grows(c, r) && Restores(c, r)
  {
    var isArray :- Try(c, IsArray(v));
    var c1 := Check(c, isArray, ConformanceNotArray, "section-4.1");
    var found :- Try(c1, IndexOfFound(v, "rdap_level_0"));
    Val(Check(c1, found, ConformanceLevelMissing, "section-4.1"))
  }

  /**
   * `validateObjectClassName(record, type)`: for one of the five object
   * types, the record must have a string `objectClassName` equal to the type.
   */
  function ObjectClassName(c: Ctx, record: Json, objectType: string): (r: Run<Ctx>)
    ensures Grows(c, r) && Restores(c, r)
  {
    var c1 := SetSpec(c, "rfc9083");
    if objectType !in ObjectTypes then Val(c1)
    else
      var c2 := Push(c1, MemberSegment("objectClassName"));
      var has :- Try(c2, HasOwn(record, "objectClassName"));
      var c3 := Check(c2, has, ClassNameMissing, "section-4.9");
      var c4 :- if has then ClassNameValue(c3, Prop(record, "objectClassName"), objectType) else Val(c3);
      Val(Pop(c4))
  }

  /** The tests on a present `objectClassName` value. */
  function ClassNameValue(c: Ctx, v: Json, objectType: string): (r: Run<Ctx>)
    ensures Grows(c, r) && Restores(c, r)
  {
    var isString :- Try(c, IsString(v));
    var c1 := Check(c, isString, ClassNameNotString, "section-4.9");
    if !isString then Val(c1)
    else
      var fragment := match ObjectClassNameReference(objectType) case Some(f) => f case None => "";
      Val(Check(c1, objectType == v.s, ClassNameMismatch(v.s, objectType), fragment))
  }

  /**
   * `validateLink`: a link must be an object with string `value`, `rel`
   * and `href`, may have string `hreflang`, `title`, `media` and `type`,
   * and its `value` and `href` must resolve as URLs. A link that is not an
   * object ends the check before `currentSpec` is restored.
   */
  function Link(c: Ctx, link: Json): (r: Run<Ctx>)
    ensures Grows(c, r) && Restores(c, r)
    ensures r.Val? ==> r.value.spec == if link.JObj? then c.spec else "rfc9083"
    ensures !link.JObj? ==> (r.Val? <==> !link.JNull?)
  {
    var c1 := Msg(c, ValidatingLink);
    var c2 := SetSpec(c1, "rfc9083");
    var isObject :- Try(c2, IsObject(link));
    var c3 := Check(c2, isObject, LinkNotObject, "section-4.2");
    if !isObject then Val(c3)
    else
      var c4 :- MemberChecks(c3, link, LinkRules);
      Val(SetSpec(LinkTargets(c4, link), c1.spec))
  }

  /**
   * The URL checks of a link with both `value` and `href`: `value` is
   * resolved against the tested URL and `href` against the result. The
   * parser's error is reported as a failure with its own text, and then
   * each of the two verdicts.
   */
  function LinkTargets(c: Ctx, link: Json): (d: Ctx)
    ensures c.log <= d.log && d.path == c.path && d.spec == c.spec
    ensures MemberOf(link, "value").None? || MemberOf(link, "href").None? ==> d == c
    ensures MemberOf(link, "value").Some? && MemberOf(link, "href").Some? ==>
      var base := c.env.resolve(Show(MemberOf(link, "value").value), c.url);
      var resolved := base.Some? && c.env.resolve(Show(MemberOf(link, "href").value), base.value).Some?;
      |d.log| == |c.log| + (if resolved then 2 else 3) &&
      (!resolved ==> d.log[|c.log|] == Result(JBool(false),
        if base.None? then c.env.urlError(Show(MemberOf(link, "value").value), c.url)
        else c.env.urlError(Show(MemberOf(link, "href").value), base.value), Join(c.path), None)) &&
      d.log[|d.log| - 2] == Result(JBool(base.Some?), LinkValueNotURL, Join(c.path), Ref(c.spec, "section-4.2")) &&
      d.log[|d.log| - 1] == Result(JBool(resolved), LinkHrefNotURL, Join(c.path), Ref(c.spec, "section-4.2"))
  {
    if !(link.JObj? && Lookup(link.members, "value").Some? && Lookup(link.members, "href").Some?) then c
    else
      var value := Show(Prop(link, "value"));
      var href := Show(Prop(link, "href"));
      var base := c.env.resolve(value, c.url);
      var target := if base.Some? then c.env.resolve(href, base.value) else None;
      var c1 :=
        if base.None? then Add(c, JBool(false), c.env.urlError(value, c.url), "")
        else if target.None? then Add(c, JBool(false), c.env.urlError(href, base.value), "")
        else c;
      var c2 := Check(c1, base.Some?, LinkValueNotURL, "section-4.2");
      Check(c2, target.Some?, LinkHrefNotURL, "section-4.2")
  }

  /**
   * `validatePublicId`: a public ID must be an object with string `type`
   * and `identifier`; the member checks run even when it is not an object.
   */
  function PublicId(c: Ctx, id: Json): (r: Run<Ctx>)
    ensures Grows(c, r) && Restores(c, r)
  {
    var c1 := Msg(c, ValidatingPublicId);
    var c2 := SetSpec(c1, "rfc9083");
    var isObject :- Try(c2, IsObject(id));
    var c3 := Check(c2, isObject, PublicIdNotObject, "section-4.8");
    var c4 :- PublicIdMember(c3, id, "type");
    var c5 :- PublicIdMember(c4, id, "identifier");
    Val(SetSpec(c5, c1.spec))
  }

  /** One member of a public ID: whether it is there, then whether `id[k]` is a string. */
  function PublicIdMember(c: Ctx, id: Json, k: string): (r: Run<Ctx>)
    ensures Grows(c, r) && Restores(c, r)
  {
    var c1 := Push(c, MemberSegment(k));
    var has :- Try(c1, HasOwn(id, k));
    var c2 := Check(c1, has, PublicIdMemberMissing(k), "section-4.8");
    var isString :- Try(c2, IsString(Prop(id, k)));
    Val(Pop(Check(c2, isString, NotString(k), "section-4.8")))
  }

  /** One of the common properties whose value must be a string, with the section it cites. */
  function StringProperty(c: Ctx, name: string, v: Json, fragment: string): (r: Run<Ctx>)
    ensures Grows(c, r) && Restores(c, r)
  {
    var c1 := SetSpec(c, "rfc9083");
    var isString :- Try(c1, IsString(v));
    Val(SetSpec(Check(c1, isString, NotString(name), fragment), c.spec))
  }

  /**
   * A notice's or remark's `description`: it must be there, be an array,
   * and hold only strings. The last test maps every element to its
   * constructor name, which throws for anything but an array of values
   * other than `null`, whatever the array test reported.
   */
  function Description(c: Ctx, n: Json): (r: Run<Ctx>)
    ensures Grows(c, r) && Restores(c, r)
  {
    var c1 := Push(c, MemberSegment("description"));
    var has :- Try(c1, HasOwn(n, "description"));
    var c2 := Check(c1, has, DescriptionMissing, "section-4.3");
    var c3 :- if has then DescriptionValue(c2, Prop(n, "description")) else Val(c2);
    Val(Pop(c3))
  }

  function DescriptionValue(c: Ctx, d: Json): (r: Run<Ctx>)
    ensures Grows(c, r) && Restores(c, r)
  {
    var isArray :- Try(c, IsArray(d));
    var c1 := Check(c, isArray, DescriptionNotArray, "section-4.3");
    var onlyStrings :- Try(c1, DescriptionVerdict(d));
    Val(Check(c1, onlyStrings, DescriptionNotStrings, "section-4.3"))
  }

  /** A notice's or remark's optional `type`: a string, and one of the registered notice and remark types. */
  function NoticeType(c: Ctx, n: Json): (r: Run<Ctx>)
    ensures Grows(c, r) && Restores(c, r)
  {
    var has :- Try(c, HasOwn(n, "type"));
    if !has then Val(c)
    else
      var t := Prop(n, "type");
      var c1 := Push(c, MemberSegment("type"));
      var isString :- Try(c1, IsString(t));
      var c2 := Check(c1, isString, NotString("type"), "section-4.3");
      Val(Pop(Check(c2, t.JStr? && t.s in NoticeAndRemarkTypes, NoticeTypeUnknown, "section-4.3")))
  }

  /**
   * `eventAction` or `eventDate` of an event: it must be there and be a
   * string; an action must then be a registered one. Constructing a `Date`
   * never throws, so the date check always passes.
   */
  function EventMember(c: Ctx, e: Json, k: string): (r: Run<Ctx>)
    ensures Grows(c, r) && Restores(c, r)
  {
    var c1 := Push(c, MemberSegment(k));
    var has :- Try(c1, HasOwn(e, k));
    var c2 := Check(c1, has, EventMemberMissing(k), "section-4.5");
    var c3 :- if has then EventValue(c2, Prop(e, k), k) else Val(c2);
    Val(Pop(c3))
  }

  function EventValue(c: Ctx, v: Json, k: string): (r: Run<Ctx>)
    ensures Grows(c, r) && Restores(c, r)
  {
    var isString :- Try(c, IsString(v));
    var c1 := Check(c, isString, NotString(k), "section-4.5");
    if !isString then Val(c1)
    else if k == "eventAction" then Val(Check(c1, v.s in EventActions, EventActionUnknown, "section-4.5"))
    else if k == "eventDate" then Val(Check(c1, true, EventDateInvalid, "section-4.5"))
    else Val(c1)
  }

  /** The domain's `unicodeName`, when it has both names, is reported as matching `ldhName`: the comparison is a stub that always agrees. */
  function UnicodeName(c: Ctx, domain: Json): (r: Run<Ctx>)
    ensures Grows(c, r) && Restores(c, r)
  {
    var hasUnicode :- Try(c, HasOwn(domain, "unicodeName"));
    if !hasUnicode then Val(c)
    else
      if !Has(domain, "ldhName") then Val(c)
      else
        var message := UnicodeNameMatches(Show(Prop(domain, "unicodeName")), Show(Prop(domain, "ldhName")));
        Val(Pop(Check(Push(c, MemberSegment("unicodeName")), true, message, "sect-3")))
  }

  /**
   * One of an IP network's or autnum's string members: if it is there, it
   * must be a string; `ipVersion` must be `v4` or `v6`; the `country` test
   * calls a method regular expressions do not have, and throws.
   */
  function StringField(c: Ctx, x: Json, f: string, fragment: string): (r: Run<Ctx>)
    ensures Grows(c, r) && Restores(c, r)
  {
    var c1 := Push(c, MemberSegment(f));
    var has :- Try(c1, HasOwn(x, f));
    var c2 :- if has then FieldValue(c1, Prop(x, f), f, fragment) else Val(c1);
    Val(Pop(c2))
  }

  function FieldValue(c: Ctx, v: Json, f: string, fragment: string): (r: Run<Ctx>)
    ensures Grows(c, r) && Restores(c, r)
  {
    var isString :- Try(c, IsString(v));
    var c1 := Check(c, isString, NotString(f), fragment);
    if f == "ipVersion" then Val(Check(c1, v == JStr("v4") || v == JStr("v6"), IPVersionInvalid, fragment))
    else if f == "country" then Thrown(c1)
    else Val(c1)
  }

  /** The string members of a list, in order. */
  function StringFields(c: Ctx, x: Json, fields: seq<string>, fragment: string): (r: Run<Ctx>)
    ensures Grows(c, r) && Restores(c, r)
    decreases |fields|
  {
    if fields == [] then Val(c)
    else
      var c1 :- StringField(c, x, fields[0], fragment);
      StringFields(c1, x, fields[1..], fragment)
  }

  /** An autnum's string members. */
  const AutnumFields: seq<string> := ["name", "type", "country"]

  /** An autnum's integer members. */
  const AutnumRules: seq<MemberRule> := [
    Optional("startAutnum", IntegerKind, NotInteger("startAutnum"), "section-5.5"),
    Optional("endAutnum", IntegerKind, NotInteger("endAutnum"), "section-5.5")
  ]

  /**
   * `jcard.filter((n) => name === n[0].toUpperCase()).length > 0`, the
   * check that a jCard has a VERSION or an FN property.
   */
  function RequiredProperty(c: Ctx, props: seq<Json>, name: string): (r: Run<Ctx>)
    ensures Grows(c, r) && Restores(c, r)
  {
    var found :- Try(c, PropertyNamePresent(props, name));
    Val(Check(c, found, JCardPropertyMissing(name), ""))
  }

  /**
   * The type step of a jCard property: item 0 must be a string. When it
   * is, the step returns at once; when it is not, the rest of the step
   * names a variable that does not exist, and throws.
   */
  function JCardPropertyType(c: Ctx, p: Json): (r: Run<Ctx>)
    ensures Grows(c, r) && Restores(c, r)
  {
    var name :- Try(c, At(p, 0));
    var isString :- Try(c, IsString(name));
    var c1 := Check(c, isString, JCardTypeNotString, "");
    if isString then Val(c1) else Thrown(c1)
  }

  /**
   * The value type step: item 2 must be a string naming a registered value
   * type; then, for a property whose values are a closed set, item 3 in
   * lower case must be one of them.
   */
  function JCardPropertyValueType(c: Ctx, p: Json): (r: Run<Ctx>)
    ensures Grows(c, r) && Restores(c, r)
  {
    var valueType :- Try(c, At(p, 2));
    var isString :- Try(c, IsString(valueType));
    var c1 := Check(c, isString, JCardValueTypeNotString, "");
    var c2 := if isString then Check(c1, Upper(valueType.s) in JCardValueTypes, JCardValueTypeUnknown(valueType.s), "") else c1;
    var name :- Try(c2, FirstItemUpper(p));
    match PropertyValues(name)
    case None => Val(c2)
    case Some(values) =>
      var value := Item(p, 3);
      var lower :- Try(c2, ToLowerCase(value));
      Val(Check(c2, lower in values, JCardValueNotOneOf(Show(value), JoinedWith(values, "|")), ""))
  }

  /** The value step: an ADR property whose value is an array must have seven parts. */
  function JCardPropertyValue(c: Ctx, p: Json): (r: Run<Ctx>)
    ensures Grows(c, r) && Restores(c, r)
  {
    var name :- Try(c, FirstItemUpper(p));
    if name != "ADR" then Val(c)
    else
      var value := Item(p, 3);
      var isArray :- Try(c, IsArray(value));
      if isArray then Val(Check(c, |value.elems| == 7, AdrNotSevenParts, "")) else Val(c)
  }

  /**
   * The gTLD profile's check of one vCard property of an entity: a TEL
   * property with an object of parameters must have a `type` parameter of
   * `voice` or `fax`; an ADR property must have a valid `CC` parameter and
   * a seven-part value whose last part is empty.
   */
  function GTLDVCardProperty(c: Ctx, p: Json): (r: Run<Ctx>)
    ensures Grows(c, r) && Restores(c, r)
  {
    var name :- Try(c, FirstItemUpper(p));
    if name == "TEL" then
      var params := Item(p, 1);
      var isObject :- Try(c, IsObject(params));
      if isObject then Val(Check(c, TelTypeVerdict(params.members), TelTypeMissing, "")) else Val(c)
    else if name == "ADR" then GTLDAddress(c, p)
    else Val(c)
  }

  /** The ADR part of the gTLD vCard check. */
  function GTLDAddress(c: Ctx, p: Json): (r: Run<Ctx>)
    ensures Grows(c, r) && Restores(c, r)
  {
    var params :- Try(c, At(p, 1));
    var c1 :- AddressCountryCode(c, params);
    AddressValue(c1, Item(p, 3))
  }

  /**
   * The ADR parameters must name a `CC` parameter, in any letter case,
   * whose value is a country code; reading the keys of `null` or
   * `undefined` throws.
   */
  function AddressCountryCode(c: Ctx, params: Json): (r: Run<Ctx>)
    ensures r.Thrown? <==> Nullish(params)
    ensures Grows(c, r) && Restores(c, r)
  {
    var keys :- Try(c, ObjectKeys(params));
    var ccKey := FirstKeyMatching(keys, "CC");
    var c1 := Check(c, ccKey.Some?, AdrCountryCodeMissing, "");
    Val(if ccKey.Some? then CountryCode(c1, Prop(params, ccKey.value)) else c1)
  }

  /** The ADR value, under `[3]`, must be an array; when it has seven parts, the last is checked. */
  function AddressValue(c: Ctx, value: Json): (r: Run<Ctx>)
    ensures r.Thrown? <==> value.JNull?
    ensures Grows(c, r) && Restores(c, r)
  {
    var c1 := Push(c, IndexSegment(3));
    var isArray :- Try(c1, IsArray(value));
    var c2 := Check(c1, isArray, AdrValueNotArray, "");
    var c3 := if isArray && |value.elems| == 7 then LastAddressPart(c2, value.elems[6]) else c2;
    Val(Pop(c3))
  }

  /** The `CC` parameter must be an ISO 3166 alpha-2 code. */
  function CountryCode(c: Ctx, cc: Json): (d: Ctx)
    ensures d == Add(c, JBool(cc.JStr? && cc.s in CountryCodes), AdrCountryCodeInvalid(Show(cc)), "")
  {
    Check(c, cc.JStr? && cc.s in CountryCodes, AdrCountryCodeInvalid(Show(cc)), "")
  }

  /** The last part of a seven-part address must be loosely equal to the empty string. */
  function LastAddressPart(c: Ctx, part: Json): (d: Ctx)
    ensures d.path == c.path && d.spec == c.spec
    ensures d.log == c.log + [Result(JBool(LooseEqualsEmpty(part)), AdrLastItemNotEmpty, Join(c.path + [IndexSegment(6)]), None)]
  {
    Pop(Check(Push(c, IndexSegment(6)), LooseEqualsEmpty(part), AdrLastItemNotEmpty, ""))
  }
}
