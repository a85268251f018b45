# RDAP response validator, modelled in Dafny

This project models the core of the validator.rdap.org RDAP validator
(`lib/rdap-validator.js`). The validator is one object with run-scoped
mutable state:

- a JSONPath segment stack `path`;
- an error counter `errors`;
- the specification citations are built from, `currentSpec`.

It walks a parsed RDAP response (RFC 9083) and reports an ordered stream of
results. Each result is a verdict (`true`, `false` or `null` for
information), a message, the JSONPath of the value it is about and a
citation URL. The model also covers `JSONPathParent` from the web front end
(`assets/spa.js`), which undoes the last segment of a path the validator
reported.

How the model is built:

- **Values.** `Json` is a datatype. Objects keep their members in key
  order, since `Object.keys` order is observable. `JUndefined` stands for
  what reading a missing member gives.
- **Exceptions.** A JavaScript exception is a value: `Js<T>` is `Ok(value)`
  or `Throw`. Nothing in the validator catches one, so a throw ends the
  whole run.
- **State.** `Context.Ctx` is the state the checks read and write: the path
  stack, `currentSpec`, the log of results reported so far, the tested URL,
  the response headers and the environment. `ErrorCount(log)` is the
  number of results whose verdict is exactly `false`. The counter
  `errors` always equals it.
- **Validators.** Every `validate*` function, every
  `commonPropertyValidators` entry and every gTLD overlay function is a pure
  function `F(c: Ctx, x: Json): Run<Ctx>`. It gives the state the check
  leaves, or `Thrown(d)`, the state in which an exception escaped. These
  are in modules `Members`, `Semantics`, `Responses`, `Gtld` and
  `Dispatch`.
- **The validator object.** The object itself is the class
  `RdapValidator.Validator`, with fields `path`, `currentSpec`, `errors`,
  `log`, `lastTestedURL`, `lastTestedResponseHeaders` and
  `lastTestedResponse`. The `log` field stands for the results handed to
  the result callback. Its methods change those fields in place, and each one's
  `ensures` ties the new state to the function it implements:
  `Into(St(), o) == F(old(St()), x)`. The loops of the source stay loops in
  methods:
  - `iterate`;
  - the record count of `validateSecureDNS`;
  - the registrar scan of the gTLD domain check;
  - the `for … break` abuse-contact search;
  - the `forEach` loops that fill a `seen` object.
- **Properties.** Module `Properties` states what whole checks report, as
  lemmas over those functions. It covers:
  - iteration order and paths;
  - entity roles;
  - member checks;
  - secureDNS;
  - `rdapConformance` and `objectClassName`;
  - public IDs and links;
  - events, notices and remarks, and jCards;
  - the common object properties and the start of a domain check;
  - the gTLD profile identifiers and events;
  - the first results of a whole run.
- **Foreign code.** What the validator learns from code outside this
  model comes in through `Context.Env`, as functions of their inputs: URL
  parsing, `decodeURI`, NFC normalisation, link resolution and `parseInt`.
  The outcome of the HTTP request is a parameter (`Dispatch.Fetched`).

The model follows the code as written, including the paths where the
JavaScript throws and the checks that leave `path` or `currentSpec`
changed. Where the code evidently means something else, both versions are
modelled; see "## Findings".

## Model

| member | source | states |
|---|---|---|
| Context.Add | lib/rdap-validator.js:2641-2645 | `add` appends exactly one result carrying the verdict, the message, `getPath()` and the citation for the fragment under `currentSpec`; path and spec are unchanged |
| Context.Check | lib/rdap-validator.js:2641-2645 | `add` with a boolean verdict is `Add` with `JBool(pass)` |
| Context.Msg | lib/rdap-validator.js:2651-2653 | `msg` is `add` with a `null` verdict and no citation |
| Context.Push | lib/rdap-validator.js:2248-2250 | `pushPath` appends one segment and changes nothing else |
| Context.Pop | lib/rdap-validator.js:2261-2267 | `popPath` removes the last segment whichever it is; an empty stack stays empty; log and spec unchanged |
| Context.SetSpec | lib/rdap-validator.js:203 | assigning `currentSpec` changes only the spec |
| Context.PushPop | lib/rdap-validator.js:2248-2267 | popping after a push gives back exactly the state pushed from |
| Context.AddCountsErrors | lib/rdap-validator.js:2641-2645 | `add` raises the error count by one exactly when the verdict is literally `false`; `true`, `null` and any other value leave it unchanged |
| Results.ErrorCountAppend | lib/rdap-validator.js:2642 | appending one result adds one error exactly when the result is an error |
| Results.ErrorPositionsAppend | lib/rdap-validator.js:2642 | appending one result adds its position to the failure positions exactly when it is a failure, and nothing else |
| Results.ErrorCountConcat | lib/rdap-validator.js:2642 | the errors of two logs put together add up |
| Results.ErrorCountCountsErrors | lib/rdap-validator.js:196 | the reported error count is zero exactly when no result in the log is a failure |
| Results.HeaderValue | lib/rdap-validator.js:63-66 | a header is found exactly when some header pair has that name |
| Paths.JoinAppend | lib/rdap-validator.js:2223 | `getPath` of a stack extended by segments is the old path followed by the joined new segments |
| Paths.JoinExtends | lib/rdap-validator.js:2223 | a longer stack reads as a path that starts with the shorter stack's path |
| Paths.CallResidue | lib/rdap-validator.js:1749-1757 | what one `popPath` leaves of a segment and the segments a callee leaked: nothing exactly when the callee leaked nothing |
| Paths.PopAfterLeak | lib/rdap-validator.js:2276-2280 | when a callback leaks segments, `iterate`'s `popPath` removes the last leaked segment and not the index it pushed |
| JsRuntime.HasOwn | lib/rdap-validator.js:208 | `hasOwnProperty` throws exactly on `null`/`undefined` and holds exactly for an object with that member |
| JsRuntime.IndexOfFound | lib/rdap-validator.js:219 | `indexOf(t) >= 0` is array membership for arrays, substring search for strings, and throws for every other value |
| JsRuntime.IncludesValue | lib/rdap-validator.js:1582 | `includes(x)` throws exactly on values other than arrays and strings; on an array it is membership of `x`, on a string it is a substring search for `String(x)` |
| JsRuntime.LooseEqualsText | lib/rdap-validator.js:1587 | `v != "rdap_level_0"` compares strings by content and never equates the text with `null`, a boolean or a number |
| JsRuntime.LooseEqualsEmpty | lib/rdap-validator.js:1645 | `v == ""` holds for the empty string and never for `null`, `undefined` or an object |
| JsRuntime.LengthPositive | lib/rdap-validator.js:2143 | `v.length > 0` (also at lines 559, 1374 and 1546) throws exactly on `null`/`undefined`, measures strings and arrays, is false for booleans and numbers, and on an object compares its own `length` member as a number: false when it is missing, the integer's sign, a boolean's value, and for a string whether `Number(s) > 0` (`TextPositive`) |
| JsRuntime.TextPositiveDigits | lib/rdap-validator.js:2143 | a string of decimal digits converts to a positive number exactly when the number its digits name (`DigitsValue`) is positive |
| JsRuntime.DigitsValuePositive | lib/rdap-validator.js:2143 | the number a digit string names is positive exactly when one of its digits is not 0 |
| JsRuntime.LeadingSpaceIgnored | lib/rdap-validator.js:2143 | white space before the text does not change whether it converts to a positive number |
| JsRuntime.TextPositiveForms | lib/rdap-validator.js:2143 | "1.5", "1e3", "+1", " 1", "0x1" and "Infinity" all convert to positive numbers |
| JsRuntime.TextNotPositiveForms | lib/rdap-validator.js:2143 | "0", "-1", "abc", "" and "0x" do not |
| JsRuntime.FirstIndex | lib/rdap-validator.js:2143 | the position found is the first holding one of the searched characters, or the end when none does |
| JsRuntime.ToUpperCase | lib/rdap-validator.js:608 | `toUpperCase` exists only on strings and maps each character |
| JsRuntime.UpperChars | lib/rdap-validator.js:608 | upper-casing maps every character on its own and keeps the length |
| Predicates.CheckType | lib/rdap-validator.js:2224 | `checkType(v, t)` throws exactly on `null`, and otherwise holds exactly when `v` is not `undefined` and its constructor is named `t` |
| Predicates.GuardsAreCheckType | lib/rdap-validator.js:2224-2229 | each type guard equals `checkType` with its constructor name; `isInteger` adds `Number.isInteger` |
| Predicates.StringNamed | lib/rdap-validator.js:2225 | a value's constructor is named `String` exactly when it is a string |
| Predicates.IsULabel | lib/rdap-validator.js:2235-2243 | the `isULabel` loop returns what the as-written predicate says: the one code point at `codePointAt(label)` is above 126 |
| Predicates.ULabelLooksAtFirstCharacter | lib/rdap-validator.js:2237 | for a label not starting with a digit, `isULabel` looks only at its first character |
| Predicates.ULabelMissesLaterCharacters | lib/rdap-validator.js:2237 | "aé" contains a non-ASCII character yet is not reported as a U-label |
| Predicates.ULabelAsWrittenFindsNonAscii | lib/rdap-validator.js:2235-2243 | whatever `isULabel` accepts does contain a non-ASCII character |
| Predicates.IsULabelIntended | lib/rdap-validator.js:2235-2243 | the corrected loop returns true exactly when some character is above 126 |
| Predicates.SplitOn | lib/rdap-validator.js:725 | splitting on a separator gives at least one piece and no piece contains the separator |
| Predicates.SplitJoin | lib/rdap-validator.js:725 | splitting joined pieces gives the pieces back |
| Predicates.DottedQuadAccepted | lib/rdap-validator.js:725 | four 1-3 digit groups joined by dots pass the IPv4 test |
| Predicates.ElementTypesMeaning | lib/rdap-validator.js:863-864 | mapping the description to constructor names throws exactly on a `null`/`undefined` element, and otherwise gives each element's name |
| Predicates.FirstOccurrencesSet | lib/rdap-validator.js:865 | the de-duplicating filter keeps exactly the names that occur |
| Predicates.FirstOccurrencesHead | lib/rdap-validator.js:865 | the de-duplicating filter keeps the first name first |
| Predicates.FirstOccurrencesConstant | lib/rdap-validator.js:865 | a list of only `String` names de-duplicates to `["String"]` |
| Predicates.DescriptionVerdictMeaning | lib/rdap-validator.js:863-871 | the description test throws when the description is not an array or holds `null`; otherwise it passes exactly for a non-empty array of strings |
| Tables.ObjectClassNameReference | lib/rdap-validator.js:2678-2684 | a section reference exists exactly for the five object types |
| Queries.RoleAssertionMeaning | lib/rdap-validator.js:484-490 | a role passes exactly when it is one of the registered role strings |
| Queries.TypeTest | lib/rdap-validator.js:409-416 | a member's kind test throws exactly on `null` and holds exactly for a value of the rule's kind |
| Queries.FirstItemUpper | lib/rdap-validator.js:569 | `n[0].toUpperCase()` is the upper-cased item 0 of an array whose item 0 is a string, the upper-cased first character of a non-empty string, and the upper-cased member "0" of an object whose member "0" is a string; every other value throws |
| Queries.PropertyNamePresentMeaning | lib/rdap-validator.js:568-571 | the VERSION/FN filter throws exactly when some property's `[0].toUpperCase()` throws, and otherwise holds exactly when some property is named so |
| Queries.HasRole | lib/rdap-validator.js:1763-1767 | the role filter throws exactly on `null` or a `null` roles member, and holds exactly for an object whose `roles` array contains the role |
| Queries.SomeWithRole | lib/rdap-validator.js:1659 | the role search over entities throws exactly when the test throws for some entity, and otherwise holds exactly when some entity has the role |
| Queries.FirstRoleIndex | lib/rdap-validator.js:2001-2011 | the index the abuse search stops at lies between its start and the list's end |
| Queries.FirstRoleIndexMeaning | lib/rdap-validator.js:2001-2011 | the search stops at the first entity with the role, or at the first that throws before any has it, and no earlier entity had it |
| Queries.FirstWithRole | lib/rdap-validator.js:2001-2011 | the `for … break` loop returns the index `FirstRoleIndex` gives, or throws where it throws |
| Queries.IanaIdsOf | lib/rdap-validator.js:1968 | the public-ID filter throws exactly on a `null`/`undefined` ID and keeps exactly the IDs of the IANA type |
| Queries.IanaIds | lib/rdap-validator.js:1968 | `publicIds.filter` throws unless `publicIds` is an array without `null` IDs, and keeps exactly the IANA registrar IDs |
| Queries.IanaIdTypeMatches | lib/rdap-validator.js:1967-1968 | an ID of type "IANA Registrar ID" is kept and one of another type is not |
| Queries.LinkQualifies | lib/rdap-validator.js:1825-1830 | as written, a link qualifies when it has the rel and any `href`, and its NOTICE's `href` equals the wanted URL; it throws on a `null` link, and on a matching link of a `null`/`undefined` notice |
| Queries.SomeLinkQualifies | lib/rdap-validator.js:1825-1831 | the link filter finds a link exactly when some link qualifies as written |
| Queries.NoticeQualifies | lib/rdap-validator.js:1820-1831 | a notice qualifies exactly when it is an object with the title, with `href` equal to the wanted URL, and with a `links` array free of `null` that holds an object link with the rel and some `href`; it throws exactly on a `null` notice, or on a titled notice whose `links` is `null` or an array holding `null` |
| Queries.QualifyingNotices | lib/rdap-validator.js:1819-1834 | the filter throws exactly when some notice's test throws; the count is at most the number of notices and positive only if some notice qualifies |
| Queries.QualifyingNoticesCount | lib/rdap-validator.js:1819-1834 | the count is exactly the number of positions holding a qualifying notice (`QualifyingIndices`) |
| Queries.QualifyingIndicesSplit | lib/rdap-validator.js:1819-1834 | the last notice adds one to the count of qualifying positions exactly when it qualifies |
| Queries.LinkQualifiesIntended | lib/rdap-validator.js:1825-1830 | the corrected filter keeps exactly a link with that rel and that `href`; it throws only on `null` |
| Queries.NoticeLinkHrefIgnored | lib/rdap-validator.js:1830 | a "Status Codes" notice whose link has rel "glossary" and href "https://icann.org/epp" does not count as written, but its link qualifies under the corrected filter |
| Queries.ActionsSeenMeaning | lib/rdap-validator.js:1784-1791 | the `seen` object throws exactly on a `null` event and otherwise holds exactly the string forms of the events' `eventAction`s |
| Queries.ActionsSeenThrowsOn | lib/rdap-validator.js:1786-1790 | once a prefix of the events throws, the whole walk throws |
| Queries.EventActionsSeen | lib/rdap-validator.js:1784-1791 | the `forEach` loop filling `seen` computes `ActionsSeen` |
| Queries.SomeReportsLastUpdate | lib/rdap-validator.js:1671 | the "last update of RDAP database" filter throws on a `null` event and otherwise finds such an event exactly when one exists |
| Queries.LastUpdatePresent | lib/rdap-validator.js:1670-1673 | the same test on the `events` value throws unless it is an array |
| Queries.FirstKeyMatching | lib/rdap-validator.js:1614 | `filter(…).shift()` is the first parameter key that upper-cases to the name (every key before it does not), or none exactly when none does |
| Queries.TelTypeVerdict | lib/rdap-validator.js:1612-1618 | a TEL passes exactly when the first parameter whose name upper-cases to TYPE has the value "voice" or "fax" |
| Queries.TypeParameterFound | lib/rdap-validator.js:1614-1616 | the key the search finds is that of the first TYPE parameter, and reading `p[1][k]` gives that parameter's value |
| Queries.TelTypeSpellings | lib/rdap-validator.js:1614-1616 | `{"Type": "fax"}` passes; `{"type": "Voice"}` fails, since the value is compared case-sensitively |
| Queries.StreetPresent | lib/rdap-validator.js:2136-2145 | the street test holds exactly for a non-empty string or an array with an element whose `length` is positive (a non-empty string or array, or an object whose own `length` member converts to a positive number, strings read by `TextPositive`), and throws exactly on `null` or an array with a `null`/`undefined` element |
| Queries.SomeNonEmpty | lib/rdap-validator.js:2143 | `filter((s) => s.length > 0)` throws exactly when some element is `null`/`undefined` and otherwise finds an element exactly when one has a positive `length`, objects included (their `length` member converted by `TextPositive` when it is a string) |
| Queries.CityPresent | lib/rdap-validator.js:2151 | the city test holds exactly for a non-empty string and throws on `null` |
| Queries.ArrayPropertyNames | lib/rdap-validator.js:1724-1726 | collecting the registrant's property names throws exactly on a `null` property or an array property whose name cannot be upper-cased |
| Queries.GTLDRegistrantEntity | lib/rdap-validator.js:1716-1729 | the registrant check reports nothing and throws exactly when its property-name walk does |
| Queries.NonBaseEntries | lib/rdap-validator.js:1587 | the filter keeps exactly the entries not loosely equal to "rdap_level_0" |
| Queries.NestedBaseLevelDropped | lib/rdap-validator.js:1587 | `["rdap_level_0"]` nested in an array is loosely equal to the text and is dropped too |
| Queries.NamesSeenMeaning | lib/rdap-validator.js:2027 | the abuse card's `seen` throws exactly when some property's name cannot be upper-cased, and otherwise holds exactly the upper-cased names |
| Queries.NamesSeenThrows | lib/rdap-validator.js:2027 | the scan throws exactly when some property's name cannot be upper-cased |
| Queries.NamesSeenNames | lib/rdap-validator.js:2027 | a scan that returns has seen a name exactly when some property upper-cases to it |
| Queries.NameSource | lib/rdap-validator.js:2027 | every name seen comes from a property at some index |
| Queries.NameRecorded | lib/rdap-validator.js:2027 | every property's upper-cased name is among those seen |
| Queries.NamesSeenThrowsOn | lib/rdap-validator.js:2027 | once a prefix of the properties throws, the whole walk throws |
| Queries.PropertyNamesSeen | lib/rdap-validator.js:2026-2027 | the `forEach` loop filling `seen` computes `NamesSeen` |
| Members.MemberCheck | lib/rdap-validator.js:405-420 | one member check under `.member`: the log only grows and a return restores the path |
| Members.KindCheck | lib/rdap-validator.js:413-416 | the kind test throws exactly on `null` and otherwise reports its verdict with the rule's message |
| Members.MemberChecks | lib/rdap-validator.js:405-420 | a list of member checks grows the log and restores the path |
| Members.RDAPConformance | lib/rdap-validator.js:202-226 | `validateRDAPConformance` grows the log and restores the path |
| Members.ConformanceValue | lib/rdap-validator.js:212-222 | the array and `rdap_level_0` tests grow the log and restore the path |
| Members.ObjectClassName | lib/rdap-validator.js:253-281 | `validateObjectClassName` grows the log and restores the path |
| Members.ClassNameValue | lib/rdap-validator.js:266-276 | the string and equality tests grow the log and restore the path |
| Members.Link | lib/rdap-validator.js:747-821 | `validateLink` grows the log and restores the path; it gives back `currentSpec` for an object and leaves "rfc9083" for anything else; a non-object throws exactly when it is `null` |
| Members.LinkTargets | lib/rdap-validator.js:791-818 | without `value` or `href` nothing happens; with both, when either fails to resolve a failure carrying the URL parser's error comes first, then whether `value` resolves against the tested URL, then whether `href` also resolves against it, all at the link's path citing section 4.2; path and spec unchanged |
| Members.PublicId | lib/rdap-validator.js:968-998 | `validatePublicId` grows the log and restores the path |
| Members.PublicIdMember | lib/rdap-validator.js:980-995 | one public ID member grows the log and restores the path |
| Members.StringProperty | lib/rdap-validator.js:1009-1020 | a string-valued common property grows the log and restores the path |
| Members.Description | lib/rdap-validator.js:850-874 | the description checks grow the log and restore the path |
| Members.DescriptionValue | lib/rdap-validator.js:857-871 | the array and only-strings tests grow the log and restore the path |
| Members.NoticeType | lib/rdap-validator.js:876-892 | the type checks grow the log and restore the path |
| Members.EventMember | lib/rdap-validator.js:914-958 | one event member grows the log and restores the path |
| Members.EventValue | lib/rdap-validator.js:924-954 | the string, action and date tests grow the log and restore the path |
| Members.UnicodeName | lib/rdap-validator.js:296-306 | the unicodeName/ldhName comparison grows the log and restores the path |
| Members.StringField | lib/rdap-validator.js:1249-1277 | one string field grows the log and restores the path |
| Members.FieldValue | lib/rdap-validator.js:1252-1273 | a field's tests grow the log and restore the path |
| Members.StringFields | lib/rdap-validator.js:1248-1277 | the string fields in order grow the log and restore the path |
| Members.RequiredProperty | lib/rdap-validator.js:568-571 | the VERSION/FN check grows the log and restores the path |
| Members.JCardPropertyType | lib/rdap-validator.js:602-614 | the property type step grows the log and restores the path |
| Members.JCardPropertyValueType | lib/rdap-validator.js:637-654 | the value type step grows the log and restores the path |
| Members.JCardPropertyValue | lib/rdap-validator.js:659-670 | the ADR length step grows the log and restores the path |
| Members.GTLDVCardProperty | lib/rdap-validator.js:1611-1654 | one vCard property of a gTLD response entity grows the log and restores the path |
| Members.GTLDAddress | lib/rdap-validator.js:1621-1653 | the ADR checks grow the log and restore the path |
| Members.AddressCountryCode | lib/rdap-validator.js:1622-1631 | the country-code check throws exactly when the ADR parameters are `null` or `undefined`; it grows the log and restores the path |
| Members.AddressValue | lib/rdap-validator.js:1633-1652 | the ADR value check throws exactly when the value is `null`; it grows the log and restores the path |
| Members.CountryCode | lib/rdap-validator.js:1626-1630 | the CC check passes exactly for a string among the ISO 3166 codes |
| Members.LastAddressPart | lib/rdap-validator.js:1642-1649 | the last ADR item is reported at `[6]`, passing exactly when it is loosely equal to "" |
| Semantics.Iterate | lib/rdap-validator.js:2273-2282 | `iterate` restores the path and throws at once on anything but an array |
| Semantics.IterFrom | lib/rdap-validator.js:2273-2282 | the walk from element `i` grows the log and restores the path |
| Semantics.IterFromStep | lib/rdap-validator.js:2275-2281 | one step pushes `[i]`, runs the callback, pops and goes on with `i + 1`; an exception ends the walk |
| Semantics.Invoke | lib/rdap-validator.js:2278 | every callback grows the log and restores the path |
| Semantics.ArrayValue | lib/rdap-validator.js:366-381 | an array-valued member's check grows the log and restores the path |
| Semantics.ArrayMember | lib/rdap-validator.js:361-385 | the check of an optional array member grows the log and restores the path |
| Semantics.ArrayMemberSteps | lib/rdap-validator.js:362-384 | push the member, throw on a `null` owner, skip a missing member, otherwise check it as an array and pop |
| Semantics.CommonProperty | lib/rdap-validator.js:1009-1208 | a common property validator restores the path; the array-valued ones leave "rfc9083" as `currentSpec` on their early return, and the others give it back; `null` throws; otherwise the first result is the kind test, and a string-valued property or a non-array value reports nothing else |
| Semantics.CommonObjectProperties | lib/rdap-validator.js:1213-1232 | `validateCommonObjectProperties` grows the log and restores the path |
| Semantics.CommonFrom | lib/rdap-validator.js:1220-1231 | the common properties from position `i` on grow the log and restore the path |
| Semantics.CommonMember | lib/rdap-validator.js:1222-1230 | one present common property grows the log and restores the path |
| Semantics.NoticeOrRemark | lib/rdap-validator.js:826-897 | `validateNoticeOrRemark` grows the log and restores the path; it gives back `currentSpec` for an object and leaves "rfc9083" otherwise; a non-object throws exactly when it is `null`, and otherwise reports exactly the message and a failing object test citing section 4.3 |
| Semantics.NoticeOrRemarkMembers | lib/rdap-validator.js:838-894 | the `title`, `description` and `type` checks and the common properties of a notice object grow the log and restore the path |
| Semantics.Event | lib/rdap-validator.js:902-963 | `validateEvent` grows the log and restores the path; it gives back `currentSpec` for an object and leaves "rfc9083" otherwise; a non-object throws exactly when it is `null`, and otherwise reports exactly the message and a failing object test citing section 4.5 |
| Semantics.DSData | lib/rdap-validator.js:397-423 | `validateDSData` grows the log and restores the path |
| Semantics.KeyData | lib/rdap-validator.js:428-453 | `validateKeyData` grows the log and restores the path |
| Semantics.SecureDNS | lib/rdap-validator.js:337-392 | `validateSecureDNS` grows the log and restores the path |
| Semantics.SignedRecordMembers | lib/rdap-validator.js:358-391 | the record checks of a signed delegation grow the log and restore the path |
| Semantics.Domain | lib/rdap-validator.js:289-332 | `validateDomain` grows the log and restores the path |
| Semantics.DomainNameservers | lib/rdap-validator.js:308-323 | the nameservers check grows the log and restores the path |
| Semantics.DomainSecureDNS | lib/rdap-validator.js:325-331 | the secureDNS member grows the log and restores the path |
| Semantics.Entity | lib/rdap-validator.js:461-545 | `validateEntity` grows the log and restores the path |
| Semantics.EntityRoles | lib/rdap-validator.js:471-493 | the roles check grows the log and restores the path |
| Semantics.EntityVCard | lib/rdap-validator.js:494-520 | the vcardArray check grows the log and restores the path |
| Semantics.JCard | lib/rdap-validator.js:550-572 | `validateJCard` grows the log and restores the path; `null` throws right after the message; otherwise the message and the array test come first; a non-array stops there, and an array reports next whether it is non-empty, stopping there when it is empty |
| Semantics.JCardProperty | lib/rdap-validator.js:577-597 | `validateJCardProperty` grows the log and restores the path |
| Semantics.JCardSteps | lib/rdap-validator.js:589-596 | the four property steps from step `i` grow the log and restore the path |
| Semantics.JCardStep | lib/rdap-validator.js:589-596 | one property step grows the log and restores the path |
| Semantics.JCardPropertyParameters | lib/rdap-validator.js:619-632 | the parameter check grows the log and restores the path |
| Semantics.Nameserver | lib/rdap-validator.js:678-742 | `validateNameserver` grows the log and restores the path |
| Semantics.IPAddresses | lib/rdap-validator.js:701-741 | the ipAddresses check grows the log and restores the path |
| Semantics.AddressList | lib/rdap-validator.js:711-738 | one address list grows the log and restores the path |
| Semantics.IPNetwork | lib/rdap-validator.js:1240-1280 | `validateIPNetwork` grows the log and restores the path |
| Semantics.Autnum | lib/rdap-validator.js:1288-1334 | `validateAutnum` grows the log and restores the path |
| Semantics.GTLDResponseEntity | lib/rdap-validator.js:1600-1662 | the entity closure of the gTLD response checks grows the log and restores the path |
| Semantics.GTLDResponseEntityVCard | lib/rdap-validator.js:1608-1657 | the entity's vCard properties grow the log and restore the path |
| Responses.Notices | lib/rdap-validator.js:231-248 | `validateNotices` restores the path; a value that is neither `null` nor an array gets exactly one failure at `.notices` under "rfc9083" |
| Responses.Help | lib/rdap-validator.js:1360-1388 | `validateHelp` gives back path and spec; a help object without `notices` gets the message and exactly one failure at `.notices` |
| Responses.HelpNotices | lib/rdap-validator.js:1373-1382 | `null`/`undefined` notices throw at once; an array first reports whether it is non-empty, citing section 7; any other value reports its `length > 0` verdict (`LengthPositive`, which converts an object's `length` member as `Number` does) and then throws in `iterate` |
| Responses.SearchResults | lib/rdap-validator.js:1404-1418 | after the common properties (whose throw it passes on), the results member is pushed and it reports exactly: whether the member is present, then, when it is, whether it is an array, both citing the fragment; it answers true exactly when the member is an array |
| Responses.DomainSearch | lib/rdap-validator.js:1396-1428 | `validateDomainSearch` restores path and spec |
| Responses.NameserverSearch | lib/rdap-validator.js:1436-1468 | whenever `validateNameserverSearch` returns, its last result is a failure, since a present results array makes it call the missing `self.validate` |
| Responses.EntitySearch | lib/rdap-validator.js:1476-1502 | whenever `validateEntitySearch` returns, its last result is a failure, for the same reason |
| Responses.Error | lib/rdap-validator.js:1510-1558 | `validateError` restores path and spec, and throws whenever `notices` is an array |
| Responses.ErrorNotices | lib/rdap-validator.js:1538-1557 | the `notices` part of an error response restores path and spec when it returns, and throws whenever `notices` is an array |
| Gtld.PresenceCheck | lib/rdap-validator.js:1736-1743 | a presence check reports whether the member is there, at `.member`, and restores the path; it throws only on `null`/`undefined` |
| Gtld.Present | lib/rdap-validator.js:1736-1743 | the same check on a value known not to be `null` |
| Gtld.ResponseProperties | lib/rdap-validator.js:1563-1677 | throws at once if the tested URL does not parse; otherwise it always reports at least two results, the first two being the https scheme verdict and the CORS header verdict at the current path |
| Gtld.ResponseMembers | lib/rdap-validator.js:1575-1676 | the conformance, entity and last-update checks of a gTLD response grow the log and restore the path |
| Gtld.ProfileConformance | lib/rdap-validator.js:1575-1595 | the gTLD conformance check grows the log and restores the path; a `null`/`undefined` response throws at once; without `rdapConformance`, or with one that is not an array, it reports nothing; with an array, its first results are the two profile identifier checks as written |
| Gtld.ProfileIdsAsWritten | lib/rdap-validator.js:1578-1584 | the profile loop as written reports two results at the current path, one per profile identifier, each passing exactly when the array holds `undefined` |
| Gtld.ProfileIdsAsWrittenFail | lib/rdap-validator.js:1582 | since parsed JSON never holds `undefined`, both profile results as written are failures for every conformance array |
| Gtld.ProfileIdsIntended | lib/rdap-validator.js:1578-1584 | the corrected loop reports, for each profile identifier in turn, a pass exactly when the array contains it and a failure exactly when it does not |
| Gtld.DeclaredProfilesRejected | lib/rdap-validator.js:1578-1584 | `["rdap_level_0"` and both gTLD profile IDs`]` fails both profile checks as written and passes both corrected ones |
| Gtld.ResponseEntities | lib/rdap-validator.js:1597-1665 | the response entity loop grows the log and restores the path |
| Gtld.LastUpdate | lib/rdap-validator.js:1667-1676 | as written, it reports exactly when `events` is present and `entities` (not `events`) is an array, one result at `.events` saying whether some event is the last database update; it throws exactly on a nullish response, a `null` `entities` beside `events`, or an `events` value the filter cannot run on; otherwise the state is unchanged |
| Gtld.LastUpdateIntended | lib/rdap-validator.js:1667-1676 | the corrected test reports exactly when `events` is an array, one result saying whether some event is the last database update, and throws only on a nullish response, a `null` `events` or a `null` event |
| Gtld.LastUpdateNeedsEntities | lib/rdap-validator.js:1667 | a response with the last-update event and no `entities` gets no result as written and a passing one when corrected |
| Gtld.LastUpdateEventsObject | lib/rdap-validator.js:1667-1671 | with `events` an object and `entities` an array the check throws as written, while the corrected test skips it |
| Gtld.RegistryDomain | lib/rdap-validator.js:1682-1686 | the registry domain check grows the log; the path may keep leaked segments |
| Gtld.DomainChecks | lib/rdap-validator.js:1684-1685 | the response and domain checks grow the log; the path may keep leaked segments |
| Gtld.RegistrarDomain | lib/rdap-validator.js:1691-1714 | the registrar domain check grows the log; the path may keep leaked segments |
| Gtld.RegistrantPresent | lib/rdap-validator.js:1696-1713 | reports exactly one result at `.entities`: whether some object entity has the registrant role |
| Gtld.DomainProperties | lib/rdap-validator.js:1734-1889 | a domain object without `entities` is left with `.entities` on the path |
| Gtld.DomainEntities | lib/rdap-validator.js:1747-1780 | without `entities` the only result is the failure, and `.entities` stays pushed |
| Gtld.DomainRegistrars | lib/rdap-validator.js:1759-1780 | the registrar scan and verdict keep the path at or above its parent; a throwing scan throws there; otherwise the next result, at the path the scan leaves, is whether some entity has the registrar role |
| Gtld.RegistrarScan | lib/rdap-validator.js:1759-1773 | the `registrarPresent` flag ends true exactly when it started true or some remaining entity has the registrar role |
| Gtld.RegistrarStep | lib/rdap-validator.js:1762-1772 | one entity sets the flag exactly when it has the registrar role |
| Gtld.DomainRest | lib/rdap-validator.js:1782-1888 | the events, status, notices, nameservers and secureDNS checks grow the log and restore the path |
| Gtld.DomainEvents | lib/rdap-validator.js:1782-1797 | throws exactly when the `seen` walk does; otherwise reports exactly two results at `.events`, for "registration" then "expiration", each passing exactly when that action was seen |
| Gtld.DomainNotices | lib/rdap-validator.js:1809-1854 | the notices check grows the log and restores the path |
| Gtld.ProfileSecureDNS | lib/rdap-validator.js:1865-1888 | the secureDNS check adds at most two errors |
| Gtld.SignedRecordsVerdict | lib/rdap-validator.js:1882 | as written the verdict is a number: never `false`, and 0 exactly when neither record list is present |
| Gtld.SignedRecordsVerdictIntended | lib/rdap-validator.js:1880-1885 | the corrected verdict is `false` exactly when neither record list is present |
| Gtld.UnsignedRecordsNotCounted | lib/rdap-validator.js:1880-1885 | for a signed delegation with no records, the as-written check adds no error and the corrected one adds one |
| Gtld.RecordKinds | lib/rdap-validator.js:1882 | the count of record kinds present is at most 2, and 0 exactly when neither is |
| Gtld.NameProperties | lib/rdap-validator.js:1895-1938 | restores the path; for an owner that is not `null`/`undefined`, the first result is whether the compared member (`unicodeName` when the name counts as a U-label, `ldhName` otherwise) is there, and for a string member the second is the case-insensitive comparison with the queried name; it throws only on a `null` object or a compared member that is not a string |
| Gtld.LdhNameProperties | lib/rdap-validator.js:1896-1915 | the `ldhName` branch: presence, then the case-insensitive comparison at `.ldhName`; throws only on a `null` owner or a non-string `ldhName` |
| Gtld.UnicodeNameProperties | lib/rdap-validator.js:1917-1937 | the `unicodeName` branch: presence, then the case-insensitive comparison at `.unicodeName`; throws only on a `null` owner or a non-string `unicodeName` |
| Gtld.NameMatch | lib/rdap-validator.js:1899-1907 | a missing name gets one failure; a present string gets a pass and then a case-insensitive comparison with the queried name; anything else throws |
| Gtld.RegistrarEntity | lib/rdap-validator.js:1944-2057 | for an entity that is not `null`/`undefined`, the first results are the registrar message, whether `handle` is there (at `.handle`) and whether `publicIds` is there (at `.publicIds`); it throws only on `null` or with a `publicIds` member; the path it leaves is one of the known leaks, and an object without `publicIds` is left with `.publicIds` pushed |
| Gtld.RegistrarPublicIds | lib/rdap-validator.js:1963-2056 | after `publicIds` is found, the check returns either with `.publicIds` popped or with the identifier filter and `.type` left on the path; a throwing filter throws there; otherwise the first result, at `.type`, is whether exactly one IANA registrar ID was found, and with any other count it is the only result |
| Gtld.RegistrarIanaId | lib/rdap-validator.js:1974-1994 | the one IANA ID: `null`/`undefined` or a `null` identifier throws; otherwise the first result, at `.identifier`, is whether the identifier is a string `parseInt` reads; it returns three segments up |
| Gtld.IanaIdentifierChecked | lib/rdap-validator.js:1988-1994 | pops the identifier, reports the "not validated" message at `.publicIds`, and leaves three segments fewer |
| Gtld.IanaIdentifier | lib/rdap-validator.js:1976-1986 | throws exactly on a `null`/`undefined` public ID or a `null` identifier; otherwise reports, at the current path, whether the identifier is a string that `parseInt` reads and only then whether it equals the parsed handle; all its results pass exactly when the identifier is such a string whose number is the handle's |
| Gtld.AbuseContact | lib/rdap-validator.js:1996-2041 | the abuse contact check grows the log and restores the path |
| Gtld.AbuseCard | lib/rdap-validator.js:2019-2035 | the abuse card check grows the log and restores the path |
| Gtld.LinksPresent | lib/rdap-validator.js:2043-2056 | the links check grows the log and restores the path |
| Gtld.Nameserver | lib/rdap-validator.js:2059-2083 | a nameserver object with an `entities` array always throws, since the code reads the undefined `domain` |
| Gtld.Entity | lib/rdap-validator.js:2085-2169 | the gTLD entity check grows the log and only extends the path; `Gtld.RegistrarCardPath` states what it leaves there |
| Gtld.RegistrarRole | lib/rdap-validator.js:2088-2097 | it reports exactly when `roles` is an array: one result at `.roles`, whether it contains "registrar"; it throws exactly on a nullish entity or a `null` `roles`, and otherwise leaves the state unchanged |
| Gtld.RegistrarCard | lib/rdap-validator.js:2099-2168 | the vCard check grows the log and only extends the path; `Gtld.RegistrarCardPath` states exactly what it leaves there |
| Gtld.RegistrarCardPath | lib/rdap-validator.js:2104-2167 | when the vCard check returns, the path is the entity's path followed by `.vcardArray[1]` and the `[i]` of every ADR property except the last, since the final `popPath` removes only the last index left; with no ADR property the path is restored |
| Gtld.RequiredTypes | lib/rdap-validator.js:2162-2165 | reports FN, ADR, TEL, EMAIL in that order, each passing exactly when the type was seen |
| Gtld.TypesSeen | lib/rdap-validator.js:2106-2160 | the walk only adds types and extends the path |
| Gtld.TypesSeenPath | lib/rdap-validator.js:2106-2160 | when the walk returns, the path has grown by exactly the `[i]` of every ADR property, in order: `iterate`'s pop removes the `[1]` the closure left instead of the index |
| Gtld.TypeEntryPath | lib/rdap-validator.js:2110-2130 | one property with its index pushed and popped leaves that index exactly when it is an ADR property, whose pushed `[1]` is never popped because item 1 is a string, not an object |
| Gtld.TypeEntry | lib/rdap-validator.js:2109-2158 | as written, a property records a name exactly when it is an array whose item 1 is a string, and the name is its upper-cased item 0; such a property throws when item 0 cannot be upper-cased; it throws only on `null`, a `null` item 1 or those cases and the ADR branch; an ADR entry leaves `[1]` pushed, and any entry that is not ADR leaves the path as it found it; any other value records nothing and changes nothing |
| Gtld.StandardPropertyUnnamed | lib/rdap-validator.js:2110 | the standard property `["fn", {}, "text", "Jane Doe"]` records no type as written, while the corrected test records "FN" |
| Gtld.TypeNameIntended | lib/rdap-validator.js:2110-2111 | the corrected test throws exactly on a `null` property or a `null` item 0, records the upper-cased item 0 when it is a string, and records no other name |
| Gtld.AddressParts | lib/rdap-validator.js:2132-2156 | the street and city checks grow the log and restore the path |
| Gtld.Help | lib/rdap-validator.js:2171-2174 | the gTLD help check starts with its message and restores the path; when the tested URL parses, the next two results are the https scheme and CORS header verdicts |
| Dispatch.ValidateResponse | lib/rdap-validator.js:88-197 | throws on `null`; any other non-object gets exactly one failure and nothing more; an object run that returns ends with the completion message, which gives the number of errors before it |
| Dispatch.Preamble | lib/rdap-validator.js:98-103 | the conformance, class name and notice checks grow the log and restore the path |
| Dispatch.UrlName | lib/rdap-validator.js:111 | the name from the URL's last path segment, throwing where URL parsing or `decodeURI` throws |
| Dispatch.ByType | lib/rdap-validator.js:105-194 | an unknown response type gets exactly one failure; an RIR nameserver response throws |
| Dispatch.DomainResponse | lib/rdap-validator.js:108-119 | a domain response grows the log |
| Dispatch.NameserverResponse | lib/rdap-validator.js:121-131 | a nameserver response grows the log, and an RIR one always throws |
| Dispatch.EntityResponse | lib/rdap-validator.js:133-143 | an entity response grows the log, and an RIR one that returns ends with the RIR entity placeholder message |
| Dispatch.IPNetworkResponse | lib/rdap-validator.js:145-150 | an IP network response grows the log, and an RIR one that returns ends with the RIR placeholder message |
| Dispatch.AutnumResponse | lib/rdap-validator.js:152-157 | an autnum response grows the log, and an RIR one that returns ends with the RIR placeholder message |
| Dispatch.HelpResponse | lib/rdap-validator.js:159-168 | a help response grows the log |
| Dispatch.ErrorResponse | lib/rdap-validator.js:182-190 | an error response grows the log |
| Dispatch.DomainProfile | lib/rdap-validator.js:113-117 | the server-type switch of a domain grows the log |
| Dispatch.NameserverProfile | lib/rdap-validator.js:126-129 | as written, the RIR case throws at once |
| Dispatch.NameserverProfileIntended | lib/rdap-validator.js:126-129 | calling the RIR check by its defined name reports its one message |
| Dispatch.TestURL | lib/rdap-validator.js:13-48 | a bad response or server type gives a one-result log and completes after it; a failed request reports five results, the last a failure, and never completes |
| Dispatch.Start | lib/rdap-validator.js:15-17 | a run starts with an empty log and `currentSpec` "rfc7480" |
| Dispatch.Requested | lib/rdap-validator.js:31-39 | the four messages, in order, before the request |
| Dispatch.Answered | lib/rdap-validator.js:41-45 | an answered request only adds results; a throwing response check ends the run there and never completes; otherwise the run completes exactly after the response check's results, which the final log keeps, and without the body checks that is the final state |
| Dispatch.TestResponse | lib/rdap-validator.js:57-86 | resets the path to `$`, reports the response, then the status and the media type; it goes on exactly when both are acceptable, with `currentSpec` "rfc9083", and throws exactly when an acceptable status has no content-type |
| RdapValidator.Validator.constructor | lib/rdap-validator.js:2210 | a fresh validator has an empty path and log |
| RdapValidator.Validator.Add | lib/rdap-validator.js:2641-2645 | `add` returns its verdict, updates the state as `Context.Add` and raises `errors` exactly for `false` |
| RdapValidator.Validator.Check | lib/rdap-validator.js:2641-2645 | the boolean `add`, as `Context.Check` |
| RdapValidator.Validator.Msg | lib/rdap-validator.js:2651-2653 | `msg` as `Context.Msg`, with `errors` unchanged |
| RdapValidator.Validator.PushPath | lib/rdap-validator.js:2248-2250 | `pushPath` as `Context.Push` |
| RdapValidator.Validator.PopPath | lib/rdap-validator.js:2261-2267 | `popPath` as `Context.Pop` |
| RdapValidator.Validator.Iterate | lib/rdap-validator.js:2273-2282 | the `iterate` loop leaves exactly the state `Semantics.Iterate` gives |
| RdapValidator.Validator.Visit | lib/rdap-validator.js:2276-2280 | one loop body is one step of `IterFrom` |
| RdapValidator.Validator.SecureDNS | lib/rdap-validator.js:337-392 | `validateSecureDNS` leaves exactly the state `Semantics.SecureDNS` gives |
| RdapValidator.Validator.SignedRecords | lib/rdap-validator.js:358-391 | the record loop computes `count` as the number of DS and key records in arrays, and the state as the function |
| RdapValidator.Validator.RecordMember | lib/rdap-validator.js:361-385 | one record kind adds its array length to `count` |
| RdapValidator.Validator.Records | lib/rdap-validator.js:366-381 | an array record list adds its length and is iterated |
| RdapValidator.Validator.RegistrarScan | lib/rdap-validator.js:1759-1773 | the loop setting `registrarPresent` leaves exactly what `Gtld.RegistrarScan` gives |
| RdapValidator.Validator.ScanStep | lib/rdap-validator.js:1762-1772 | one pass of the loop leaves the state, and the flag, that one step of `Gtld.RegistrarScan` gives, or throws where it throws |
| RdapValidator.Validator.ValidateResponse | lib/rdap-validator.js:88-197 | records the response and leaves exactly the state `Dispatch.ValidateResponse` gives |
| RdapValidator.Validator.TestResponse | lib/rdap-validator.js:57-86 | leaves exactly the state `Dispatch.TestResponse` gives |
| RdapValidator.Validator.TestURL | lib/rdap-validator.js:13-48 | leaves the state `Dispatch.TestURL` gives and records the completion callback when it fires |
| RdapValidator.Validator.Reject | lib/rdap-validator.js:19-29 | an unknown type adds one failure and records the completion right after it |
| RdapValidator.Validator.Request | lib/rdap-validator.js:31-39 | the three messages, the recorded URL and the request message leave the state `Dispatch.Requested` gives |
| RdapValidator.Validator.Send | lib/rdap-validator.js:41-47 | the request's outcome leaves the state `Dispatch.Sent` gives and records the completion when it fires |
| RdapValidator.Validator.Answer | lib/rdap-validator.js:41-45 | the request's callback leaves the state `Dispatch.Answered` gives and records the completion |
| RdapValidator.RecordCountOfMember | lib/rdap-validator.js:364-370 | a record kind counts its array's length, and 0 when missing or not an array |
| Properties.AssertionResults | lib/rdap-validator.js:2273-2282 | one result per element from the start index on |
| Properties.IterateAssertions | lib/rdap-validator.js:2273-2282 | iterating a per-element check reports exactly one result per element, in ascending index order, each at `path[i]`, and restores the path |
| Properties.AssertionResultsUnfold | lib/rdap-validator.js:2273-2282 | the results from index `i` are the result of element `i` followed by those from `i + 1` |
| Properties.AssertionsIterated | lib/rdap-validator.js:2273-2282 | iterating a per-element check over an array appends exactly its per-element results |
| Properties.AssertStep | lib/rdap-validator.js:2275-2281 | one element of such a walk appends its result and moves on |
| Properties.EntityRolesReported | lib/rdap-validator.js:471-493 | an entity with a roles array reports the two passing presence/array results and then one result per role at `.roles[i]` |
| Properties.UnregisteredRoleFails | lib/rdap-validator.js:484-490 | each role not among the registered values gets a failure at a path ending `.roles[i]` |
| Properties.RoleResultAt | lib/rdap-validator.js:484-490 | the result at offset `2 + i` of the role check is the assertion result of role `i` |
| Properties.RolePath | lib/rdap-validator.js:2223 | the path of role `i` reads as the entity's path, `.roles` and `[i]` |
| Properties.MemberCheckReport | lib/rdap-validator.js:405-420 | on an object whose member is not `null`, one member check reports exactly the rule's presence and kind results |
| Properties.MemberChecksReport | lib/rdap-validator.js:405-420 | on such an object, a list of member checks reports exactly its rules' results, rule by rule |
| Properties.NoneFailsConcat | lib/rdap-validator.js:2642 | two lists of results have no failure together exactly when neither has one |
| Properties.RuleResultsPass | lib/rdap-validator.js:409-416 | one rule reports no failure exactly when the object obeys it |
| Properties.RulesResultsPass | lib/rdap-validator.js:405-420 | the member checks report no failure exactly when the object obeys every rule |
| Properties.PublicIdMemberReport | lib/rdap-validator.js:980-995 | one public ID member reports exactly "present", then "is a string" |
| Properties.PublicIdReported | lib/rdap-validator.js:968-998 | a public ID reports exactly the message, the object test and both members' results, even when it is not an object |
| Properties.PublicIdPasses | lib/rdap-validator.js:968-998 | a public ID reports no failure exactly when it is an object whose `type` and `identifier` are strings |
| Properties.LinkReported | lib/rdap-validator.js:747-789 | a link object reports the message, a passing object test and its seven member checks in order, and gives back `currentSpec` |
| Properties.LinkObjectPrefix | lib/rdap-validator.js:747-758 | a link object first reports the link message and a passing object test under RFC 9083 |
| Properties.StringFieldsCountryThrows | lib/rdap-validator.js:1267-1273 | a field list naming `country` throws on a record that has one |
| Properties.IPNetworkCountryThrows | lib/rdap-validator.js:1267-1273 | validating an IP network with a `country` member always throws |
| Properties.AutnumCountryThrows | lib/rdap-validator.js:1321-1327 | validating an autnum with a `country` member always throws |
| Properties.DSDataReports | lib/rdap-validator.js:397-423 | a DS record object reports the message, the object test and then exactly its four member checks |
| Properties.KeyDataReports | lib/rdap-validator.js:428-453 | a key record object reports the message, the object test and then exactly its four member checks |
| Properties.AddressListReported | lib/rdap-validator.js:711-738 | a present address list that is an array reports the array test and one address result per element; any other list throws |
| Properties.AddressArrayReported | lib/rdap-validator.js:711-738 | a present address list that is an array reports the array test and then one address result per element |
| Properties.ClassNameReported | lib/rdap-validator.js:253-281 | a string `objectClassName` reports presence, string and equality with the type, citing the type's section |
| Properties.SecureDNSNotObjectFails | lib/rdap-validator.js:337-343 | a secureDNS value that is not an object reports the message and one failure, and nothing else |
| Properties.SignedDelegationNeedsRecords | lib/rdap-validator.js:358-391 | for a truthy `delegationSigned`, the last result is the record-count check, failing exactly when `dsData` and `keyData` hold no records |
| Properties.ConformanceMissingFails | lib/rdap-validator.js:202-226 | a record without `rdapConformance` gets exactly one failure, at `.rdapConformance`, citing section 4.1 |
| Properties.ConformanceLevelPasses | lib/rdap-validator.js:202-226 | an array containing "rdap_level_0" passes all three conformance checks |
| Properties.DomainEventsFailWhenMissing | lib/rdap-validator.js:1784-1795 | the gTLD domain check fails for "registration" (and for "expiration") exactly when no event has that action |
| Properties.RejectedTypeOneError | lib/rdap-validator.js:19-29 | an unknown response or server type reports one failure and completes, with no traversal and no request |
| Properties.ConformanceMissingAtRoot | lib/rdap-validator.js:57-98 | for a run whose response is acceptable and whose body lacks `rdapConformance`, the completion callback fires after seven results, before the body checks, and the ninth result is the failure at `$.rdapConformance` citing section 4.1 |
| Properties.RootConformancePath | lib/rdap-validator.js:59 | the root path with the conformance segment reads `$.rdapConformance` |
| Properties.ConformanceFirst | lib/rdap-validator.js:92-98 | the conformance check's results follow the object test in the body check's log |
| Properties.EventMemberReport | lib/rdap-validator.js:914-958 | one event member of an event object, when not `null`, reports exactly its presence, string and (for `eventAction`) registered-value or (for `eventDate`) date results at `.eventAction`/`.eventDate`, citing section 4.5 |
| Properties.EventReported | lib/rdap-validator.js:902-960 | an event object whose members are not `null` starts with the message, the passing object test and the results of `eventAction` then `eventDate` |
| Properties.EventPasses | lib/rdap-validator.js:902-958 | those event results have no failure exactly when the event is an object whose `eventAction` is a string among the registered actions and whose `eventDate` is a string |
| Properties.JCardReported | lib/rdap-validator.js:550-572 | a non-empty jCard reports its head, then what the property closure reports; a throw there is the result; then, when every property's first item can be upper-cased, exactly whether a VERSION and an FN property exist, and otherwise it throws |
| Properties.JCardUnfold | lib/rdap-validator.js:550-572 | a non-empty jCard array reports the message and the two passing head tests, iterates its properties, then checks VERSION and FN in that order |
| Properties.RequiredPropertyReport | lib/rdap-validator.js:568-571 | the required-property test throws when some property's first item cannot be upper-cased, and otherwise reports exactly one result: whether some property is named so, ignoring case |
| Properties.ClassNameChecked | lib/rdap-validator.js:253-281 | for a record that is not `null`, whose `objectClassName` is not `null`, the check sets "rfc9083" and appends exactly the presence, string and equality results |
| Properties.ClassNamePasses | lib/rdap-validator.js:253-281 | those results have no failure exactly when `objectClassName` is the type's name |
| Properties.CommonPropertiesClassName | lib/rdap-validator.js:1213-1220 | with a type, the common properties begin with the message and the class name results under "rfc9083", then check the common members from the first |
| Properties.NextCommon | lib/rdap-validator.js:1220-1222 | the next common member to check is the first present one from position `i` on, skipping exactly the missing ones |
| Properties.CommonFromNext | lib/rdap-validator.js:1220-1231 | the common member walk checks the next present member and goes on after it, and stops when none is left |
| Properties.CommonFromSkip | lib/rdap-validator.js:1220-1222 | a common property the record lacks is skipped without a report |
| Properties.CommonFromVisit | lib/rdap-validator.js:1220-1231 | a common property the record has gets its block of checks; a throw there ends the walk, otherwise the walk goes on after it |
| Properties.CommonMemberReported | lib/rdap-validator.js:1222-1230 | a present, non-`null` common member first reports the "checking" message and the kind test at its own path; a string-valued or non-array one reports nothing else |
| Properties.StatusReported | lib/rdap-validator.js:1125-1145 | a `status` array reports the array test and one registered-value result per element at `[i]` |
| Properties.DomainReported | lib/rdap-validator.js:289-295 | a domain that is not `null` starts with the domain message, the common properties message and its class name results for "domain" |
| Properties.DescriptionReported | lib/rdap-validator.js:850-874 | for a notice object whose description test returns, the `description` check appends exactly presence, then array and only-strings results, at `.description` citing section 4.3 |
| Properties.NoticeTypeReported | lib/rdap-validator.js:876-892 | a notice object with a non-`null` `type` reports exactly its string and registered-value results at `.type`; without `type`, nothing |
| Properties.NoticeOrRemarkReported | lib/rdap-validator.js:826-894 | a notice object whose members return starts with the message, the passing object test and the title, description and type results |
| Properties.NoticeMembersReported | lib/rdap-validator.js:838-894 | the title, description and type checks append exactly their results, and the common properties run on what they leave |
| Properties.NoticeObjectUnfold | lib/rdap-validator.js:826-897 | for an object, the notice check reports the message and the passing object test under "rfc9083", checks its members and gives back `currentSpec` |
| Properties.NoticePasses | lib/rdap-validator.js:826-894 | those notice results have no failure exactly when it is an object with a string `title` if any, a non-empty `description` array of strings, and a registered string `type` if any |
| Properties.IterFromRunsEach | lib/rdap-validator.js:2273-2282 | when an `iterate` returns, element `j`'s callback ran with `[j]` on the path, returned, and its log is kept |
| Properties.NoticesEach | lib/rdap-validator.js:231-248 | a `notices` array checked to the end reports a passing array test at `.notices`, and every notice was checked at `.notices[j]` with its results kept |
| Properties.ProfileConformanceReported | lib/rdap-validator.js:1575-1595 | a `rdapConformance` array reports the two profile results as written and then one registration result per entry other than "rdap_level_0", under `.rdapConformance`, and gives back the path |
| SpaPaths.TrailingDigitCount | assets/spa.js:122 | the number of digits a path ends with, each a digit and the one before not |
| SpaPaths.WithoutTrailingIndex | assets/spa.js:122 | removing a trailing `[digits]` gives a prefix |
| SpaPaths.LastDot | assets/spa.js:125 | the position of the last dot, with no dot after it |
| SpaPaths.WithoutTrailingMember | assets/spa.js:125 | removing a trailing `.segment` gives a prefix |
| SpaPaths.Parent | assets/spa.js:112-127 | there is no parent exactly for the empty path and a path ending in `$`; a parent is a prefix of the path |
| SpaPaths.TrailingDigitsOfIndex | assets/spa.js:122 | a path ending `[digits` ends in exactly those digits |
| SpaPaths.ParentStripsIndex | assets/spa.js:121-122 | a path ending in `[digits]` has exactly that index removed |
| SpaPaths.LastDotOfMember | assets/spa.js:125 | the last dot of `p.name` is the one before `name` when `name` has no dot |
| SpaPaths.ParentStripsMember | assets/spa.js:124-125 | a path ending in `.name` (no dot in `name`, not ending in `]` or `$`) has exactly that segment removed |
| SpaPaths.ParentUndoesPush | assets/spa.js:112-127 | for a segment `[n]` or `.name`, the parent of the joined stack is the joined stack without that segment |
| SpaPaths.ParentSplitsCompoundSegment | assets/spa.js:112-127 | after the compound segment `.vcardArray[1]`, the parent is the path ending `.vcardArray`, not the one before the segment |

## Left out

- Unicode case mapping: `Upper`/`Lower` map ASCII letters only. JavaScript's `toUpperCase`/`toLowerCase` use full Unicode mapping. So a key such as "pıd" (dotless ı) upper-cases to "PID" in JavaScript, but to "PıD" here.
- NFC normalisation, `decodeURI`, URL parsing and URL resolution are parameters (`Context.Env`). The model assumes nothing of them beyond being functions of their inputs.
- `parseInt` is a parameter too (`Env.parseInt`); `None` stands for `NaN`.
- JavaScript strings are sequences of UTF-16 code units; a model string is a sequence of code points. So `.length`, `s[i]` and `codePointAt` (`JsRuntime.At`, `JsRuntime.LengthPositive`, `Predicates.IsULabel`) differ from JavaScript on characters outside the Basic Multilingual Plane. No result here depends on it: string lengths are only compared with 0; `isULabel` reads either the first character, where `codePointAt` returns the whole code point, or the index its all-digit label names, in a string with no such character.
- JsRuntime.IncludesValue: on an array, `x in a` compares structurally; JavaScript's `includes` uses SameValueZero, which compares objects and arrays by reference. Every call in the validator searches for a string or `undefined`, where the two agree.
- JsRuntime.LengthPositive: a string `length` member is converted only as far as the sign of the number it names (`TextPositive`). A decimal literal that underflows to 0, such as "1e-400", counts as positive here, but JavaScript reads it as 0.
- `Predicates.ExaminedIndex`: `codePointAt(label)` converts the label to a number. The model reads a label of decimal digits as that number and any other label as 0. JavaScript also trims white space and accepts forms such as "0x1".
- `JsRuntime.Show`: prints integers in decimal. JavaScript switches to exponent notation at 10^21 and loses precision beyond 2^53. Non-integer numbers are one `JFrac` value carrying their JavaScript rendering; there is no floating point.
- `Json` admits `JUndefined` as a member value, which `JSON.parse` never produces. Lemmas about parsed input require its absence where it matters.
- `popPath`'s optional argument and its `console.warn` are left out: the warning is not a result, and the pop is the same.
- The HTTP request, `res.json()` and the completion callback are asynchronous in the source. Here the request's outcome and the parsed body are parameters, and the run is evaluated in the order the callbacks fire.
- `resultCallback` and `setResultCallback`/`setTestCompleteCallback` are replaced by the log and by the positions at which the run completes.
- `lastTestedResponseType` and `lastTestedServerType` are left out as fields, since nothing reads them. The class keeps `lastTestedURL`, `lastTestedResponseHeaders` and `lastTestedResponse`. The header object is a sequence of name/value pairs, searched from the last pair back, so a repeated header keeps its last value as the object does.
- `new Date(eventDate)` never throws, so the date check always passes, as in the source. Date parsing itself is not modelled.
- `compareUnicode` is the stub it is: the unicodeName comparison always passes.
- Gtld.TypeEntry: the country-code branch inside the ADR case of the gTLD entity check is left out. It needs item 1 to be a string and an object at once, so it can never run.
- Members.MemberCheck: states only that the log grows and the path is restored; Properties.MemberCheckReport states its results for the inputs it covers.
- Members.MemberChecks: states only that the log grows and the path is restored; Properties.MemberChecksReport states its results for the inputs it covers.
- Members.RDAPConformance: states only that the log grows and the path is restored; Properties.ConformanceMissingFails and Properties.ConformanceLevelPasses state its results for the inputs it covers.
- Members.ConformanceValue: states only that the log grows and the path is restored; its individual results are not stated.
- Members.ObjectClassName: states only that the log grows and the path is restored; Properties.ClassNameChecked, Properties.ClassNamePasses and Properties.ClassNameReported state its results for the inputs they cover.
- Members.ClassNameValue: states only that the log grows and the path is restored; Properties.ClassNameChecked states its results for the inputs it covers.
- Members.PublicId: states only that the log grows and the path is restored; Properties.PublicIdReported states its results for the inputs it covers.
- Members.PublicIdMember: states only that the log grows and the path is restored; Properties.PublicIdMemberReport states its results for the inputs it covers.
- Members.StringProperty: states only that the log grows and the path is restored; its individual results are not stated.
- Members.Description: states only that the log grows and the path is restored; Properties.DescriptionReported states its results for the inputs it covers.
- Members.DescriptionValue: states only that the log grows and the path is restored; Properties.DescriptionReported states its results for the inputs it covers.
- Members.NoticeType: states only that the log grows and the path is restored; Properties.NoticeTypeReported states its results for the inputs it covers.
- Members.EventMember: states only that the log grows and the path is restored; Properties.EventMemberReport states its results for the inputs it covers.
- Members.EventValue: states only that the log grows and the path is restored; Properties.EventMemberReport states its results for the inputs it covers.
- Members.UnicodeName: states only that the log grows and the path is restored; its individual results are not stated.
- Members.StringField: states only that the log grows and the path is restored; its individual results are not stated.
- Members.FieldValue: states only that the log grows and the path is restored; its individual results are not stated.
- Members.StringFields: states only that the log grows and the path is restored; Properties.StringFieldsCountryThrows states its results for the inputs it covers.
- Members.RequiredProperty: states only that the log grows and the path is restored; Properties.RequiredPropertyReport states its results for every input.
- Members.JCardPropertyType: states only that the log grows and the path is restored; its individual results are not stated.
- Members.JCardPropertyValueType: states only that the log grows and the path is restored; its individual results are not stated.
- Members.JCardPropertyValue: states only that the log grows and the path is restored; its individual results are not stated.
- Members.GTLDVCardProperty: states only that the log grows and the path is restored; its individual results are not stated.
- Members.GTLDAddress: states only that the log grows and the path is restored; its individual results are not stated.
- Members.AddressCountryCode: states when it throws, that the log grows and that the path is restored; its individual results are not stated.
- Members.AddressValue: states when it throws, that the log grows and that the path is restored; its individual results are not stated.
- Semantics.NoticeOrRemarkMembers: states only that the log grows and the path is restored; Properties.NoticeMembersReported states its results before the common properties for the inputs it covers.
- Gtld.ResponseMembers: states only that the log grows and the path is restored; its individual results are not stated.
- Dispatch.DomainResponse: states only that the log grows; the results of the domain and profile checks are stated by their own members.
- Dispatch.HelpResponse: states only that the log grows; the results of the help checks are stated by their own members.
- Dispatch.ErrorResponse: states only that the log grows; the results of the error checks are stated by their own members.
- Semantics.Iterate: states only that the log grows and the path is restored; Properties.IterateAssertions states its results for the inputs it covers.
- Semantics.IterFrom: states only that the log grows and the path is restored; Properties.IterateAssertions states its results for the inputs it covers.
- Semantics.Invoke: states only that the log grows and the path is restored; its individual results are not stated.
- Semantics.ArrayValue: states only that the log grows and the path is restored; its individual results are not stated.
- Semantics.ArrayMember: states only that the log grows and the path is restored; its individual results are not stated.
- Semantics.CommonObjectProperties: states only that the log grows and the path is restored; Properties.CommonPropertiesClassName states its first results, and Properties.CommonFromNext the order in which the properties are checked.
- Semantics.CommonFrom: states only that the log grows and the path is restored; Properties.CommonFromNext states which property it checks next.
- Semantics.CommonMember: states only that the log grows and the path is restored; Properties.CommonMemberReported states its first results, and all of them for a string-valued or non-array property.
- Semantics.NoticeOrRemark: for an object, states only that the log grows and the path is restored; Properties.NoticeOrRemarkReported states its results before the common properties for the inputs it covers.
- Semantics.Event: for an object, states only that the log grows and the path is restored; Properties.EventReported and Properties.EventPasses state its results before the common properties for the inputs they cover.
- Semantics.DSData: states only that the log grows and the path is restored; Properties.DSDataReports states its results for the inputs it covers.
- Semantics.KeyData: states only that the log grows and the path is restored; Properties.KeyDataReports states its results for the inputs it covers.
- Semantics.SecureDNS: states only that the log grows and the path is restored; Properties.SecureDNSNotObjectFails and Properties.SignedDelegationNeedsRecords state its results for the inputs it covers.
- Semantics.SignedRecordMembers: states only that the log grows and the path is restored; its individual results are not stated.
- Semantics.Domain: states only that the log grows and the path is restored; Properties.DomainReported states its first results for the inputs it covers.
- Semantics.DomainNameservers: states only that the log grows and the path is restored; its individual results are not stated.
- Semantics.DomainSecureDNS: states only that the log grows and the path is restored; its individual results are not stated.
- Semantics.Entity: states only that the log grows and the path is restored; its individual results are not stated.
- Semantics.EntityRoles: states only that the log grows and the path is restored; Properties.EntityRolesReported states its results for the inputs it covers.
- Semantics.EntityVCard: states only that the log grows and the path is restored; its individual results are not stated.
- Semantics.JCard: states its first three results, but not what follows them; Properties.JCardReported states the rest for a non-empty array.
- Semantics.JCardContents: states only that the log grows and the path is restored; Properties.JCardReported states its results.
- Semantics.JCardProperty: states only that the log grows and the path is restored; its individual results are not stated.
- Semantics.JCardSteps: states only that the log grows and the path is restored; its individual results are not stated.
- Semantics.JCardStep: states only that the log grows and the path is restored; its individual results are not stated.
- Semantics.JCardPropertyParameters: states only that the log grows and the path is restored; its individual results are not stated.
- Semantics.Nameserver: states only that the log grows and the path is restored; its individual results are not stated.
- Semantics.IPAddresses: states only that the log grows and the path is restored; its individual results are not stated.
- Semantics.AddressList: states only that the log grows and the path is restored; Properties.AddressListReported states its results for the inputs it covers.
- Semantics.IPNetwork: states only that the log grows and the path is restored; Properties.IPNetworkCountryThrows states its results for the inputs it covers.
- Semantics.Autnum: states only that the log grows and the path is restored; Properties.AutnumCountryThrows states its results for the inputs it covers.
- Semantics.GTLDResponseEntity: states only that the log grows and the path is restored; its individual results are not stated.
- Semantics.GTLDResponseEntityVCard: states only that the log grows and the path is restored; its individual results are not stated.
- Responses.Notices: for an array, states only that the path is restored; Properties.NoticesEach states that the array test passes and each notice is checked at its index.
- Responses.HelpNotices: for an array, states only the first result; the notices after it are checked by `Semantics.NoticeOrRemark`.
- Responses.DomainSearch: states only that the log grows and the path is restored; its individual results are not stated.
- Gtld.ProfileConformance: states the profile identifier results, but not the extension results after them; Properties.ProfileConformanceReported states all of them.
- Gtld.ResponseEntities: states only that the log grows and the path is restored; its individual results are not stated.
- Gtld.RegistryDomain: states only that the log grows and the path is at most extended; its individual results are not stated.
- Gtld.DomainChecks: states only that the log grows and the path is at most extended; its individual results are not stated.
- Gtld.RegistrarDomain: states only that the log grows and the path is at most extended; its individual results are not stated.
- Gtld.DomainRest: states only that the log grows and the path is restored; its individual results are not stated.
- Gtld.DomainNotices: states only that the log grows and the path is restored; its individual results are not stated.
- Gtld.AbuseContact: states only that the log grows and the path is restored; its individual results are not stated.
- Gtld.AbuseCard: states only that the log grows and the path is restored; its individual results are not stated.
- Gtld.LinksPresent: states only that the log grows and the path is restored; its individual results are not stated.
- Gtld.Entity: states only that the log grows and the path is at most extended; its individual results are not stated.
- Gtld.RegistrarCard: states only that the log grows and the path is at most extended; its individual results are not stated.
- Gtld.TypesSeen: states only that the log grows and the path is at most extended; its individual results are not stated.
- Gtld.AddressParts: states only that the log grows and the path is restored; its individual results are not stated.
- Dispatch.Preamble: states only that the log grows and the path is restored; its individual results are not stated.
- Dispatch.DomainProfile: states only that the log grows; the path may keep leaked segments (a missing `entities` leaves `.entities` there, as `Gtld.DomainProperties` states, and a registrar entity's vCard check leaves what `Gtld.RegistrarCardPath` states); its individual results are not stated.
- Gtld.ProfileSecureDNS: states an error bound rather than the exact results; `Gtld.UnsignedRecordsNotCounted` states what the record verdict does.

## Behaviour kept as written

These paths throw in the source, and the model throws there too:

- `checkType(null, …)` reads `null.constructor` (`Predicates.CheckType`).
- `validateJCardPropertyType` returns early exactly when item 0 IS a string, and otherwise reads the undeclared `property` (`Members.JCardPropertyType`).
- `self.validate` does not exist (`Responses.NameserverSearch`, `Responses.EntitySearch`, `Responses.Error`).
- `/[A-Z]{2}/.match` is not a function (`Properties.IPNetworkCountryThrows`, `Properties.AutnumCountryThrows`).
- `domain` is undefined in `validateGTLDNameserver` (`Gtld.Nameserver`).
- A `null` identifier in the IANA registrar ID reaches `checkType(null, …)` (`Gtld.IanaIdentifier`).
- An `events` member that is not an array, beside an `entities` array, makes the last-update filter throw (`Gtld.LastUpdate`).

Some early returns skip the matching `popPath`. These leaks are stated in
`Gtld.DomainEntities`, `Gtld.DomainProperties`, `Gtld.RegistrarEntity` and
`Gtld.TypeEntry`. `Paths.PopAfterLeak` states what `iterate`'s own pop then
removes.

Some early returns skip restoring `currentSpec`. These are stated in
`Members.Link`, `Semantics.NoticeOrRemark`, `Semantics.Event` and
`Semantics.CommonProperty`. Every array-valued common validator leaks this
way, not only `links`.

## Findings

The validator model keeps the behaviour as written. The corrected
definitions stand beside it, with the intended property proved.

| source | as written | input that shows it | evidently intended | confidence | as-written member | corrected member |
|---|---|---|---|---|---|---|
| lib/rdap-validator.js:1582 | `includes()` is called with no argument, so it looks for `undefined` | `["rdap_level_0", "icann_rdap_response_profile_1", "icann_rdap_technical_implementation_guide_1"]` fails both checks | `includes(s)` | not executed | Gtld.DeclaredProfilesRejected | Gtld.ProfileIdsIntended |
| lib/rdap-validator.js:1830 | the link filter compares the notice's `href`, not the link's | a "Status Codes" notice with link `{rel: "glossary", href: "https://icann.org/epp"}` is not counted | `l.href` | not executed | Queries.NoticeLinkHrefIgnored | Queries.LinkQualifiesIntended |
| lib/rdap-validator.js:1882 | `add` gets the number of record kinds, so 0 is not `false` and is never an error | `{"delegationSigned": true}` adds no error | a boolean `length > 0` | not executed | Gtld.UnsignedRecordsNotCounted | Gtld.SignedRecordsVerdictIntended |
| lib/rdap-validator.js:2237 | `codePointAt(label)` reads one code point, usually the first, on every iteration | "aé" is not a U-label | `codePointAt(i)` | not executed | Predicates.ULabelMissesLaterCharacters | Predicates.IsULabelIntended |
| lib/rdap-validator.js:128 | `validateRIRNameserver` is not defined; the method is `validateRIRNameServer` | any nameserver response with server type "rir" throws | call the defined method | not executed | Dispatch.NameserverProfile | Dispatch.NameserverProfileIntended |
| lib/rdap-validator.js:1667 | the last-update check is gated on `isArray(response.entities)`, although it filters `response.events` | `{"events": [{"eventAction": "last update of RDAP database"}]}` gets no last-update result; `{"events": {}, "entities": []}` throws | `isArray(response.events)` | not executed | Gtld.LastUpdateNeedsEntities | Gtld.LastUpdateIntended |
| lib/rdap-validator.js:2110 | the type is recorded only when item 1 (the parameters) is a string | `["fn", {}, "text", "Jane Doe"]` records no type, so "FN" is reported missing | test item 0 | not executed | Gtld.StandardPropertyUnnamed | Gtld.TypeNameIntended |
