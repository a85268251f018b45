/**
 * The validators of whole responses that RFC 9083 defines besides the
 * objects themselves: the `notices` of a response, help responses
 * (section 7), the three search responses (section 8) and error responses
 * (section 6).
 *
 * The nameserver and entity searches and the error response with notices
 * hand their arrays to `self.validate`, which the validator does not
 * define: once the checks before it pass, the call throws.
 */
module Responses {
  import opened Wrappers
  import opened Json
  import opened JsRuntime
  import opened Predicates
  import opened Paths
  import opened Results
  import opened Messages
  import opened Context
  import opened Members
  import opened Semantics

  /** `validateNotices`: the response's `notices` must be an array of valid notices. */
  function Notices(c: Ctx, notices: Json): (r: Run<Ctx>)
    ensures Grows(c, r) && Restores(c, r)
    ensures !notices.JNull? && !notices.JArr? ==>
      r == Val(Check(Push(SetSpec(c, "rfc9083"), MemberSegment("notices")), false, NoticesNotArray, "section-4.3").(path := c.path))
  {
    var c1 := Push(SetSpec(c, "rfc9083"), MemberSegment("notices"));
    var isArray :- Try(c1, IsArray(notices));
    var c2 := Check(c1, isArray, NoticesNotArray, "section-4.3");
    var c3 :- if isArray then Iterate(c2, notices, EachNoticeOrRemark) else Val(c2);
    Val(Pop(c3))
  }

  /**
   * `validateHelp`: a help response must have `notices`, a non-empty list
   * of valid notices. Reading the length of a `null` list and iterating
   * over anything but an array throw.
   */
  function Help(c: Ctx, help: Json): (r: Run<Ctx>)
    ensures Grows(c, r) && Restores(c, r)
    ensures r.Val? ==> r.value.spec == c.spec
    ensures help.JObj? && MemberOf(help, "notices").None? ==>
      r == Val(Check(Push(SetSpec(Msg(c, ValidatingHelp), "rfc9083"), MemberSegment("notices")), false, HelpNoticesMissing, "section-7").(path := c.path, spec := c.spec))
  {
    var c1 := Push(SetSpec(Msg(c, ValidatingHelp), "rfc9083"), MemberSegment("notices"));
    var has :- Try(c1, HasOwn(help, "notices"));
    var c2 := Check(c1, has, HelpNoticesMissing, "section-7");
    var c3 :- if has then HelpNotices(c2, Prop(help, "notices")) else Val(c2);
    Val(SetSpec(Pop(c3), c.spec))
  }

  function HelpNotices(c: Ctx, notices: Json): (r: Run<Ctx>)
    ensures Grows(c, r) && Restores(c, r)
    ensures !notices.JArr? ==> r.Thrown?
    ensures Nullish(notices) ==> r == Thrown(c)
    ensures notices.JArr? ==>
      c.log + [Result(JBool(|notices.elems| > 0), NoticesEmpty, Join(c.path), Ref(c.spec, "section-7"))] <= Last(r).log
    ensures !notices.JArr? && !Nullish(notices) ==>
      r == Thrown(c.(log := c.log + [Result(JBool(LengthPositive(notices).value), NoticesEmpty, Join(c.path), Ref(c.spec, "section-7"))]))
  {
    var nonEmpty :- Try(c, LengthPositive(notices));
    Iterate(Check(c, nonEmpty, NoticesEmpty, "section-7"), notices, EachNoticeOrRemark)
  }

  /**
   * The checks every search response shares: a valid set of common
   * properties and a results member that is an array. `Val(true)` means
   * both checks passed and the results are in hand.
   */
  function SearchResults(c: Ctx, result: Json, member: string, fragment: string): (r: Run<(Ctx, bool)>)
    ensures c.log <= RunCtx(r).log
    ensures r.Val? ==> r.value.0.path == c.path + [MemberSegment(member)]
    ensures r.Val? && r.value.1 ==> MemberOf(result, member).Some? && MemberOf(result, member).value.JArr?
    ensures r.Val? && !r.value.1 ==> LastFails(r.value.0.log)
    ensures r.Val? ==> (r.value.1 <==> MemberOf(result, member).Some? && MemberOf(result, member).value.JArr?)
    ensures CommonObjectProperties(c, result, None).Thrown? ==> r == Thrown(CommonObjectProperties(c, result, None).at)
    ensures CommonObjectProperties(c, result, None).Val? && !Nullish(result) && MemberOf(result, member) != Some(JNull) ==>
      var d := CommonObjectProperties(c, result, None).value;
      var at := Join(d.path + [MemberSegment(member)]);
      var m := MemberOf(result, member);
      r.Val? && r.value.0.log == d.log + [Result(JBool(m.Some?), SearchResultsMissing(member), at, Ref(d.spec, fragment))] +
        (if m.Some? then [Result(JBool(m.value.JArr?), SearchResultsNotArray(member), at, Ref(d.spec, fragment))] else [])
  {
    var c1 :- CommonObjectProperties(c, result, None);
    var c2 := Push(c1, MemberSegment(member));
    var has :- Try(c2, HasOwn(result, member));
    var c3 := Check(c2, has, SearchResultsMissing(member), fragment);
    if !has then Val((c3, false))
    else
      var isArray :- Try(c3, IsArray(Prop(result, member)));
      Val((Check(c3, isArray, SearchResultsNotArray(member), fragment), isArray))
  }

  /** The last result reported is a failure. */
  predicate LastFails(log: seq<Result>)
  {
    |log| > 0 && log[|log| - 1].verdict == JBool(false)
  }

  /** The state a run of a search-results check ended in. */
  function RunCtx(r: Run<(Ctx, bool)>): Ctx
  {
    match r
    case Val((d, _)) => d
    case Thrown(d) => d
  }

  /** `validateDomainSearch`: the results must be an array of valid domains. */
  function DomainSearch(c: Ctx, result: Json): (r: Run<Ctx>)
    ensures Grows(c, r) && Restores(c, r)
    ensures r.Val? ==> r.value.spec == c.spec
  {
    var c1 := SetSpec(Msg(c, ValidatingSearch("domain")), "rfc9083");
    var s :- SearchResults(c1, result, "domainSearchResults", "section-8");
    var c2 :- if s.1 then Iterate(s.0, Prop(result, "domainSearchResults"), EachDomain) else Val(s.0);
    Val(SetSpec(Pop(c2), c.spec))
  }

  /**
   * `validateNameserverSearch`: the same checks, but results that pass
   * them are handed to the missing `self.validate`, and the run throws.
   */
  function NameserverSearch(c: Ctx, result: Json): (r: Run<Ctx>)
    ensures Grows(c, r) && Restores(c, r)
    ensures r.Val? ==> r.value.spec == c.spec
    ensures r.Val? ==> LastFails(r.value.log)
  {
    var c1 := SetSpec(Msg(c, ValidatingSearch("nameserver")), "rfc9083");
    var s :- SearchResults(c1, result, "nameserverSearchResults", "section-8");
    if s.1 then Thrown(s.0) else Val(SetSpec(Pop(s.0), c.spec))
  }

  /**
   * `validateEntitySearch`: like the nameserver search, without citations
   * and without setting `currentSpec`.
   */
  function EntitySearch(c: Ctx, result: Json): (r: Run<Ctx>)
    ensures Grows(c, r) && Restores(c, r)
    ensures r.Val? ==> LastFails(r.value.log)
  {
    var c1 := Msg(c, ValidatingSearch("entity"));
    var s :- SearchResults(c1, result, "entitySearchResults", "");
    if s.1 then Thrown(s.0) else Val(Pop(s.0))
  }

  /**
   * `validateError`: an integer `errorCode`, an optional string `title`,
   * and optional `notices`; non-empty notices are handed to the missing
   * `self.validate`, and the run throws.
   */
  function Error(c: Ctx, error: Json): (r: Run<Ctx>)
    ensures Grows(c, r) && Restores(c, r)
    ensures r.Val? ==> r.value.spec == c.spec
    ensures MemberOf(error, "notices").Some? && MemberOf(error, "notices").value.JArr? ==> r.Thrown?
  {
    var c1 := Msg(c, ValidatingError);
    var c2 :- MemberCheck(c1, error, ErrorCodeRule);
    var c3 :- MemberCheck(c2, error, ErrorTitleRule);
    ErrorNotices(c3, error)
  }

  /** The `notices` part of `validateError`: reported as an array or not, and handed on when it is one. */
  function ErrorNotices(c: Ctx, error: Json): (r: Run<Ctx>)
    ensures Grows(c, r) && Restores(c, r)
    ensures r.Val? ==> r.value.spec == c.spec
    ensures MemberOf(error, "notices").Some? && MemberOf(error, "notices").value.JArr? ==> r.Thrown?
  {
    var has := Has(error, "notices");
    if !has then Val(c)
    else
      var c1 := Push(c, MemberSegment("notices"));
      var notices := Prop(error, "notices");
      var isArray :- Try(c1, IsArray(notices));
      var c2 := Check(c1, isArray, ErrorNoticesNotArray, "");
      if !isArray then Val(Pop(c2))
      else
        Thrown(Check(c2, |notices.elems| > 0, NoticesEmpty, ""))
  }
}
