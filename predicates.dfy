/**
 * The validator's type predicates and the text tests its checks apply:
 * `checkType` and the `is*` guards, `isULabel`, the two address patterns
 * of the nameserver check and the "description holds only strings" test.
 */
module Predicates {
  import opened Json
  import opened JsRuntime

  /**
   * `checkType(v, t)`: false for `undefined`; for `null` the read of
   * `constructor` throws; otherwise compares the constructor's name.
   */
  function CheckType(v: Json, t: string): (r: Js<bool>)
    ensures r.Throw? <==> v.JNull?
    ensures r.Ok? && r.value ==> !Nullish(v) && ConstructorName(v) == t
    ensures !Nullish(v) && ConstructorName(v) == t ==> r == Ok(true)
  {
    match v
    case JUndefined => Ok(false)
    case JNull => Throw
    case _ => Ok(ConstructorName(v) == t)
  }

  /** `isString(v)`: `checkType(v, "String")`, as GuardsAreCheckType shows. */
  function IsString(v: Json): Js<bool>
  {
    if v.JNull? then Throw else Ok(v.JStr?)
  }

  /** `isArray(v)`: `checkType(v, "Array")`. */
  function IsArray(v: Json): Js<bool>
  {
    if v.JNull? then Throw else Ok(v.JArr?)
  }

  /** `isObject(v)`: `checkType(v, "Object")`. */
  function IsObject(v: Json): Js<bool>
  {
    if v.JNull? then Throw else Ok(v.JObj?)
  }

  /** `isBoolean(v)`: `checkType(v, "Boolean")`. */
  function IsBoolean(v: Json): Js<bool>
  {
    if v.JNull? then Throw else Ok(v.JBool?)
  }

  /** `isInteger(v)`: `checkType(v, "Number")` and no fractional part. */
  function IsInteger(v: Json): Js<bool>
  {
    if v.JNull? then Throw else Ok(v.JInt?)
  }

  /**
   * Each guard is `checkType` with its constructor name: it throws exactly
   * for `null`, and otherwise holds exactly for the values of its kind.
   */
  lemma GuardsAreCheckType(v: Json)
    ensures IsString(v) == CheckType(v, "String")
    ensures IsArray(v) == CheckType(v, "Array")
    ensures IsObject(v) == CheckType(v, "Object")
    ensures IsBoolean(v) == CheckType(v, "Boolean")
    ensures IsInteger(v) == (var isNumber :- CheckType(v, "Number"); Ok(isNumber && v.JInt?))
  {
    match v
    case JUndefined =>
    case JNull =>
    case JBool(_) =>
      assert "Boolean"[0] != "String"[0] && "Boolean"[0] != "Array"[0] && "Boolean"[0] != "Object"[0];
      assert "Boolean"[0] != "Number"[0];
    case JInt(_) =>
      assert "Number"[0] != "String"[0] && "Number"[0] != "Array"[0] && "Number"[0] != "Object"[0];
      assert "Number"[0] != "Boolean"[0];
    case JFrac(_) =>
      assert "Number"[0] != "String"[0] && "Number"[0] != "Array"[0] && "Number"[0] != "Object"[0];
      assert "Number"[0] != "Boolean"[0];
    case JStr(_) =>
      assert "String"[0] != "Array"[0] && "String"[0] != "Object"[0] && "String"[0] != "Boolean"[0];
      assert "String"[0] != "Number"[0];
    case JArr(_) =>
      assert "Array"[0] != "String"[0] && "Array"[0] != "Object"[0] && "Array"[0] != "Boolean"[0];
      assert "Array"[0] != "Number"[0];
    case JObj(_) =>
      assert "Object"[0] != "String"[0] && "Object"[0] != "Array"[0] && "Object"[0] != "Boolean"[0];
      assert "Object"[0] != "Number"[0];
  }

  /**
   * The index `label.codePointAt(label)` reads: the label converted to a
   * number, which is NaN (read as 0) unless the label is a decimal numeral.
   */
  function ExaminedIndex(text: string): nat
  {
    if |text| > 0 && AllDigits(text) then DigitsValue(text) else 0
  }

  /** `label.codePointAt(label) > 126`; reading past the end gives `undefined`, which is not. */
  predicate ExaminedAboveAscii(text: string)
  {
    ExaminedIndex(text) < |text| && text[ExaminedIndex(text)] as int > 126
  }

  /**
   * What `isULabel` answers: the loop runs once per character but asks the
   * same question every time.
   */
  predicate ULabelAsWritten(text: string)
  {
    |text| > 0 && ExaminedAboveAscii(text)
  }

  /** What the comment above `isULabel` describes: some character is outside ASCII. */
  predicate HasNonAscii(text: string)
  {
    exists i :: 0 <= i < |text| && text[i] as int > 126
  }

  method IsULabel(text: string) returns (r: bool)
    ensures r == ULabelAsWritten(text)
  {
    var i := 0;
    while i < |text|
      invariant 0 <= i <= |text|
      invariant i > 0 ==> !ExaminedAboveAscii(text)
    {
      if ExaminedAboveAscii(text) {
        return true;
      }
      i := i + 1;
    }
    return false;
  }

  /** The loop `isULabel` evidently means, which looks at each character in turn. */
  method IsULabelIntended(text: string) returns (r: bool)
    ensures r == HasNonAscii(text)
  {
    var i := 0;
    while i < |text|
      invariant 0 <= i <= |text|
      invariant forall j :: 0 <= j < i ==> text[j] as int <= 126
    {
      if text[i] as int > 126 {
        return true;
      }
      i := i + 1;
    }
    return false;
  }

  /** A label that is not a numeral is judged by its first character alone. */
  lemma ULabelLooksAtFirstCharacter(text: string)
    requires |text| > 0 && !IsDigit(text[0])
    ensures ULabelAsWritten(text) <==> text[0] as int > 126
  {
  }

  /** So a label whose only non-ASCII character is not the first is taken for an LDH label. */
  lemma ULabelMissesLaterCharacters()
    ensures HasNonAscii("aé") && !ULabelAsWritten("aé")
  {
    assert "aé"[1] as int > 126;
  }

  lemma ULabelAsWrittenFindsNonAscii(text: string)
    ensures ULabelAsWritten(text) ==> HasNonAscii(text)
  {
  }

  predicate IsHexDigit(c: char)
  {
    IsDigit(c) || 'a' <= c <= 'f' || 'A' <= c <= 'F'
  }

  /** The pieces of `s` between occurrences of `sep`. */
  function SplitOn(s: string, sep: char): (r: seq<string>)
    ensures |r| > 0
    ensures forall i :: 0 <= i < |r| ==> sep !in r[i]
    decreases |s|
  {
    if s == [] then [""]
    else
      var rest := SplitOn(s[1..], sep);
      if s[0] == sep then [""] + rest else [[s[0]] + rest[0]] + rest[1..]
  }

  /** The pieces joined back together with `sep`. */
  function JoinWith(pieces: seq<string>, sep: char): string
    requires |pieces| > 0
  {
    if |pieces| == 1 then pieces[0] else pieces[0] + [sep] + JoinWith(pieces[1..], sep)
  }

  predicate ShortDecimal(p: string)
  {
    1 <= |p| <= 3 && AllDigits(p)
  }

  /** `/^\d{1,3}\.\d{1,3}\.\d{1,3}\.\d{1,3}$/`: four groups of one to three digits, joined by dots. */
  predicate IPv4Text(s: string)
  {
    var pieces := SplitOn(s, '.');
    |pieces| == 4 && forall i :: 0 <= i < 4 ==> ShortDecimal(pieces[i])
  }

  /** `/^[0-9a-f][0-9a-f:]+$/i`: a hex digit, then at least one more hex digit or colon. */
  predicate IPv6Text(s: string)
  {
    |s| >= 2 && IsHexDigit(s[0]) && forall i :: 1 <= i < |s| ==> IsHexDigit(s[i]) || s[i] == ':'
  }

  lemma {:induction false} SplitJoin(pieces: seq<string>, sep: char)
    requires |pieces| > 0
    requires forall i :: 0 <= i < |pieces| ==> sep !in pieces[i]
    ensures SplitOn(JoinWith(pieces, sep), sep) == pieces
    decreases |pieces|, |pieces[0]|
  {
    if |pieces[0]| > 0 {
      var c := pieces[0][0];
      var shorter := [pieces[0][1..]] + pieces[1..];
      assert forall i :: 0 <= i < |shorter| ==> sep !in shorter[i] by {
        forall i | 0 <= i < |shorter|
          ensures sep !in shorter[i]
        {
          if i == 0 {
            assert forall k :: 0 <= k < |pieces[0][1..]| ==> pieces[0][1..][k] == pieces[0][k + 1];
          } else {
            assert shorter[i] == pieces[i];
          }
        }
      }
      SplitJoin(shorter, sep);
      JoinShorter(pieces, sep);
      var joined := JoinWith(shorter, sep);
      assert ([c] + joined)[1..] == joined;
      assert pieces[0] == [c] + shorter[0];
      assert pieces[1..] == shorter[1..];
    } else if |pieces| > 1 {
      SplitJoin(pieces[1..], sep);
      assert JoinWith(pieces, sep) == [sep] + JoinWith(pieces[1..], sep);
      assert JoinWith(pieces, sep)[1..] == JoinWith(pieces[1..], sep);
    }
  }

  lemma JoinShorter(pieces: seq<string>, sep: char)
    requires |pieces| > 0 && |pieces[0]| > 0
    ensures JoinWith(pieces, sep) == [pieces[0][0]] + JoinWith([pieces[0][1..]] + pieces[1..], sep)
  {
    var shorter := [pieces[0][1..]] + pieces[1..];
    assert pieces[0] == [pieces[0][0]] + pieces[0][1..];
    if |pieces| > 1 {
      assert shorter[1..] == pieces[1..];
    }
  }

  /** Four groups of one to three digits joined by dots are a valid IPv4 text. */
  lemma DottedQuadAccepted(a: string, b: string, c: string, d: string)
    requires ShortDecimal(a) && ShortDecimal(b) && ShortDecimal(c) && ShortDecimal(d)
    ensures IPv4Text(a + "." + b + "." + c + "." + d)
  {
    var pieces := [a, b, c, d];
    forall i | 0 <= i < 4
      ensures '.' !in pieces[i]
    {
      assert AllDigits(pieces[i]);
    }
    SplitJoin(pieces, '.');
    assert [c, d][1..] == [d];
    assert JoinWith([c, d], '.') == c + "." + d;
    assert [b, c, d][1..] == [c, d];
    assert JoinWith([b, c, d], '.') == b + "." + c + "." + d;
    assert pieces[1..] == [b, c, d];
    assert JoinWith(pieces, '.') == a + "." + b + "." + c + "." + d;
  }

  /**
   * The order of `description.map(i => i.constructor.name)` with later
   * repeats removed, as `filter((v, i, a) => i === a.indexOf(v))` keeps it.
   */
  function FirstOccurrences(names: seq<string>): (r: seq<string>)
  {
    if names == [] then []
    else
      var front := FirstOccurrences(names[..|names| - 1]);
      if names[|names| - 1] in names[..|names| - 1] then front else front + [names[|names| - 1]]
  }

  /** The constructor names of an array's elements; a `null` or `undefined` element throws. */
  function ElementTypes(a: seq<Json>): Js<seq<string>>
  {
    if a == [] then Ok([])
    else if Nullish(a[|a| - 1]) then Throw
    else
      var front :- ElementTypes(a[..|a| - 1]);
      Ok(front + [ConstructorName(a[|a| - 1])])
  }

  /** The `map` throws exactly at a `null` or `undefined` element, and otherwise names every element's constructor, in order. */
  lemma {:induction false} ElementTypesMeaning(a: seq<Json>)
    ensures ElementTypes(a).Throw? <==> exists i :: 0 <= i < |a| && Nullish(a[i])
    ensures ElementTypes(a).Ok? ==>
      |ElementTypes(a).value| == |a| && forall i :: 0 <= i < |a| ==> ElementTypes(a).value[i] == ConstructorName(a[i])
  {
    if a != [] && !Nullish(a[|a| - 1]) {
      ElementTypesMeaning(a[..|a| - 1]);
      assert forall i :: 0 <= i < |a| - 1 ==> a[..|a| - 1][i] == a[i];
    }
  }

  /**
   * The verdict of the "only strings" check on a notice's description: the
   * `map` throws unless the description is an array of non-null values.
   */
  function DescriptionVerdict(d: Json): (r: Js<bool>)
  {
    if !d.JArr? then Throw
    else
      var names :- ElementTypes(d.elems);
      var unique := FirstOccurrences(names);
      Ok(1 == |unique| && unique[0] == "String")
  }

  /** The check passes exactly for a non-empty array of strings. */
  lemma DescriptionVerdictMeaning(d: Json)
    ensures DescriptionVerdict(d).Throw? <==> !d.JArr? || exists i :: 0 <= i < |d.elems| && Nullish(d.elems[i])
    ensures DescriptionVerdict(d).Ok? ==>
      (DescriptionVerdict(d).value <==> |d.elems| > 0 && forall i :: 0 <= i < |d.elems| ==> d.elems[i].JStr?)
  {
    if d.JArr? {
      ElementTypesMeaning(d.elems);
    }
    if d.JArr? && ElementTypes(d.elems).Ok? {
      var names := ElementTypes(d.elems).value;
      FirstOccurrencesSet(names);
      FirstOccurrencesHead(names);
      var unique := FirstOccurrences(names);
      forall i | 0 <= i < |names|
        ensures names[i] == "String" <==> d.elems[i].JStr?
      {
        StringNamed(d.elems[i]);
      }
      if 1 == |unique| && unique[0] == "String" {
        forall i | 0 <= i < |d.elems|
          ensures d.elems[i].JStr?
        {
          assert names[i] in unique;
        }
      }
      if |d.elems| > 0 && forall i :: 0 <= i < |d.elems| ==> d.elems[i].JStr? {
        assert forall i :: 0 <= i < |names| ==> names[i] == "String";
        FirstOccurrencesConstant(names);
      }
    }
  }

  /** Only a string's constructor is named `String`. */
  lemma StringNamed(v: Json)
    requires !Nullish(v)
    ensures ConstructorName(v) == "String" <==> v.JStr?
  {
    match v
    case JBool(_) => assert "Boolean"[0] != "String"[0];
    case JInt(_) => assert "Number"[0] != "String"[0];
    case JFrac(_) => assert "Number"[0] != "String"[0];
    case JStr(_) =>
    case JArr(_) => assert "Array"[0] != "String"[0];
    case JObj(_) => assert "Object"[0] != "String"[0];
  }

  lemma {:induction false} FirstOccurrencesSet(names: seq<string>)
    ensures forall x :: x in FirstOccurrences(names) <==> x in names
  {
    if names != [] {
      var init := names[..|names| - 1];
      FirstOccurrencesSet(init);
      assert names == init + [names[|names| - 1]];
    }
  }

  lemma {:induction false} FirstOccurrencesHead(names: seq<string>)
    ensures |names| > 0 ==> |FirstOccurrences(names)| > 0 && FirstOccurrences(names)[0] == names[0]
  {
    if |names| > 1 {
      var init := names[..|names| - 1];
      FirstOccurrencesHead(init);
    }
  }

  lemma {:induction false} FirstOccurrencesConstant(names: seq<string>)
    requires |names| > 0
    requires forall i :: 0 <= i < |names| ==> names[i] == "String"
    ensures FirstOccurrences(names) == ["String"]
  {
    if |names| > 1 {
      var init := names[..|names| - 1];
      FirstOccurrencesConstant(init);
      assert names[|names| - 1] == init[0];
    }
  }
}
