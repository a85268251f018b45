/**
 * The few pieces of JavaScript's runtime the validator relies on: exceptions,
 * property reads, `hasOwnProperty`, `Object.keys`, `String(v)`, truthiness,
 * loose equality with a string, `.length > 0`, `indexOf` and ASCII case
 * mapping.
 */
module JsRuntime {
  import opened Wrappers
  import opened Json

  /**
   * The outcome of evaluating JavaScript: a value, or an exception that
   * escapes. The validator has no `try` around its checks, so every
   * exception raised while walking a document abandons the run.
   */
  datatype Js<+T> = Ok(value: T) | Throw
  {
    predicate IsFailure() { Throw? }

    function PropagateFailure<U>(): Js<U>
    {
      Throw
    }

    function Extract(): T
      requires Ok?
    {
      value
    }
  }

  /** A statement or a function call evaluated for its effect only. */
  type Outcome = Js<()>

  const Done: Outcome := Ok(())

  /** Reading a value out of `null` or `undefined` throws a TypeError. */
  predicate Nullish(v: Json)
  {
    v.JUndefined? || v.JNull?
  }

  /** `v[k]` for a property name `k`. */
  function Get(v: Json, k: string): (r: Js<Json>)
    ensures r.Throw? <==> Nullish(v)
    ensures r.Ok? ==> Size(r.value) < Size(v)
    ensures r.Ok? && r.value != JUndefined ==> v.JObj? && Lookup(v.members, k) == Some(r.value)
    ensures v.JObj? && Lookup(v.members, k).Some? ==> r == Ok(Lookup(v.members, k).value)
  {
    match v
    case JUndefined => Throw
    case JNull => Throw
    case JObj(m) =>
      (match Lookup(m, k)
       case Some(x) => LookupSmaller(m, k); Ok(x)
       case None => Ok(JUndefined))
    case _ => Ok(JUndefined)
  }

  /** `v.hasOwnProperty(k)`, for the non-numeric names other than `length` that the validator asks about. */
  function HasOwn(v: Json, k: string): (r: Js<bool>)
    ensures r.Throw? <==> Nullish(v)
    ensures r.Ok? ==> (r.value <==> v.JObj? && Lookup(v.members, k).Some?)
  {
    match v
    case JUndefined => Throw
    case JNull => Throw
    case JObj(m) => Ok(Lookup(m, k).Some?)
    case _ => Ok(false)
  }

  /** `v[i]` for an index `i`. */
  function At(v: Json, i: nat): (r: Js<Json>)
    ensures r.Throw? <==> Nullish(v)
    ensures v.JArr? ==> r == Ok(if i < |v.elems| then v.elems[i] else JUndefined)
    ensures v.JArr? ==> Size(r.value) < Size(v)
    ensures r.Ok? && !v.JStr? ==> Size(r.value) < Size(v)
    ensures r.Ok? && (r.value.JObj? || r.value.JArr?) ==> Size(r.value) < Size(v)
  {
    match v
    case JUndefined => Throw
    case JNull => Throw
    case JArr(a) =>
      if i < |a| then ElemSmaller(a, i); Ok(a[i]) else Ok(JUndefined)
    case JStr(s) => Ok(if i < |s| then JStr([s[i]]) else JUndefined)
    case JObj(_) => Get(v, NatToString(i))
    case _ => Ok(JUndefined)
  }

  /** `Object.keys(v)`. */
  function ObjectKeys(v: Json): (r: Js<seq<string>>)
    ensures r.Throw? <==> Nullish(v)
    ensures v.JObj? ==> r == Ok(KeysOf(v.members))
  {
    match v
    case JUndefined => Throw
    case JNull => Throw
    case JObj(m) => Ok(KeysOf(m))
    case JArr(a) => Ok(IndexNames(|a|))
    case JStr(s) => Ok(IndexNames(|s|))
    case _ => Ok([])
  }

  /** The keys `"0"`, `"1"`, ... of an array or string of length `n`. */
  function IndexNames(n: nat): (r: seq<string>)
    ensures |r| == n
  {
    if n == 0 then [] else IndexNames(n - 1) + [NatToString(n - 1)]
  }

  /** Key `i` of an array is the decimal rendering of `i`. */
  lemma {:induction false} IndexNameAt(n: nat, i: nat)
    requires i < n
    ensures IndexNames(n)[i] == NatToString(i)
  {
    if i < n - 1 {
      IndexNameAt(n - 1, i);
    }
  }

  /** `v.constructor.name`, which every value other than `null` and `undefined` has. */
  function ConstructorName(v: Json): string
    requires !Nullish(v)
  {
    match v
    case JBool(_) => "Boolean"
    case JInt(_) => "Number"
    case JFrac(_) => "Number"
    case JStr(_) => "String"
    case JArr(_) => "Array"
    case JObj(_) => "Object"
  }

  /** `Boolean(v)`. */
  predicate Truthy(v: Json)
  {
    match v
    case JUndefined => false
    case JNull => false
    case JBool(b) => b
    case JInt(n) => n != 0
    case JFrac(_) => true
    case JStr(s) => s != ""
    case _ => true
  }

  function DigitChar(d: nat): char
    requires d < 10
  {
    "0123456789"[d]
  }

  /** The decimal rendering of a natural number. */
  function NatToString(n: nat): (r: string)
    ensures |r| > 0
    ensures forall i :: 0 <= i < |r| ==> '0' <= r[i] <= '9'
    decreases n
  {
    if n < 10 then [DigitChar(n)] else NatToString(n / 10) + [DigitChar(n % 10)]
  }

  function IntToString(n: int): string
  {
    if n < 0 then "-" + NatToString(-n) else NatToString(n)
  }

  /** `String(v)`, as string concatenation applies it. */
  function Show(v: Json): string
    decreases Size(v), 0, 0
  {
    match v
    case JUndefined => "undefined"
    case JNull => "null"
    case JBool(b) => if b then "true" else "false"
    case JInt(n) => IntToString(n)
    case JFrac(t) => t
    case JStr(s) => s
    case JArr(a) => ShowElems(a)
    case JObj(_) => "[object Object]"
  }

  /** `Array.prototype.join(",")`: `null` and `undefined` elements become empty strings. */
  function ShowElems(a: seq<Json>): string
    decreases SizeOfElems(a), 1, |a|
  {
    if a == [] then ""
    else
      var first := if Nullish(a[0]) then "" else Show(a[0]);
      if |a| == 1 then first else first + "," + ShowElems(a[1..])
  }

  /** ASCII-only case mapping. */
  function UpperChar(c: char): char
  {
    if 'a' <= c <= 'z' then (c as int - 32) as char else c
  }

  function LowerChar(c: char): char
  {
    if 'A' <= c <= 'Z' then (c as int + 32) as char else c
  }

  function Upper(s: string): (r: string)
    ensures |r| == |s|
  {
    if s == [] then [] else [UpperChar(s[0])] + Upper(s[1..])
  }

  /** Upper-casing maps every character on its own. */
  lemma {:induction false} UpperChars(s: string)
    ensures forall i :: 0 <= i < |s| ==> Upper(s)[i] == UpperChar(s[i])
  {
    if s != [] {
      UpperChars(s[1..]);
      assert forall i :: 0 < i < |s| ==> Upper(s)[i] == Upper(s[1..])[i - 1];
    }
  }

  function Lower(s: string): (r: string)
    ensures |r| == |s|
  {
    if s == [] then [] else [LowerChar(s[0])] + Lower(s[1..])
  }

  /** Lower-casing maps every character on its own. */
  lemma {:induction false} LowerChars(s: string)
    ensures forall i :: 0 <= i < |s| ==> Lower(s)[i] == LowerChar(s[i])
  {
    if s != [] {
      LowerChars(s[1..]);
      assert forall i :: 0 < i < |s| ==> Lower(s)[i] == Lower(s[1..])[i - 1];
    }
  }

  /** `v.toUpperCase()`: only strings have the method. */
  function ToUpperCase(v: Json): (r: Js<string>)
    ensures r.Ok? <==> v.JStr?
    ensures r.Ok? ==> r.value == Upper(v.s)
  {
    if v.JStr? then Ok(Upper(v.s)) else Throw
  }

  function ToLowerCase(v: Json): (r: Js<string>)
    ensures r.Ok? <==> v.JStr?
    ensures r.Ok? ==> r.value == Lower(v.s)
  {
    if v.JStr? then Ok(Lower(v.s)) else Throw
  }

  /**
   * A string that converts to NaN as a number, so that `==` against it never
   * succeeds numerically: it starts with a letter and is not `Infinity`.
   */
  predicate NonNumericText(t: string)
  {
    |t| > 0 && ('a' <= t[0] <= 'z' || 'A' <= t[0] <= 'Z') && t != "Infinity"
  }

  /** `v == t` (loose equality) for such a string `t`. */
  function LooseEqualsText(v: Json, t: string): (r: bool)
    requires NonNumericText(t)
    ensures v.JStr? ==> (r <==> v.s == t)
    ensures Nullish(v) || v.JBool? || v.JInt? ==> !r
  {
    match v
    case JStr(s) => s == t
    case JArr(_) => Show(v) == t
    case JObj(_) => t == "[object Object]"
    case _ => false
  }

  /** `v == ""` (loose equality with the empty string). */
  function LooseEqualsEmpty(v: Json): (r: bool)
    ensures v.JStr? ==> (r <==> v.s == "")
    ensures Nullish(v) || v.JObj? ==> !r
  {
    match v
    case JStr(s) => s == ""
    case JBool(b) => !b
    case JInt(n) => n == 0
    case JArr(_) => Show(v) == ""
    case _ => false
  }

  /**
   * `v.length > 0`: a string or an array measures itself; an object reads
   * its own `length` member, which the comparison converts to a number;
   * booleans and numbers have no `length`, and `undefined > 0` is false.
   */
  function LengthPositive(v: Json): (r: Js<bool>)
    ensures r.Throw? <==> Nullish(v)
    ensures v.JStr? ==> r == Ok(|v.s| > 0)
    ensures v.JArr? ==> r == Ok(|v.elems| > 0)
    ensures v.JBool? || v.JInt? || v.JFrac? ==> r == Ok(false)
    ensures v.JObj? && MemberOf(v, "length").None? ==> r == Ok(false)
    ensures v.JObj? && MemberOf(v, "length").Some? && MemberOf(v, "length").value.JInt? ==>
      r == Ok(MemberOf(v, "length").value.n > 0)
    ensures v.JObj? && MemberOf(v, "length").Some? && MemberOf(v, "length").value.JBool? ==>
      r == Ok(MemberOf(v, "length").value.b)
    ensures v.JObj? && MemberOf(v, "length").Some? && MemberOf(v, "length").value.JStr? ==>
      r == Ok(TextPositive(MemberOf(v, "length").value.s))
  {
    match v
    case JUndefined => Throw
    case JNull => Throw
    case JStr(s) => Ok(|s| > 0)
    case JArr(a) => Ok(|a| > 0)
    case JObj(m) => Ok(Lookup(m, "length").Some? && NumberPositive(Lookup(m, "length").value))
    case _ => Ok(false)
  }

  /**
   * `x > 0` for a value `x` read out of an object: `x` is converted to a
   * number first. `true` is 1 and `null` is 0; a non-integer number is
   * positive when its rendering carries no sign; a string, or an array
   * through its joined text, is read by `TextPositive`; anything else is
   * `NaN`.
   */
  predicate NumberPositive(x: Json)
  {
    match x
    case JBool(b) => b
    case JInt(n) => n > 0
    case JFrac(t) => |t| > 0 && t[0] != '-'
    case JStr(s) => TextPositive(s)
    case JArr(_) => TextPositive(Show(x))
    case _ => false
  }

  // ---------------------------------------------------------------------
  // the number a string converts to (StringToNumber, ECMAScript 2024
  // section 7.1.4.1.1), as far as its sign

  /** The white space and line terminators the conversion skips at both ends. */
  predicate IsJsSpace(ch: char)
  {
    var n := ch as int;
    n == 0x09 || n == 0x0A || n == 0x0B || n == 0x0C || n == 0x0D || n == 0x20 || n == 0xA0 ||
    n == 0x1680 || 0x2000 <= n <= 0x200A || n == 0x2028 || n == 0x2029 || n == 0x202F ||
    n == 0x205F || n == 0x3000 || n == 0xFEFF
  }

  /** `s` without its leading white space. */
  function TrimStart(s: string): (r: string)
    ensures |r| <= |s| && r == s[|s| - |r|..]
    ensures r == [] || !IsJsSpace(r[0])
    ensures forall i :: 0 <= i < |s| - |r| ==> IsJsSpace(s[i])
  {
    if s != [] && IsJsSpace(s[0]) then TrimStart(s[1..]) else s
  }

  /** `s` without its trailing white space. */
  function TrimEnd(s: string): (r: string)
    ensures |r| <= |s| && r == s[..|r|]
    ensures r == [] || !IsJsSpace(r[|r| - 1])
    ensures forall i :: |r| <= i < |s| ==> IsJsSpace(s[i])
  {
    if s != [] && IsJsSpace(s[|s| - 1]) then TrimEnd(s[..|s| - 1]) else s
  }

  function Trim(s: string): string
  {
    TrimEnd(TrimStart(s))
  }

  predicate IsDigit(ch: char)
  {
    '0' <= ch <= '9'
  }

  predicate AllDigits(s: string)
  {
    forall i :: 0 <= i < |s| ==> IsDigit(s[i])
  }

  predicate SomeNonZeroDigit(s: string)
  {
    exists i :: 0 <= i < |s| && '1' <= s[i] <= '9'
  }

  /** The index of the first character of `s` in `chs`, or `|s|`. */
  function FirstIndex(s: string, chs: set<char>): (k: nat)
    ensures k <= |s|
    ensures forall i :: 0 <= i < k ==> s[i] !in chs
    ensures k < |s| ==> s[k] in chs
  {
    if s == [] || s[0] in chs then 0 else 1 + FirstIndex(s[1..], chs)
  }

  /** Digits with at most one `.` among them, and at least one digit. */
  predicate Mantissa(m: string)
  {
    var d := FirstIndex(m, {'.'});
    var whole := m[..d];
    var fraction := if d < |m| then m[d + 1..] else [];
    AllDigits(whole) && AllDigits(fraction) && |whole| + |fraction| > 0
  }

  /** The digits of an exponent, with an optional sign. */
  predicate SignedDigits(x: string)
  {
    if |x| > 0 && (x[0] == '+' || x[0] == '-') then |x| > 1 && AllDigits(x[1..])
    else |x| > 0 && AllDigits(x)
  }

  /** A decimal literal without sign, with an optional exponent, that reads as a positive number. */
  predicate UnsignedDecimalPositive(u: string)
  {
    var k := FirstIndex(u, {'e', 'E'});
    Mantissa(u[..k]) && (k == |u| || SignedDigits(u[k + 1..])) && SomeNonZeroDigit(u[..k])
  }

  /** The base a `0x`, `0o` or `0b` prefix names, and 0 for any other letter. */
  function RadixOf(marker: char): nat
  {
    if marker == 'x' || marker == 'X' then 16
    else if marker == 'o' || marker == 'O' then 8
    else if marker == 'b' || marker == 'B' then 2
    else 0
  }

  predicate IsRadixDigit(ch: char, base: nat)
  {
    (IsDigit(ch) && ch as int - '0' as int < base) || (base == 16 && ('a' <= ch <= 'f' || 'A' <= ch <= 'F'))
  }

  /** A `0x`, `0o` or `0b` literal (which takes no sign) with a digit other than 0. */
  predicate RadixPositive(t: string)
  {
    |t| > 2 && t[0] == '0' && (forall i :: 2 <= i < |t| ==> IsRadixDigit(t[i], RadixOf(t[1]))) &&
    exists i :: 2 <= i < |t| && t[i] != '0'
  }

  /**
   * `Number(s) > 0`: after trimming white space, a radix literal with a
   * non-zero digit, or a decimal literal (or `Infinity`) with no `-` sign
   * and a non-zero digit before its exponent. Empty text is 0 and anything
   * else is `NaN`.
   */
  predicate TextPositive(s: string)
  {
    var t := Trim(s);
    RadixPositive(t) || SignedDecimalPositive(t)
  }

  /** A decimal literal, or `Infinity`, with an optional `+` sign; a `-` sign makes it negative. */
  predicate SignedDecimalPositive(t: string)
  {
    if |t| > 0 && t[0] == '-' then false
    else
      var u := if |t| > 0 && t[0] == '+' then t[1..] else t;
      u == "Infinity" || UnsignedDecimalPositive(u)
  }

  /** The number a string of decimal digits names: the reference reading. */
  function DigitsValue(s: string): nat
    requires AllDigits(s)
  {
    if s == [] then 0 else DigitsValue(s[..|s| - 1]) * 10 + (s[|s| - 1] as int - '0' as int)
  }

  /** A string of decimal digits names a positive number exactly when one of its digits is not 0. */
  lemma {:induction false} DigitsValuePositive(s: string)
    requires AllDigits(s)
    ensures DigitsValue(s) > 0 <==> SomeNonZeroDigit(s)
  {
    if s != [] {
      var front := s[..|s| - 1];
      DigitsValuePositive(front);
      if SomeNonZeroDigit(front) {
        var i :| 0 <= i < |front| && '1' <= front[i] <= '9';
        assert s[i] == front[i];
      }
      if SomeNonZeroDigit(s) && !SomeNonZeroDigit(front) {
        assert '1' <= s[|s| - 1] <= '9';
      }
    }
  }

  /** A string of decimal digits is positive under the conversion exactly when the number it names is. */
  lemma TextPositiveDigits(s: string)
    requires |s| > 0 && AllDigits(s)
    ensures TextPositive(s) <==> DigitsValue(s) > 0
  {
    TrimDigitsEnds(s);
    DigitsNotRadix(s);
    DecimalDigitsPositive(s);
    DigitsValuePositive(s);
  }

  lemma DigitsNotRadix(s: string)
    requires AllDigits(s)
    ensures !RadixPositive(s)
  {
    if |s| > 2 && s[0] == '0' {
      assert RadixOf(s[1]) == 0;
      assert !IsRadixDigit(s[2], 0);
    }
  }

  lemma DecimalDigitsPositive(s: string)
    requires |s| > 0 && AllDigits(s)
    ensures SignedDecimalPositive(s) <==> SomeNonZeroDigit(s)
  {
    assert s != "Infinity" by { assert !IsDigit('I'); }
    FirstIndexAbsent(s, {'e', 'E'});
    FirstIndexAbsent(s, {'.'});
    assert s[..|s|] == s;
  }

  /** With none of `chs` in `s`, the search runs to the end. */
  lemma {:induction false} FirstIndexAbsent(s: string, chs: set<char>)
    requires forall i :: 0 <= i < |s| ==> s[i] !in chs
    ensures FirstIndex(s, chs) == |s|
  {
    if s != [] {
      FirstIndexAbsent(s[1..], chs);
    }
  }

  /** White space before the text does not change the verdict. */
  lemma LeadingSpaceIgnored(s: string, ch: char)
    requires IsJsSpace(ch)
    ensures TextPositive([ch] + s) <==> TextPositive(s)
  {
    assert ([ch] + s)[1..] == s;
  }

  /** The forms beyond plain digits that read as positive. */
  lemma TextPositiveForms()
    ensures TextPositive("1.5") && TextPositive("1e3") && TextPositive("+1") && TextPositive(" 1")
    ensures TextPositive("0x1") && TextPositive("Infinity")
  {
    FractionPositive();
    ExponentPositive();
    SignPositive();
    SpacePositive();
    HexPositive();
    InfinityPositive();
  }

  /** Zero, a negative number, a word, empty text and a radix prefix alone are not positive. */
  lemma TextNotPositiveForms()
    ensures !TextPositive("0") && !TextPositive("-1") && !TextPositive("abc") && !TextPositive("") && !TextPositive("0x")
  {
    assert DigitsValue("0") == 0;
    TextPositiveDigits("0");
    NegativeNotPositive();
    WordNotPositive();
    EmptyNotPositive();
    PrefixNotPositive();
  }

  /** Text without white space at its ends is read as it stands. */
  lemma TextPositiveTrimmed(s: string)
    requires Trim(s) == s
    ensures TextPositive(s) <==> RadixPositive(s) || SignedDecimalPositive(s)
  {
  }

  lemma OneMantissa()
    ensures Mantissa("1")
  {
    assert FirstIndex("1", {'.'}) == 1;
    assert "1"[..1] == "1";
  }

  lemma FractionPositive()
    ensures TextPositive("1.5")
  {
    TrimDigitsEnds("1.5");
    TextPositiveTrimmed("1.5");
    FractionDecimal();
  }

  lemma FractionDecimal()
    ensures SignedDecimalPositive("1.5")
  {
    assert FirstIndex("1.5", {'e', 'E'}) == 3;
    assert FirstIndex("1.5", {'.'}) == 1;
    assert "1.5"[2..] == "5";
    assert "1.5"[..3] == "1.5";
  }

  lemma ExponentPositive()
    ensures TextPositive("1e3")
  {
    TrimDigitsEnds("1e3");
    TextPositiveTrimmed("1e3");
    ExponentDecimal();
  }

  lemma ExponentDecimal()
    ensures SignedDecimalPositive("1e3")
  {
    assert FirstIndex("1e3", {'e', 'E'}) == 1;
    assert "1e3"[..1] == "1";
    OneMantissa();
    assert "1e3"[2..] == "3";
    assert SignedDigits("3");
  }

  lemma SignPositive()
    ensures TextPositive("+1")
  {
    TrimDigitsEnds("+1");
    TextPositiveTrimmed("+1");
    SignDecimal();
  }

  lemma SignDecimal()
    ensures SignedDecimalPositive("+1")
  {
    assert "+1"[1..] == "1";
    assert FirstIndex("1", {'e', 'E'}) == 1;
    OneMantissa();
    assert "1"[..1] == "1";
  }

  lemma SpacePositive()
    ensures TextPositive(" 1")
  {
    OnePositive();
    LeadingSpaceIgnored("1", ' ');
    assert [' '] + "1" == " 1";
  }

  lemma OnePositive()
    ensures TextPositive("1")
  {
    assert DigitsValue("1") == 1;
    TextPositiveDigits("1");
  }

  lemma HexPositive()
    ensures TextPositive("0x1")
  {
    TrimDigitsEnds("0x1");
    TextPositiveTrimmed("0x1");
    HexRadix();
  }

  lemma HexRadix()
    ensures RadixPositive("0x1")
  {
    assert RadixOf('x') == 16;
    assert "0x1"[2] != '0';
  }

  lemma InfinityPositive()
    ensures TextPositive("Infinity")
  {
    TrimDigitsEnds("Infinity");
    TextPositiveTrimmed("Infinity");
    InfinityDecimal();
  }

  lemma InfinityDecimal()
    ensures SignedDecimalPositive("Infinity")
  {
  }

  lemma NegativeNotPositive()
    ensures !TextPositive("-1")
  {
    TrimDigitsEnds("-1");
    TextPositiveTrimmed("-1");
    NegativeNeither();
  }

  lemma NegativeNeither()
    ensures !RadixPositive("-1") && !SignedDecimalPositive("-1")
  {
  }

  lemma WordNotPositive()
    ensures !TextPositive("abc")
  {
    TrimDigitsEnds("abc");
    TextPositiveTrimmed("abc");
    WordNeither();
  }

  lemma WordNeither()
    ensures !RadixPositive("abc") && !SignedDecimalPositive("abc")
  {
    assert FirstIndex("abc", {'e', 'E'}) == 3;
    assert FirstIndex("abc", {'.'}) == 3;
    assert !IsDigit('a');
    assert "abc"[..3] == "abc";
  }

  lemma EmptyNotPositive()
    ensures !TextPositive("")
  {
    assert Trim("") == "";
    TextPositiveTrimmed("");
    assert FirstIndex("", {'e', 'E'}) == 0;
  }

  lemma PrefixNotPositive()
    ensures !TextPositive("0x")
  {
    TrimDigitsEnds("0x");
    TextPositiveTrimmed("0x");
    PrefixNeither();
  }

  lemma PrefixNeither()
    ensures !RadixPositive("0x") && !SignedDecimalPositive("0x")
  {
    assert FirstIndex("0x", {'e', 'E'}) == 2;
    assert FirstIndex("0x", {'.'}) == 2;
    assert !IsDigit('x');
    assert "0x"[..2] == "0x";
  }

  /** Text that starts and ends with something other than white space is its own trimmed form. */
  lemma TrimDigitsEnds(s: string)
    requires |s| > 0 && !IsJsSpace(s[0]) && !IsJsSpace(s[|s| - 1])
    ensures Trim(s) == s
  {
    assert TrimStart(s) == s;
  }

  predicate IsSubstring(t: string, s: string)
  {
    exists i, j :: 0 <= i <= j <= |s| && s[i..j] == t
  }

  /** `v.indexOf(t) >= 0`: array search by strict equality, or substring search. */
  function IndexOfFound(v: Json, t: string): (r: Js<bool>)
    ensures r.Ok? <==> v.JArr? || v.JStr?
    ensures v.JArr? ==> (r.value <==> JStr(t) in v.elems)
    ensures v.JStr? ==> (r.value <==> IsSubstring(t, v.s))
  {
    match v
    case JArr(a) => Ok(JStr(t) in a)
    case JStr(s) => Ok(IsSubstring(t, s))
    case _ => Throw
  }

  /**
   * `v.includes(x)` where `v` may be any value: only arrays and strings
   * have the method; a string converts `x` to text first.
   */
  function IncludesValue(v: Json, x: Json): (r: Js<bool>)
    ensures r.Ok? <==> v.JArr? || v.JStr?
    ensures v.JArr? ==> (r.value <==> x in v.elems)
    ensures v.JStr? ==> (r.value <==> IsSubstring(Show(x), v.s))
  {
    match v
    case JArr(a) => Ok(x in a)
    case JStr(s) => Ok(IsSubstring(Show(x), s))
    case _ => Throw
  }
}
