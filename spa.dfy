/**
 * `JSONPathParent` from the web front end: given a path the validator
 * reported, the path of the enclosing value, if there is one.
 */
module SpaPaths {
  import opened Wrappers
  import opened JsRuntime
  import opened Predicates
  import opened Paths

  /** How many digits `s` ends with. */
  function TrailingDigitCount(s: string): (n: nat)
    ensures n <= |s|
    ensures forall i :: |s| - n <= i < |s| ==> IsDigit(s[i])
    ensures n < |s| ==> !IsDigit(s[|s| - n - 1])
  {
    if s == [] || !IsDigit(s[|s| - 1]) then 0 else 1 + TrailingDigitCount(s[..|s| - 1])
  }

  /** `s.replace(/\[\d+\]$/, '')`: the one place the pattern can match is the bracketed digits at the end. */
  function WithoutTrailingIndex(s: string): (r: string)
    ensures r <= s
  {
    if |s| == 0 || s[|s| - 1] != ']' then s
    else
      var body := s[..|s| - 1];
      var n := TrailingDigitCount(body);
      if 1 <= n < |body| && body[|body| - n - 1] == '[' then body[..|body| - n - 1] else s
  }

  /** The position of the last dot in `s`, or -1. */
  function LastDot(s: string): (r: int)
    ensures -1 <= r < |s|
    ensures r >= 0 ==> s[r] == '.'
    ensures forall k :: r < k < |s| ==> s[k] != '.'
  {
    if s == [] then -1 else if s[|s| - 1] == '.' then |s| - 1 else LastDot(s[..|s| - 1])
  }

  /** `s.replace(/\.[^\.]+$/, '')`: the pattern matches from the last dot, when something follows it. */
  function WithoutTrailingMember(s: string): (r: string)
    ensures r <= s
  {
    var d := LastDot(s);
    if 0 <= d < |s| - 1 then s[..d] else s
  }

  /**
   * `JSONPathParent(path)`. There is no parent of the empty path nor of one
   * ending in `$` (the root); otherwise the last bracketed index or the last
   * member name is cut off. The result, when there is one, is a prefix.
   */
  function Parent(path: string): (r: Option<string>)
    ensures r.None? <==> |path| == 0 || path[|path| - 1] == '$'
    ensures r.Some? ==> r.value <= path
  {
    if |path| == 0 then None
    else if path[|path| - 1] == '$' then None
    else if path[|path| - 1] == ']' then Some(WithoutTrailingIndex(path))
    else Some(WithoutTrailingMember(path))
  }

  lemma {:induction false} TrailingDigitsOfIndex(p: string, digits: string)
    requires AllDigits(digits)
    ensures TrailingDigitCount(p + "[" + digits) == |digits|
    decreases |digits|
  {
    var s := p + "[" + digits;
    if digits != [] {
      assert s[..|s| - 1] == p + "[" + digits[..|digits| - 1];
      assert s[|s| - 1] == digits[|digits| - 1];
      TrailingDigitsOfIndex(p, digits[..|digits| - 1]);
    } else {
      assert s[|s| - 1] == '[';
    }
  }

  /** A path ending in `[digits]` loses exactly that bracketed index. */
  lemma ParentStripsIndex(p: string, digits: string)
    requires |digits| > 0 && AllDigits(digits)
    ensures Parent(p + "[" + digits + "]") == Some(p)
  {
    var s := p + "[" + digits + "]";
    var body := s[..|s| - 1];
    assert body == p + "[" + digits;
    TrailingDigitsOfIndex(p, digits);
    assert body[|body| - |digits| - 1] == '[';
    assert body[..|body| - |digits| - 1] == p;
  }

  lemma {:induction false} LastDotOfMember(p: string, name: string)
    requires '.' !in name
    ensures LastDot(p + "." + name) == |p|
    decreases |name|
  {
    var s := p + "." + name;
    if name != [] {
      assert s[..|s| - 1] == p + "." + name[..|name| - 1];
      assert s[|s| - 1] == name[|name| - 1];
      assert '.' !in name[..|name| - 1] by {
        assert forall k :: 0 <= k < |name| - 1 ==> name[..|name| - 1][k] == name[k];
      }
      LastDotOfMember(p, name[..|name| - 1]);
    } else {
      assert s[|s| - 1] == '.';
    }
  }

  /** A path ending in `.name` loses exactly that member, when `name` has no dot and does not end like an index or the root. */
  lemma ParentStripsMember(p: string, name: string)
    requires |name| > 0 && '.' !in name
    requires name[|name| - 1] != ']' && name[|name| - 1] != '$'
    ensures Parent(p + "." + name) == Some(p)
  {
    var s := p + "." + name;
    assert s[|s| - 1] == name[|name| - 1];
    LastDotOfMember(p, name);
    assert s[..|p|] == p;
  }

  /** A segment the parent computation undoes. */
  ghost predicate Undoable(segment: string)
  {
    (exists i: nat :: segment == IndexSegment(i)) ||
    (|segment| > 1 && segment[0] == '.' && '.' !in segment[1..] &&
     segment[|segment| - 1] != ']' && segment[|segment| - 1] != '$')
  }

  /**
   * The round trip across the two programs: pushing an index segment, or a
   * member segment whose name has no dot, and then taking the parent of the
   * reported path gives back the path before the push.
   */
  lemma ParentUndoesPush(stack: seq<string>, segment: string)
    requires Undoable(segment)
    ensures Parent(Join(stack + [segment])) == Some(Join(stack))
  {
    assert (stack + [segment])[..|stack|] == stack;
    if i: nat :| segment == IndexSegment(i) {
      ParentStripsIndex(Join(stack), NatToString(i));
      assert Join(stack) + "[" + NatToString(i) + "]" == Join(stack) + segment;
    } else {
      var name := segment[1..];
      assert segment == "." + name;
      ParentStripsMember(Join(stack), name);
      assert Join(stack) + "." + name == Join(stack) + segment;
    }
  }

  /** The validator's `.vcardArray[1]` segment is not undone in one step: only its `[1]` is. */
  lemma ParentSplitsCompoundSegment(stack: seq<string>)
    ensures Parent(Join(stack + [".vcardArray[1]"])) == Some(Join(stack) + ".vcardArray")
  {
    assert (stack + [".vcardArray[1]"])[..|stack|] == stack;
    ParentStripsIndex(Join(stack) + ".vcardArray", "1");
    assert Join(stack) + ".vcardArray" + "[" + "1" + "]" == Join(stack) + ".vcardArray[1]";
  }
}
