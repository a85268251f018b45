/** The JSONPath the validator reports with each result: its segment stack, joined. */
module Paths {
  import opened JsRuntime

  /** `getPath()`: the segments concatenated with nothing between them. */
  function Join(segments: seq<string>): string
  {
    if segments == [] then "" else Join(segments[..|segments| - 1]) + segments[|segments| - 1]
  }

  /** The segment `iterate` pushes for the element at index `i`. */
  function IndexSegment(i: nat): string
  {
    "[" + NatToString(i) + "]"
  }

  /** A member segment: a dot and then the property name. */
  function MemberSegment(name: string): string
  {
    "." + name
  }

  lemma {:induction false} JoinAppend(a: seq<string>, b: seq<string>)
    ensures Join(a + b) == Join(a) + Join(b)
    decreases |b|
  {
    if b == [] {
      assert a + b == a;
    } else {
      var front := b[..|b| - 1];
      var last := b[|b| - 1];
      assert (a + b)[..|a + b| - 1] == a + front;
      assert (a + b)[|a + b| - 1] == last;
      assert Join(a + b) == Join(a + front) + last;
      JoinAppend(a, front);
      assert Join(b) == Join(front) + last;
    }
  }

  /** A path extended by segments reads as the old path followed by more text. */
  lemma JoinExtends(a: seq<string>, b: seq<string>)
    requires a <= b
    ensures Join(a) <= Join(b)
  {
    assert b == a + b[|a|..];
    JoinAppend(a, b[|a|..]);
  }

  /**
   * What a push of `segment` leaves on the stack once the callee between it
   * and the matching pop has left `leak` behind: a pop removes the last
   * entry, which is then the callee's rather than `segment`.
   */
  function CallResidue(segment: string, leak: seq<string>): (r: seq<string>)
    ensures leak == [] <==> r == []
    ensures |r| == |leak|
  {
    if leak == [] then [] else [segment] + leak[..|leak| - 1]
  }

  lemma PopAfterLeak(p: seq<string>, segment: string, leak: seq<string>)
    ensures var pushed := p + [segment] + leak;
      pushed[..|pushed| - 1] == p + CallResidue(segment, leak)
  {
    if leak != [] {
      assert p + [segment] + leak == p + ([segment] + leak[..|leak| - 1]) + [leak[|leak| - 1]];
    }
  }

  /** Strings joined with a separator between them, as `Array.prototype.join(sep)` does. */
  function JoinedWith(items: seq<string>, sep: string): string
  {
    if items == [] then "" else if |items| == 1 then items[0] else items[0] + sep + JoinedWith(items[1..], sep)
  }
}
