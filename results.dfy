/**
 * What the validator reports: one result per `add`, carrying the verdict it
 * was given, the message, the JSONPath at the time and, when the check names
 * a section, the citation URL built from the current specification.
 */
module Results {
  import opened Wrappers
  import opened Json
  import opened Tables

  /**
   * The verdict is whatever value `add` was given: `true` for a pass,
   * `false` for a failure, `null` for an informational message (and, in one
   * place, a number).
   */
  datatype Result = Result(verdict: Json, message: string, path: string, reference: Option<string>)

  /** Only a verdict of exactly `false` counts as an error. */
  predicate IsError(r: Result)
  {
    r.verdict == JBool(false)
  }

  /** The positions of the log that hold an error. */
  function ErrorPositions(log: seq<Result>): set<int>
  {
    set i | 0 <= i < |log| && IsError(log[i])
  }

  /** The number of errors in a log. */
  function ErrorCount(log: seq<Result>): nat
  {
    |ErrorPositions(log)|
  }

  lemma ErrorCountAppend(log: seq<Result>, r: Result)
    ensures ErrorCount(log + [r]) == ErrorCount(log) + (if IsError(r) then 1 else 0)
  {
    var added: set<int> := if IsError(r) then {|log|} else {};
    ErrorPositionsAppend(log, r);
    assert ErrorPositions(log) !! added;
  }

  /** Appending a result adds its position to the error positions exactly when it is an error. */
  lemma ErrorPositionsAppend(log: seq<Result>, r: Result)
    ensures ErrorPositions(log + [r]) == ErrorPositions(log) + (if IsError(r) then {|log|} else {})
  {
    var before := ErrorPositions(log);
    var after := ErrorPositions(log + [r]);
    var added: set<int> := if IsError(r) then {|log|} else {};
    forall i | i in after
      ensures i in before + added
    {
      if i < |log| {
        assert (log + [r])[i] == log[i];
      }
    }
    forall i | i in before + added
      ensures i in after
    {
      if i < |log| {
        assert (log + [r])[i] == log[i];
      }
    }
  }

  /** The errors of two logs put one after the other add up. */
  lemma {:induction false} ErrorCountConcat(a: seq<Result>, b: seq<Result>)
    ensures ErrorCount(a + b) == ErrorCount(a) + ErrorCount(b)
    decreases |b|
  {
    if b == [] {
      assert a + b == a;
    } else {
      var n := |b| - 1;
      assert a + b == (a + b[..n]) + [b[n]];
      assert b == b[..n] + [b[n]];
      ErrorCountConcat(a, b[..n]);
      ErrorCountAppend(a + b[..n], b[n]);
      ErrorCountAppend(b[..n], b[n]);
    }
  }

  /** A log counts no errors exactly when none of its results is one. */
  lemma ErrorCountCountsErrors(log: seq<Result>)
    ensures ErrorCount(log) == 0 <==> forall i :: 0 <= i < |log| ==> !IsError(log[i])
  {
    if exists i :: 0 <= i < |log| && IsError(log[i]) {
      var i :| 0 <= i < |log| && IsError(log[i]);
      assert i in ErrorPositions(log);
    } else {
      assert ErrorPositions(log) == {};
    }
  }

  /**
   * `add`'s reference argument turned into a citation: nothing for an empty
   * fragment, otherwise the base, the current specification's document and
   * the fragment. A specification missing from the table renders as
   * `undefined`.
   */
  function Ref(spec: string, fragment: string): Option<string>
  {
    if fragment == "" then None
    else
      Some(ReferenceBase + (match ReferenceURL(spec) case Some(doc) => doc case None => "undefined") + "#" + fragment)
  }

  /**
   * `lastTestedResponseHeaders[name]`: the object is built by assigning
   * every header pair in turn, so the last pair with that name wins.
   */
  function HeaderValue(headers: seq<(string, string)>, name: string): (r: Option<string>)
    ensures r.Some? <==> exists i :: 0 <= i < |headers| && headers[i].0 == name
  {
    if headers == [] then None
    else if headers[|headers| - 1].0 == name then Some(headers[|headers| - 1].1)
    else
      var front := headers[..|headers| - 1];
      assert forall i :: 0 <= i < |front| ==> front[i] == headers[i];
      HeaderValue(front, name)
  }
}
