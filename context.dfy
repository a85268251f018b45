/**
 * The validator's state as the checks see it, and the primitive steps that
 * change it: `add` and `msg` report a result, `pushPath` and `popPath` move
 * along the JSONPath stack, and the validators save and set `currentSpec`.
 * Each validator is then a function from the state it starts in to the state
 * it leaves, or to the state at the moment an exception escaped.
 */
module Context {
  import opened Wrappers
  import opened Json
  import opened JsRuntime
  import opened Paths
  import opened Results

  /**
   * What the validator learns from code it calls but that is not part of
   * this model, as functions of their inputs:
   * - `protocolOf(u)`: `new URL(u).protocol`, `None` where the parser throws;
   * - `lastSegmentOf(u)`: `decodeURI(new URL(u).pathname.split("/").pop())`,
   *   `None` where either call throws;
   * - `nfc(s)`: `s.normalize("NFC")`;
   * - `resolve(input, base)`: the `href` of `new URL(input, base)`, `None`
   *   where the parser throws, and `urlError(input, base)` the text of what
   *   it throws;
   * - `parseInt(s)`: `parseInt(s)`, `None` for `NaN`.
   */
  datatype Env = Env(
    protocolOf: string -> Option<string>,
    lastSegmentOf: string -> Option<string>,
    nfc: string -> string,
    resolve: (string, string) -> Option<string>,
    urlError: (string, string) -> string,
    parseInt: string -> Option<int>)

  /**
   * The state the checks read and write: the JSONPath stack (`path`), the
   * specification references are built from (`currentSpec`), every result
   * reported since the run started, and what the run was started with: the
   * tested URL, the response headers in the order the server sent them,
   * and the environment.
   */
  datatype Ctx = Ctx(
    path: seq<string>,
    spec: string,
    log: seq<Result>,
    url: string,
    headers: seq<(string, string)>,
    env: Env)

  /**
   * Where evaluation goes on with a value, or where an exception escaped
   * and the state it was raised in. No check catches an exception, so one
   * that escapes ends the run; what was reported before it stays reported.
   */
  datatype Run<+T> = Val(value: T) | Thrown(at: Ctx)
  {
    predicate IsFailure() { Thrown? }

    function PropagateFailure<U>(): Run<U>
      requires Thrown?
    {
      Thrown(at)
    }

    function Extract(): T
      requires Val?
    {
      value
    }
  }

  /** A JavaScript expression evaluated in state `c`: its value, or its exception raised in `c`. */
  function Try<T>(c: Ctx, v: Js<T>): (r: Run<T>)
    ensures r.Thrown? <==> v.Throw?
    ensures r.Thrown? ==> r.at == c
    ensures r.Val? ==> r.value == v.value
  {
    match v
    case Ok(x) => Val(x)
    case Throw => Thrown(c)
  }

  /** The state a check ended in, whether it returned or threw. */
  function Last(r: Run<Ctx>): Ctx
  {
    match r
    case Val(c) => c
    case Thrown(c) => c
  }

  /** A check run from state `c` ended by returning normally (`Ok`) or by throwing, in state `d`. */
  function Into(d: Ctx, o: Outcome): (r: Run<Ctx>)
    ensures Last(r) == d
    ensures r.Val? <==> o.Ok?
  {
    if o.Ok? then Val(d) else Thrown(d)
  }

  /**
   * `add(verdict, message, fragment)`: one result at the current path, with
   * a citation built from the current specification when the fragment is
   * not empty.
   */
  function Add(c: Ctx, verdict: Json, message: string, fragment: string): (d: Ctx)
    ensures d.log == c.log + [Result(verdict, message, Join(c.path), Ref(c.spec, fragment))]
    ensures d.path == c.path && d.spec == c.spec
  {
    c.(log := c.log + [Result(verdict, message, Join(c.path), Ref(c.spec, fragment))])
  }

  /** `add` with a boolean verdict, as almost every check calls it. */
  function Check(c: Ctx, pass: bool, message: string, fragment: string): (d: Ctx)
    ensures d == Add(c, JBool(pass), message, fragment)
  {
    Add(c, JBool(pass), message, fragment)
  }

  /** `msg(message)`: an informational result, whose verdict is `null`, with no citation. */
  function Msg(c: Ctx, message: string): (d: Ctx)
    ensures d == Add(c, JNull, message, "")
  {
    Add(c, JNull, message, "")
  }

  /** `pushPath(segment)`. */
  function Push(c: Ctx, segment: string): (d: Ctx)
    ensures d.path == c.path + [segment]
    ensures d.log == c.log && d.spec == c.spec
  {
    c.(path := c.path + [segment])
  }

  /** `popPath()`: removes the last segment, whichever it is; an empty stack stays empty. */
  function Pop(c: Ctx): (d: Ctx)
    ensures |c.path| > 0 ==> d.path == c.path[..|c.path| - 1]
    ensures c.path == [] ==> d.path == []
    ensures d.log == c.log && d.spec == c.spec
  {
    if c.path == [] then c else c.(path := c.path[..|c.path| - 1])
  }

  /** Setting `currentSpec`. */
  function SetSpec(c: Ctx, spec: string): (d: Ctx)
    ensures d.spec == spec && d.path == c.path && d.log == c.log
  {
    c.(spec := spec)
  }

  /** Nothing reported before a check is taken back: the log only grows. */
  predicate Grows(c: Ctx, r: Run<Ctx>)
  {
    c.log <= Last(r).log
  }

  /** A check that returns normally leaves the path as it found it. */
  predicate Restores(c: Ctx, r: Run<Ctx>)
  {
    r.Val? ==> r.value.path == c.path
  }

  /**
   * A check that returns normally may leave segments behind but never
   * removes one it did not push.
   */
  predicate Extends(c: Ctx, r: Run<Ctx>)
  {
    r.Val? ==> c.path <= r.value.path
  }

  /** What a run started with does not change while it runs. */
  ghost predicate SameRun(c: Ctx, r: Run<Ctx>)
  {
    Last(r).url == c.url && Last(r).headers == c.headers && Last(r).env == c.env
  }

  /** Pushing a segment and popping it again gives back the state pushed from. */
  lemma PushPop(c: Ctx, segment: string)
    ensures Pop(Push(c, segment)) == c
  {
    assert (c.path + [segment])[..|c.path|] == c.path;
  }

  /**
   * Each failing verdict adds one error and nothing else does: the number
   * of errors after `add` is the number before, plus one exactly when the
   * verdict is `false`.
   */
  lemma AddCountsErrors(c: Ctx, verdict: Json, message: string, fragment: string)
    ensures ErrorCount(Add(c, verdict, message, fragment).log) == ErrorCount(c.log) + (if verdict == JBool(false) then 1 else 0)
  {
    ErrorCountAppend(c.log, Result(verdict, message, Join(c.path), Ref(c.spec, fragment)));
  }
}
