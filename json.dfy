/**
 * The JavaScript values the validator walks: what JSON.parse produces, plus
 * `undefined`, which is what reading a missing property or an index past the
 * end of an array yields.
 */
module Json {
  import opened Wrappers

  /**
   * An object's members are listed in the order `Object.keys` returns them,
   * each key once (JSON.parse never produces two members with one key).
   * A non-integer number is carried only as JavaScript's own rendering of it,
   * which is all the validator ever does with one (it is concatenated into a
   * message).
   */
  datatype Json =
    | JUndefined
    | JNull
    | JBool(b: bool)
    | JInt(n: int)
    | JFrac(text: string)
    | JStr(s: string)
    | JArr(elems: seq<Json>)
    | JObj(members: seq<Member>)

  datatype Member = Member(key: string, value: Json)

  /**
   * A measure that strictly decreases from a container to what it holds; an
   * object also outweighs the array of its keys.
   */
  function Size(v: Json): nat
  {
    match v
    case JUndefined => 0
    case JArr(a) => 1 + SizeOfElems(a)
    case JObj(m) => 1 + SizeOfMembers(m)
    case _ => 1
  }

  function SizeOfElems(a: seq<Json>): nat
  {
    if a == [] then 0 else Size(a[0]) + SizeOfElems(a[1..])
  }

  function SizeOfMembers(m: seq<Member>): nat
  {
    if m == [] then 0 else 1 + Size(m[0].value) + SizeOfMembers(m[1..])
  }

  /** The value of the first member named `k`, if there is one. */
  function Lookup(m: seq<Member>, k: string): Option<Json>
  {
    if m == [] then None
    else if m[0].key == k then Some(m[0].value)
    else Lookup(m[1..], k)
  }

  /** The value of member `k` of `v`, when `v` is an object that has one. */
  function MemberOf(v: Json, k: string): Option<Json>
  {
    if v.JObj? then Lookup(v.members, k) else None
  }

  /** A key is found exactly when some member carries it, and what is found is that member's value. */
  lemma {:induction false} LookupFindsMember(m: seq<Member>, k: string)
    ensures Lookup(m, k).Some? <==> exists i :: 0 <= i < |m| && m[i].key == k
    ensures Lookup(m, k).Some? ==> exists i :: 0 <= i < |m| && m[i].key == k && m[i].value == Lookup(m, k).value
  {
    if m != [] && m[0].key != k {
      LookupFindsMember(m[1..], k);
      assert forall i :: 0 <= i < |m| - 1 ==> m[1..][i] == m[i + 1];
    }
  }

  /** The keys of an object, in order. */
  function KeysOf(m: seq<Member>): (ks: seq<string>)
    ensures |ks| == |m|
  {
    if m == [] then [] else [m[0].key] + KeysOf(m[1..])
  }

  lemma {:induction false} ElemSmaller(a: seq<Json>, i: nat)
    requires i < |a|
    ensures Size(a[i]) < Size(JArr(a))
  {
    ElemBelowSum(a, i);
  }

  lemma {:induction false} ElemBelowSum(a: seq<Json>, i: nat)
    requires i < |a|
    ensures Size(a[i]) <= SizeOfElems(a)
    decreases |a|
  {
    if i > 0 {
      ElemBelowSum(a[1..], i - 1);
    }
  }

  lemma {:induction false} LookupSmaller(m: seq<Member>, k: string)
    requires Lookup(m, k).Some?
    ensures Size(Lookup(m, k).value) < Size(JObj(m))
  {
    LookupBelowSum(m, k);
  }

  lemma {:induction false} LookupBelowSum(m: seq<Member>, k: string)
    requires Lookup(m, k).Some?
    ensures Size(Lookup(m, k).value) <= SizeOfMembers(m)
    decreases |m|
  {
    if m[0].key != k {
      LookupBelowSum(m[1..], k);
    }
  }

  /** A sequence of strings as an array value. */
  function Strings(ks: seq<string>): (r: seq<Json>)
    ensures |r| == |ks|
  {
    if ks == [] then [] else [JStr(ks[0])] + Strings(ks[1..])
  }

  lemma {:induction false} KeyArrayNotLarger(m: seq<Member>)
    ensures Size(JArr(Strings(KeysOf(m)))) <= Size(JObj(m))
  {
    StringsSize(KeysOf(m));
    MembersAtLeastCount(m);
  }

  lemma {:induction false} StringsSize(ks: seq<string>)
    ensures SizeOfElems(Strings(ks)) == |ks|
  {
    if ks != [] {
      assert Strings(ks)[1..] == Strings(ks[1..]);
      StringsSize(ks[1..]);
    }
  }

  lemma {:induction false} MembersAtLeastCount(m: seq<Member>)
    ensures SizeOfMembers(m) >= |m|
  {
    if m != [] {
      MembersAtLeastCount(m[1..]);
    }
  }

  /** Key `i` of an object is the key of its member `i`. */
  lemma {:induction false} KeysOfKeys(m: seq<Member>)
    ensures forall i :: 0 <= i < |m| ==> KeysOf(m)[i] == m[i].key
  {
    if m != [] {
      KeysOfKeys(m[1..]);
      assert forall i :: 0 < i < |m| ==> KeysOf(m)[i] == KeysOf(m[1..])[i - 1];
    }
  }

  /** A member whose key no earlier member carries is the one a lookup of that key finds. */
  lemma {:induction false} LookupFirst(m: seq<Member>, j: nat)
    requires j < |m| && forall i :: 0 <= i < j ==> m[i].key != m[j].key
    ensures Lookup(m, m[j].key) == Some(m[j].value)
  {
    if j > 0 {
      assert m[1..][j - 1] == m[j];
      LookupFirst(m[1..], j - 1);
    }
  }

  /** Element `i` of the array is string `i`. */
  lemma {:induction false} StringsElements(ks: seq<string>)
    ensures forall i :: 0 <= i < |ks| ==> Strings(ks)[i] == JStr(ks[i])
  {
    if ks != [] {
      StringsElements(ks[1..]);
      assert forall i :: 0 < i < |ks| ==> Strings(ks)[i] == Strings(ks[1..])[i - 1];
    }
  }
}
