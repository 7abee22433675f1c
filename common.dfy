/**
 * Shared value types and the few JavaScript value rules the dashboard relies on:
 * missing values, truthiness of numbers and strings, `||` / `??` defaults and
 * order-preserving filters over lists.
 */
module Common {

  datatype Option<T> = None | Some(value: T)

  /** A number that may be `null`/`undefined` is truthy iff it is present and not zero. */
  predicate TruthyNum(x: Option<real>)
  {
    x.Some? && x.value != 0.0
  }

  /** A string is truthy iff it is non-empty; `null`/`undefined` is falsy. */
  predicate TruthyText(s: Option<string>)
  {
    s.Some? && s.value != ""
  }

  /** `x || 0` on a nullable number. */
  function OrZero(x: Option<real>): real
  {
    if TruthyNum(x) then x.value else 0.0
  }

  /** `x || null` on a nullable number: zero and missing both become `null`. */
  function NumOrNull(x: Option<real>): Option<real>
  {
    if TruthyNum(x) then x else None
  }

  /** `s || null` on a nullable string: the empty string becomes `null`. */
  function TextOrNull(s: Option<string>): Option<string>
  {
    if TruthyText(s) then s else None
  }

  /** `s || ''` on a nullable string. */
  function TextOrEmpty(s: Option<string>): string
  {
    if s.Some? then s.value else ""
  }

  /** `x ?? d`: only a missing value is replaced, zero is kept. */
  function Coalesce<T>(x: Option<T>, d: T): T
  {
    if x.Some? then x.value else d
  }

  /** Order-preserving filter (`Array.prototype.filter`). */
  function Filter<T>(s: seq<T>, p: T -> bool): (r: seq<T>)
    ensures |r| <= |s|
    ensures forall i :: 0 <= i < |r| ==> r[i] in s && p(r[i])
    ensures forall i :: 0 <= i < |s| && p(s[i]) ==> s[i] in r
  {
    if s == [] then [] else (if p(s[0]) then [s[0]] else []) + Filter(s[1..], p)
  }

  lemma {:induction false} FilterAppend<T>(a: seq<T>, b: seq<T>, p: T -> bool)
    ensures Filter(a + b, p) == Filter(a, p) + Filter(b, p)
  {
    if a == [] {
      assert a + b == b;
    } else {
      assert (a + b)[1..] == a[1..] + b;
      FilterAppend(a[1..], b, p);
    }
  }

  lemma FilterSnoc<T>(a: seq<T>, x: T, p: T -> bool)
    ensures Filter(a + [x], p) == Filter(a, p) + (if p(x) then [x] else [])
  {
    FilterAppend(a, [x], p);
  }

  /** Splitting a list by a predicate and its negation loses and adds nothing. */
  lemma {:induction false} FilterPartition<T>(s: seq<T>, p: T -> bool, q: T -> bool)
    requires forall x :: q(x) == !p(x)
    ensures multiset(Filter(s, p)) + multiset(Filter(s, q)) == multiset(s)
  {
    if s != [] {
      FilterPartition(s[1..], p, q);
      PartitionStep(s, Filter(s[1..], p), Filter(s[1..], q));
    }
  }

  /** Adding the head of a list to one side of a partition of its tail partitions the list. */
  lemma PartitionStep<T>(s: seq<T>, a: seq<T>, b: seq<T>)
    requires s != [] && multiset(a) + multiset(b) == multiset(s[1..])
    ensures multiset([s[0]] + a) + multiset(b) == multiset(s)
    ensures multiset(a) + multiset([s[0]] + b) == multiset(s)
  {
    assert s == [s[0]] + s[1..];
  }

  /** A filter every element passes keeps the list as it is. */
  lemma {:induction false} FilterKeepsAll<T>(s: seq<T>, p: T -> bool)
    requires forall i :: 0 <= i < |s| ==> p(s[i])
    ensures Filter(s, p) == s
  {
    if s != [] {
      assert forall i :: 0 <= i < |s[1..]| ==> s[1..][i] == s[i + 1];
      FilterKeepsAll(s[1..], p);
      assert s == [s[0]] + s[1..];
    } else {
      assert Filter(s, p) == [];
    }
  }

  /** `findIndex`: the position of the first element satisfying `p`, or -1. */
  function FindIndex<T>(s: seq<T>, p: T -> bool): (r: int)
    ensures -1 <= r < |s|
    ensures r == -1 <==> forall i :: 0 <= i < |s| ==> !p(s[i])
    ensures r >= 0 ==> p(s[r]) && forall k :: 0 <= k < r ==> !p(s[k])
  {
    if s == [] then -1
    else if p(s[0]) then 0
    else var k := FindIndex(s[1..], p); if k == -1 then -1 else k + 1
  }

  /** `find`: the first element satisfying `p`. */
  function Find<T>(s: seq<T>, p: T -> bool): (r: Option<T>)
    ensures r.None? <==> FindIndex(s, p) == -1
    ensures r.Some? ==> r.value == s[FindIndex(s, p)]
  {
    var k := FindIndex(s, p);
    if k == -1 then None else Some(s[k])
  }

  /** The elements of `s` are pairwise distinct. */
  predicate NoDup<T(==)>(s: seq<T>)
  {
    forall i, j :: 0 <= i < j < |s| ==> s[i] != s[j]
  }

  lemma NoDupAppend<T>(a: seq<T>, b: seq<T>)
    requires NoDup(a) && NoDup(b)
    requires forall x :: x in a ==> x !in b
    ensures NoDup(a + b)
  {
    forall i, j | 0 <= i < j < |a + b| ensures (a + b)[i] != (a + b)[j] {
      if j < |a| {
      } else if i >= |a| {
        assert (a + b)[i] == b[i - |a|] && (a + b)[j] == b[j - |a|];
      } else {
        assert (a + b)[i] in a && (a + b)[j] in b;
      }
    }
  }

  /** Sum of a list of reals. */
  function Sum(s: seq<real>): real
  {
    if s == [] then 0.0 else s[0] + Sum(s[1..])
  }

  lemma {:induction false} SumAppend(a: seq<real>, b: seq<real>)
    ensures Sum(a + b) == Sum(a) + Sum(b)
  {
    if a == [] {
      assert a + b == b;
    } else {
      assert (a + b)[1..] == a[1..] + b;
      SumAppend(a[1..], b);
    }
  }

  /** The length of a path: the sum of the distances between consecutive points. */
  function PathLength<P>(ps: seq<P>, dist: (P, P) -> real): real
    decreases |ps|
  {
    if |ps| < 2 then 0.0 else dist(ps[0], ps[1]) + PathLength(ps[1..], dist)
  }

  /** Extending a path by one point adds the last hop. */
  lemma {:induction false} PathLengthSnoc<P>(ps: seq<P>, x: P, dist: (P, P) -> real)
    requires |ps| >= 1
    ensures PathLength(ps + [x], dist) == PathLength(ps, dist) + dist(ps[|ps| - 1], x)
    decreases |ps|
  {
    if |ps| >= 2 {
      assert (ps + [x])[1..] == ps[1..] + [x];
      PathLengthSnoc(ps[1..], x, dist);
    }
  }

  /** With non-negative distances a path has non-negative length. */
  lemma {:induction false} PathLengthNonNegative<P>(ps: seq<P>, dist: (P, P) -> real)
    requires forall a, b :: dist(a, b) >= 0.0
    ensures PathLength(ps, dist) >= 0.0
    decreases |ps|
  {
    if |ps| >= 2 {
      PathLengthNonNegative(ps[1..], dist);
    }
  }
}
