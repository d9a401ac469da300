/** Linear scans over insertion-ordered collections: first match, last match,
    filtering and summing. */
module Scan {
  import opened Types

  predicate Has<T, K(==)>(xs: seq<T>, key: T -> K, k: K)
  {
    exists i :: 0 <= i < |xs| && key(xs[i]) == k
  }

  /** No two elements share a key. */
  predicate Unique<T, K(==)>(xs: seq<T>, key: T -> K)
  {
    forall i, j :: 0 <= i < j < |xs| ==> key(xs[i]) != key(xs[j])
  }

  /** Index of the first element with key `k` (a scan that returns on the first hit). */
  function FirstIndex<T, K(==)>(xs: seq<T>, key: T -> K, k: K): (r: Option<nat>)
    ensures r.None? <==> !Has(xs, key, k)
    ensures r.Some? ==> r.value < |xs| && key(xs[r.value]) == k
    ensures r.Some? ==> forall j :: 0 <= j < r.value ==> key(xs[j]) != k
  {
    if |xs| == 0 then None
    else if key(xs[0]) == k then Some(0)
    else
      match FirstIndex(xs[1..], key, k)
      case None => assert forall j :: 1 <= j < |xs| ==> xs[j] == xs[1..][j - 1]; None
      case Some(j) => Some(j + 1)
  }

  /** Index of the last element with key `k` (a scan that keeps overwriting its hit). */
  function LastIndex<T, K(==)>(xs: seq<T>, key: T -> K, k: K): (r: Option<nat>)
    ensures r.None? <==> !Has(xs, key, k)
    ensures r.Some? ==> r.value < |xs| && key(xs[r.value]) == k
    ensures r.Some? ==> forall j :: r.value < j < |xs| ==> key(xs[j]) != k
  {
    if |xs| == 0 then None
    else if key(xs[|xs| - 1]) == k then Some(|xs| - 1)
    else LastIndex(xs[..|xs| - 1], key, k)
  }

  /** Dropping the last element keeps keys unique, and its key is not in the rest. */
  lemma UniqueInit<T, K>(xs: seq<T>, key: T -> K)
    requires |xs| > 0 && Unique(xs, key)
    ensures var n := |xs| - 1;
      Unique(xs[..n], key) && !Has(xs[..n], key, key(xs[n]))
  {
    var n := |xs| - 1;
    assert forall i :: 0 <= i < n ==> xs[..n][i] == xs[i];
  }

  lemma InitLast<T>(xs: seq<T>)
    requires |xs| > 0
    ensures xs[..|xs| - 1] + [xs[|xs| - 1]] == xs
  {
  }

  /** With unique keys the two scans agree. */
  lemma UniqueScansAgree<T, K>(xs: seq<T>, key: T -> K, k: K)
    requires Unique(xs, key)
    ensures FirstIndex(xs, key, k) == LastIndex(xs, key, k)
  {
  }

  /** Without unique keys they do not: whenever two elements share a key,
      the first-match and the last-match scans for it pick different ones. */
  lemma DuplicateScansDiverge<T, K>(xs: seq<T>, key: T -> K, i: nat, j: nat)
    requires i < j < |xs| && key(xs[i]) == key(xs[j])
    ensures FirstIndex(xs, key, key(xs[i])) != LastIndex(xs, key, key(xs[i]))
  {
  }

  /** The elements satisfying `f`, in order. */
  function Filter<T(!new)>(xs: seq<T>, f: T -> bool): (r: seq<T>)
    ensures forall i :: 0 <= i < |r| ==> f(r[i])
  {
    if |xs| == 0 then []
    else Filter(xs[..|xs| - 1], f) + if f(xs[|xs| - 1]) then [xs[|xs| - 1]] else []
  }

  /** Filtering keeps every occurrence of a passing element and drops every
      other one. */
  lemma {:induction false} FilterCounts<T(!new)>(xs: seq<T>, f: T -> bool)
    ensures forall x :: multiset(Filter(xs, f))[x] == if f(x) then multiset(xs)[x] else 0
    decreases |xs|
  {
    if |xs| != 0 {
      FilterCounts(xs[..|xs| - 1], f);
      assert xs == xs[..|xs| - 1] + [xs[|xs| - 1]];
    }
  }

  lemma {:induction false} FilterConcat<T(!new)>(a: seq<T>, b: seq<T>, f: T -> bool)
    ensures Filter(a + b, f) == Filter(a, f) + Filter(b, f)
    decreases |b|
  {
    if |b| != 0 {
      var b' := b[..|b| - 1];
      assert (a + b)[..|a + b| - 1] == a + b';
      FilterConcat(a, b', f);
    } else {
      assert a + b == a;
    }
  }

  /** Sum of the payments' amounts, as an unbounded integer. */
  function Total(ps: seq<Payment>): int
  {
    if |ps| == 0 then 0 else Total(ps[..|ps| - 1]) + ps[|ps| - 1].amount
  }

  lemma {:induction false} TotalConcat(a: seq<Payment>, b: seq<Payment>)
    ensures Total(a + b) == Total(a) + Total(b)
    decreases |b|
  {
    if |b| != 0 {
      var b' := b[..|b| - 1];
      assert (a + b)[..|a + b| - 1] == a + b';
      TotalConcat(a, b');
    } else {
      assert a + b == a;
    }
  }
}
