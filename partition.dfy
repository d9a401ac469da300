/** The partition arithmetic of `SumPayments` and `FilterPayments*`: with
    `len1 = n / g` and `len2 = n % g`, worker `i < g` takes the window
    `[i*len1, i*len1 + len1)` and, when `len2 != 0`, one more pass takes the
    tail `[n - len2, n)`. */
module Partition {
  import opened Types
  import opened Scan

  lemma MulMonotone(a: int, b: int, c: int)
    requires 0 <= a <= b && 0 <= c
    ensures a * c <= b * c
  {
  }

  /** Worker `i`'s window `[i * len1, (i + 1) * len1)` lies within the first
      `g * len1 <= n` payments, and the next worker starts where it ends. */
  lemma WorkerWindow(n: nat, g: nat, i: nat)
    requires g >= 1 && i < g
    ensures (i + 1) * (n / g) == i * (n / g) + n / g
    ensures 0 <= i * (n / g) && (i + 1) * (n / g) <= g * (n / g) == n - n % g
  {
    MulMonotone(i + 1, g, n / g);
  }

  /** Summing a prefix and the rest separately, each in int64, and adding
      the two partial sums gives the int64 total. */
  lemma WrapSplit(ps: seq<Payment>, k: nat)
    requires k <= |ps|
    ensures Add64(Wrap64(Total(ps[..k])), Wrap64(Total(ps[k..]))) == Wrap64(Total(ps))
  {
    assert ps == ps[..k] + ps[k..];
    TotalConcat(ps[..k], ps[k..]);
    WrapAddBoth(Total(ps[..k]), Total(ps[k..]));
  }

  /** The workers' partial sum of the first `k` payments plus the tail
      window's sum is the int64 total. */
  lemma WorkersThenTail(ps: seq<Payment>, k: nat, a: int64, b: int64)
    requires k <= |ps| && a == Wrap64(Total(ps[..k])) && b == Wrap64(Total(ps[k..|ps|]))
    ensures Add64(a, b) == Wrap64(Total(ps))
  {
    assert ps[k..|ps|] == ps[k..];
    WrapSplit(ps, k);
  }

  /** The windows, in worker order, for `n` payments and `g >= 1` workers. */
  function Windows(n: nat, g: nat): (ws: seq<(int, int)>)
    requires g >= 1
    ensures |ws| == g + (if n % g != 0 then 1 else 0)
  {
    var len1 := n / g;
    var len2 := n % g;
    seq(g, i requires 0 <= i < g => (i * len1, i * len1 + len1))
      + (if len2 != 0 then [(n - len2, n)] else [])
  }

  predicate InWindow(w: (int, int), k: int) { w.0 <= k < w.1 }

  /** The windows start at 0, each begins where the previous one ends, none
      runs backwards, and the last ends at `n`. */
  lemma {:induction false} WindowsContiguous(n: nat, g: nat)
    requires g >= 1
    ensures var ws := Windows(n, g);
      && ws[0].0 == 0 && ws[|ws| - 1].1 == n
      && (forall w :: 0 <= w < |ws| ==> 0 <= ws[w].0 <= ws[w].1 <= n)
      && (forall w :: 0 <= w < |ws| - 1 ==> ws[w].1 == ws[w + 1].0)
      && ws[g - 1].1 == n - n % g
  {
    var ws := Windows(n, g);
    var len1 := n / g;
    var len2 := n % g;
    assert n == g * len1 + len2;
    forall w | 0 <= w < g
      ensures 0 <= ws[w].0 <= ws[w].1 <= g * len1
    {
      MulMonotone(w + 1, g, len1);
      MulMonotone(0, w, len1);
    }
    forall w | 0 <= w < g - 1
      ensures ws[w].1 == ws[w + 1].0
    {
      assert (w + 1) * len1 == w * len1 + len1;
    }
    assert ws[g - 1].1 == g * len1 by {
      assert (g - 1) * len1 + len1 == g * len1;
    }
  }

  predicate Covered(ws: seq<(int, int)>, k: int)
  {
    exists w :: 0 <= w < |ws| && InWindow(ws[w], k)
  }

  /** The worker whose window holds index `k`. */
  lemma WindowOf(n: nat, g: nat, k: nat) returns (w: nat)
    requires g >= 1 && k < n
    ensures w < |Windows(n, g)| && InWindow(Windows(n, g)[w], k)
  {
    var ws := Windows(n, g);
    var len1 := n / g;
    var len2 := n % g;
    assert n == g * len1 + len2;
    if k < g * len1 {
      assert len1 > 0;
      w := k / len1;
      assert k == w * len1 + k % len1;
      if w >= g {
        MulMonotone(g, w, len1);
      }
      assert (w * len1, w * len1 + len1) == ws[w];
    } else {
      w := |ws| - 1;
    }
  }

  /** The windows tile `[0, n)`: every index lies in exactly one window. */
  lemma WindowsTile(n: nat, g: nat)
    requires g >= 1
    ensures var ws := Windows(n, g);
      && (forall k :: 0 <= k < n ==> Covered(ws, k))
      && (forall w, v, k :: 0 <= w < v < |ws| && InWindow(ws[w], k) ==> !InWindow(ws[v], k))
      && (forall w, k :: 0 <= w < |ws| && InWindow(ws[w], k) ==> 0 <= k < n)
  {
    var ws := Windows(n, g);
    WindowsContiguous(n, g);
    forall k | 0 <= k < n
      ensures Covered(ws, k)
    {
      var w := WindowOf(n, g, k);
    }
    forall w, v | 0 <= w < v < |ws|
      ensures ws[w].1 <= ws[v].0
    {
      OrderedEnds(ws, w, v);
    }
  }

  lemma {:induction false} OrderedEnds(ws: seq<(int, int)>, w: nat, v: nat)
    requires w < v < |ws|
    requires forall u :: 0 <= u < |ws| ==> ws[u].0 <= ws[u].1
    requires forall u :: 0 <= u < |ws| - 1 ==> ws[u].1 == ws[u + 1].0
    ensures ws[w].1 <= ws[v].0
    decreases v - w
  {
    if w + 1 < v {
      OrderedEnds(ws, w + 1, v);
    }
  }

  /** Sum of the per-window sums. */
  function WindowedTotal(ps: seq<Payment>, ws: seq<(int, int)>): int
    requires forall w :: 0 <= w < |ws| ==> 0 <= ws[w].0 <= ws[w].1 <= |ps|
  {
    if |ws| == 0 then 0
    else
      var last := ws[|ws| - 1];
      WindowedTotal(ps, ws[..|ws| - 1]) + Total(ps[last.0..last.1])
  }

  lemma {:induction false} ChainTotal(ps: seq<Payment>, ws: seq<(int, int)>)
    requires |ws| >= 1 && ws[0].0 == 0
    requires forall w :: 0 <= w < |ws| ==> 0 <= ws[w].0 <= ws[w].1 <= |ps|
    requires forall w :: 0 <= w < |ws| - 1 ==> ws[w].1 == ws[w + 1].0
    ensures WindowedTotal(ps, ws) == Total(ps[..ws[|ws| - 1].1])
    decreases |ws|
  {
    var last := ws[|ws| - 1];
    if |ws| == 1 {
      assert ps[last.0..last.1] == ps[..last.1];
      assert WindowedTotal(ps, ws[..0]) == 0;
    } else {
      var init := ws[..|ws| - 1];
      ChainTotal(ps, init);
      assert init[|init| - 1].1 == last.0;
      assert ps[..last.1] == ps[..last.0] + ps[last.0..last.1];
      TotalConcat(ps[..last.0], ps[last.0..last.1]);
    }
  }

  /** Summing window by window gives the sequential sum, for every worker count. */
  lemma PartitionedTotal(ps: seq<Payment>, g: nat)
    requires g >= 1
    ensures var ws := Windows(|ps|, g);
            (forall w :: 0 <= w < |ws| ==> 0 <= ws[w].0 <= ws[w].1 <= |ps|)
            && WindowedTotal(ps, ws) == Total(ps)
  {
    WindowsContiguous(|ps|, g);
    ChainTotal(ps, Windows(|ps|, g));
    assert ps[..|ps|] == ps;
  }

  /** The `g` workers' windows, without the tail, cover exactly the first
      `n - n % g` payments. */
  lemma WorkerWindowsTotal(ps: seq<Payment>, g: nat)
    requires g >= 1
    ensures var ws := Windows(|ps|, g)[..g];
            (forall w :: 0 <= w < |ws| ==> 0 <= ws[w].0 <= ws[w].1 <= |ps|)
            && WindowedTotal(ps, ws) == Total(ps[..|ps| - |ps| % g])
  {
    var all := Windows(|ps|, g);
    WindowsContiguous(|ps|, g);
    var ws := all[..g];
    assert forall w :: 0 <= w < g ==> ws[w] == all[w];
    ChainTotal(ps, ws);
  }

  /** The worked example: amounts 1..11 on two workers sum to 66. */
  lemma ElevenPaymentsOnTwoWorkers(ps: seq<Payment>)
    requires |ps| == 11 && forall i :: 0 <= i < 11 ==> ps[i].amount == i + 1
    ensures WindowedTotal(ps, Windows(11, 2)) == 66
  {
    PartitionedTotal(ps, 2);
    assert ps[..11] == ps;
    var t := 0;
    assert Total(ps[..0]) == 0;
    for j := 0 to 11
      invariant 2 * t == j * (j + 1) && Total(ps[..j]) == t
    {
      assert ps[..j + 1][..j] == ps[..j];
      assert (j + 1) * (j + 2) == j * (j + 1) + 2 * (j + 1);
      t := t + ps[j].amount;
    }
  }
}
