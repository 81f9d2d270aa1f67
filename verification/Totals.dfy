/** Totals over the threads of a machine, for bounding the steps of a run. */
module Totals {
  function Total(w: seq<int>): int {
    if w == [] then 0 else Total(w[..|w| - 1]) + w[|w| - 1]
  }

  /** One entry changes. */
  lemma {:induction false} TotalChanges(a: seq<int>, b: seq<int>, k: nat)
    requires k < |a| == |b| && forall i :: 0 <= i < |a| && i != k ==> b[i] == a[i]
    ensures Total(b) == Total(a) - a[k] + b[k]
  {
    var n := |a| - 1;
    if k < n {
      TotalChanges(a[..n], b[..n], k);
    } else {
      assert a[..n] == b[..n];
    }
  }

  lemma {:induction false} TotalAtMost(a: seq<int>, b: seq<int>, m: int)
    requires |a| == |b| && forall i :: 0 <= i < |a| ==> a[i] <= m * b[i]
    ensures Total(a) <= m * Total(b)
  {
    if a != [] {
      var n := |a| - 1;
      TotalAtMost(a[..n], b[..n], m);
      Distribute(m, Total(b[..n]), b[n]);
    }
  }

  lemma Distribute(m: int, x: int, y: int)
    ensures m * (x + y) == m * x + m * y
  {
  }

  lemma {:induction false} TotalIsBelow(a: seq<int>, m: int)
    requires forall i :: 0 <= i < |a| ==> a[i] <= m
    ensures Total(a) <= |a| * m
  {
    if a != [] {
      TotalIsBelow(a[..|a| - 1], m);
      OneMore(|a| - 1, m);
    }
  }

  lemma {:induction false} TotalNotNegative(w: seq<int>)
    requires forall i :: 0 <= i < |w| ==> w[i] >= 0
    ensures Total(w) >= 0
  {
    if w != [] {
      TotalNotNegative(w[..|w| - 1]);
    }
  }

  lemma {:induction false} TotalGrows(a: seq<int>, b: seq<int>)
    requires |a| == |b| && forall i :: 0 <= i < |a| ==> a[i] <= b[i]
    ensures Total(a) <= Total(b)
  {
    if a != [] {
      TotalGrows(a[..|a| - 1], b[..|b| - 1]);
    }
  }

  /** No entry gets smaller, and entry k grows by d. */
  lemma TotalGrowsAt(a: seq<int>, b: seq<int>, k: nat, d: int)
    requires k < |a| == |b| && (forall i :: 0 <= i < |a| && i != k ==> a[i] <= b[i]) && a[k] + d <= b[k]
    ensures Total(a) + d <= Total(b)
  {
    var c := a[k := a[k] + d];
    TotalChanges(a, c, k);
    TotalGrows(c, b);
  }

  lemma OneMore(n: int, m: int)
    ensures (n + 1) * m == n * m + m
  {
  }
}
