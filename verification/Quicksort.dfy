/** The quicksort of spmd/quicksort: a partition through a scratch array, then recursion on the two
    parts. */
module Quicksort {
  ghost predicate Sorted(s: seq<int>) {
    forall i, j :: 0 <= i < j < |s| ==> s[i] <= s[j]
  }

  ghost predicate Permutation(s: seq<int>, t: seq<int>) {
    multiset(s) == multiset(t)
  }

  ghost predicate AllBelow(s: seq<int>, c: int) {
    forall i :: 0 <= i < |s| ==> s[i] < c
  }

  ghost predicate AllFrom(s: seq<int>, c: int) {
    forall i :: 0 <= i < |s| ==> s[i] >= c
  }

  lemma InPermutation(s: seq<int>, t: seq<int>, i: nat)
    requires Permutation(s, t) && i < |s|
    ensures s[i] in t
  {
    assert s[i] in multiset(s);
    assert s[i] in multiset(t);
  }

  lemma BelowPermuted(s: seq<int>, t: seq<int>, c: int)
    requires Permutation(s, t) && AllBelow(s, c)
    ensures AllBelow(t, c)
  {
    forall i | 0 <= i < |t| ensures t[i] < c {
      InPermutation(t, s, i);
    }
  }

  lemma FromPermuted(s: seq<int>, t: seq<int>, c: int)
    requires Permutation(s, t) && AllFrom(s, c)
    ensures AllFrom(t, c)
  {
    forall i | 0 <= i < |t| ensures t[i] >= c {
      InPermutation(t, s, i);
    }
  }

  /** Sorted parts around the center make a sorted whole. */
  lemma SortedAround(low: seq<int>, c: int, high: seq<int>)
    requires Sorted(low) && Sorted(high) && AllBelow(low, c) && AllFrom(high, c)
    ensures Sorted(low + [c] + high)
  {
  }

  /** The scratch array after looking at the elements of `seen`: the small ones in front, the
      others at the back of the first n places. */
  ghost predicate Split(scratch: seq<int>, n: nat, front: int, back: int, center: int, seen: seq<int>) {
    && n <= |scratch| && 0 <= front <= back < n && front + (n - 1 - back) == |seen|
    && AllBelow(scratch[..front], center) && AllFrom(scratch[back + 1..n], center)
    && multiset(scratch[..front]) + multiset(scratch[back + 1..n]) == multiset(seen)
  }

  lemma AddBack(scratch: seq<int>, n: nat, front: int, back: int, center: int, seen: seq<int>, x: int)
    requires Split(scratch, n, front, back, center, seen) && front < back && x >= center
    ensures Split(scratch[back := x], n, front, back - 1, center, seen + [x])
  {
    var s' := scratch[back := x];
    assert s'[..front] == scratch[..front];
    assert s'[back..n] == [x] + scratch[back + 1..n];
  }

  lemma AddFront(scratch: seq<int>, n: nat, front: int, back: int, center: int, seen: seq<int>, x: int)
    requires Split(scratch, n, front, back, center, seen) && front < back && x < center
    ensures Split(scratch[front := x], n, front + 1, back, center, seen + [x])
  {
    var s' := scratch[front := x];
    assert s'[..front + 1] == scratch[..front] + [x];
    assert s'[back + 1..n] == scratch[back + 1..n];
  }

  /** One element goes to the front or to the back. */
  method PlaceOne(scratch: array<int>, n: nat, front: int, back: int, center: int, ghost seen: seq<int>, temp: int)
      returns (front': int, back': int)
    requires Split(scratch[..], n, front, back, center, seen) && front < back
    modifies scratch
    ensures Split(scratch[..], n, front', back', center, seen + [temp])
  {
    front', back' := front, back;
    if temp >= center {
      AddBack(scratch[..], n, front, back, center, seen, temp);
      Put(scratch, back, temp);
      back' := back - 1;
    } else {
      AddFront(scratch[..], n, front, back, center, seen, temp);
      Put(scratch, front, temp);
      front' := front + 1;
    }
  }

  method Put(scratch: array<int>, i: int, x: int)
    requires 0 <= i < scratch.Length
    modifies scratch
    ensures scratch[..] == old(scratch[..])[i := x]
  {
    scratch[i] := x;
  }

  /** The first loop: every element but the center goes to the scratch array. */
  method Partition(a: array<int>, lo: nat, n: nat, scratch: array<int>) returns (front: int, back: int)
    requires a != scratch && n >= 1 && lo + n <= a.Length && n <= scratch.Length
    modifies scratch
    ensures front == back && Split(scratch[..], n, front, back, a[lo], a[lo + 1..lo + n])
  {
    var center := a[lo];
    front, back := 0, n - 1;
    for i := 1 to n
      invariant Split(scratch[..], n, front, back, center, a[lo + 1..lo + i])
    {
      assert a[lo + 1..lo + i + 1] == a[lo + 1..lo + i] + [a[lo + i]];
      front, back := PlaceOne(scratch, n, front, back, center, a[lo + 1..lo + i], a[lo + i]);
    }
  }

  /** The second loop. */
  method CopyBack(a: array<int>, lo: nat, n: nat, scratch: array<int>)
    requires a != scratch && lo + n <= a.Length && n <= scratch.Length
    modifies a
    ensures a[lo..lo + n] == scratch[..n]
    ensures a[..lo] == old(a[..lo]) && a[lo + n..] == old(a[lo + n..])
  {
    for i := 0 to n
      invariant a[lo..lo + i] == scratch[..i]
      invariant a[..lo] == old(a[..lo]) && a[lo + n..] == old(a[lo + n..])
    {
      a[lo + i] := scratch[i];
      assert a[lo..lo + i + 1] == a[lo..lo + i] + [scratch[i]];
    }
  }

  lemma PartitionPermutes(scratch: seq<int>, n: nat, front: int, center: int, rest: seq<int>)
    requires Split(scratch, n, front, front, center, rest) && scratch[front] == center
    ensures Permutation(scratch[..n], [center] + rest)
    ensures scratch[..n] == scratch[..front] + [center] + scratch[front + 1..n]
  {
    assert scratch[..n] == scratch[..front] + [center] + scratch[front + 1..n];
  }

  /** Sorts the n elements from lo on. `failed` tells that bsg_fail would be called. */
  method Sort(a: array<int>, lo: nat, n: nat, scratch: array<int>) returns (failed: bool)
    requires a != scratch && n >= 1 && lo + n <= a.Length && n <= scratch.Length
    modifies a, scratch
    ensures !failed
    ensures Sorted(a[lo..lo + n]) && Permutation(a[lo..lo + n], old(a[lo..lo + n]))
    ensures a[..lo] == old(a[..lo]) && a[lo + n..] == old(a[lo + n..])
    decreases n, 2
  {
    if n == 1 {
      return false;
    }
    var center := a[lo];
    ghost var input := a[lo..lo + n];
    assert input == [center] + a[lo + 1..lo + n];
    var front, back := Partition(a, lo, n, scratch);
    if back == front {
      ghost var split := scratch[..];
      scratch[back] := center;
      SplitKept(split, scratch[..], n, front, center, a[lo + 1..lo + n]);
      PartitionPermutes(scratch[..], n, front, center, a[lo + 1..lo + n]);
      ghost var low, high := scratch[..front], scratch[front + 1..n];
      CopyBack(a, lo, n, scratch);
      failed := SortParts(a, lo, n, front, scratch, center, low, high);
      ghost var out := a[lo..lo + n];
      assert Permutation(out, input);
    } else {
      return true;
    }
  }

  lemma SplitKept(s: seq<int>, s': seq<int>, n: nat, front: int, center: int, rest: seq<int>)
    requires Split(s, n, front, front, center, rest) && s' == s[front := center]
    ensures Split(s', n, front, front, center, rest)
  {
    assert s'[..front] == s[..front] && s'[front + 1..n] == s[front + 1..n];
  }

  lemma CutAround(low: seq<int>, c: int, high: seq<int>)
    ensures var whole := low + [c] + high;
      && whole[..|low|] == low && whole[|low|] == c && whole[|low| + 1..] == high && whole[|low|..] == [c] + high
  {
  }

  /** A piece of a sequence, in three parts. */
  lemma Pieces(s: seq<int>, lo: nat, mid: nat, hi: nat)
    requires lo <= mid < hi <= |s|
    ensures s[lo..hi] == s[lo..mid] + [s[mid]] + s[mid + 1..hi]
  {
  }

  lemma SamePieces(s: seq<int>, low: seq<int>, c: int, high: seq<int>, lo: nat, mid: nat, hi: nat)
    requires lo <= mid < hi <= |s| && |low| == mid - lo && s[lo..hi] == low + [c] + high
    ensures s[lo..mid] == low && s[mid] == c && s[mid + 1..hi] == high
  {
    CutAround(low, c, high);
    assert s[lo..mid] == s[lo..hi][..mid - lo];
    assert s[mid] == s[lo..hi][mid - lo];
    assert s[mid + 1..hi] == s[lo..hi][mid - lo + 1..];
  }

  lemma SuffixKept(s: seq<int>, t: seq<int>, mid: nat, hi: nat)
    requires |s| == |t| && mid < hi <= |s| && s[mid..] == t[mid..]
    ensures s[mid] == t[mid] && s[mid + 1..hi] == t[mid + 1..hi] && s[hi..] == t[hi..]
  {
    assert s[mid] == s[mid..][0] && t[mid] == t[mid..][0];
    assert s[mid + 1..hi] == s[mid..][1..hi - mid] && t[mid + 1..hi] == t[mid..][1..hi - mid];
    assert s[hi..] == s[mid..][hi - mid..] && t[hi..] == t[mid..][hi - mid..];
  }

  lemma PrefixKept(s: seq<int>, t: seq<int>, lo: nat, mid: nat)
    requires |s| == |t| && lo <= mid < |s| && s[..mid + 1] == t[..mid + 1]
    ensures s[mid] == t[mid] && s[lo..mid] == t[lo..mid] && s[..lo] == t[..lo]
  {
    forall i | 0 <= i <= mid ensures s[i] == t[i] {
      assert s[i] == s[..mid + 1][i] && t[i] == t[..mid + 1][i];
    }
  }

  /** The array before, between and after the two recursive calls. */
  lemma PartsSorted(s0: seq<int>, s1: seq<int>, s2: seq<int>, lo: nat, mid: nat, hi: nat,
                    low: seq<int>, c: int, high: seq<int>)
    requires |s0| == |s1| == |s2| && lo <= mid < hi <= |s0|
    requires s0[lo..hi] == low + [c] + high && |low| == mid - lo && AllBelow(low, c) && AllFrom(high, c)
    requires Sorted(s1[lo..mid]) && Permutation(s1[lo..mid], s0[lo..mid])
    requires s1[..lo] == s0[..lo] && s1[mid..] == s0[mid..]
    requires Sorted(s2[mid + 1..hi]) && Permutation(s2[mid + 1..hi], s1[mid + 1..hi])
    requires s2[..mid + 1] == s1[..mid + 1] && s2[hi..] == s1[hi..]
    ensures Sorted(s2[lo..hi]) && Permutation(s2[lo..hi], low + [c] + high)
    ensures s2[..lo] == s0[..lo] && s2[hi..] == s0[hi..]
  {
    SamePieces(s0, low, c, high, lo, mid, hi);
    SuffixKept(s1, s0, mid, hi);
    PrefixKept(s2, s1, lo, mid);
    Pieces(s2, lo, mid, hi);
    BelowPermuted(low, s2[lo..mid], c);
    FromPermuted(high, s2[mid + 1..hi], c);
    SortedAround(s2[lo..mid], c, s2[mid + 1..hi]);
  }

  /** The first recursive call. */
  method SortLow(a: array<int>, lo: nat, n: nat, front: nat, scratch: array<int>) returns (failed: bool)
    requires a != scratch && front < n && lo + n <= a.Length && n <= scratch.Length
    modifies a, scratch
    ensures !failed
    ensures Sorted(a[lo..lo + front]) && Permutation(a[lo..lo + front], old(a[lo..lo + front]))
    ensures a[..lo] == old(a[..lo]) && a[lo + front..] == old(a[lo + front..])
    decreases n, 0
  {
    failed := false;
    if front != 0 {
      failed := Sort(a, lo, front, scratch);
    }
  }

  /** The second recursive call. */
  method SortHigh(a: array<int>, lo: nat, n: nat, front: nat, scratch: array<int>) returns (failed: bool)
    requires a != scratch && front < n && lo + n <= a.Length && n <= scratch.Length
    modifies a, scratch
    ensures !failed
    ensures Sorted(a[lo + front + 1..lo + n])
    ensures Permutation(a[lo + front + 1..lo + n], old(a[lo + front + 1..lo + n]))
    ensures a[..lo + front + 1] == old(a[..lo + front + 1]) && a[lo + n..] == old(a[lo + n..])
    decreases n, 0
  {
    failed := false;
    if front != n - 1 {
      failed := Sort(a, lo + front + 1, n - 1 - front, scratch);
    }
  }

  /** The two recursive calls. */
  method SortParts(a: array<int>, lo: nat, n: nat, front: nat, scratch: array<int>, ghost center: int,
                   ghost low: seq<int>, ghost high: seq<int>) returns (failed: bool)
    requires a != scratch && front < n && lo + n <= a.Length && n <= scratch.Length
    requires a[lo..lo + n] == low + [center] + high && |low| == front
    requires AllBelow(low, center) && AllFrom(high, center)
    modifies a, scratch
    ensures !failed
    ensures Sorted(a[lo..lo + n]) && Permutation(a[lo..lo + n], low + [center] + high)
    ensures a[..lo] == old(a[..lo]) && a[lo + n..] == old(a[lo + n..])
    decreases n, 1
  {
    ghost var s0 := a[..];
    failed := SortLow(a, lo, n, front, scratch);
    ghost var s1 := a[..];
    var failed2 := SortHigh(a, lo, n, front, scratch);
    failed := failed || failed2;
    PartsSorted(s0, s1, a[..], lo, lo + front, lo + n, low, center, high);
  }
}
