/** The in-place transform of spmd/fft: the reordering of the input by recursion through a global
    counter, one stage as a tile runs it, and the stages run by all tiles at once. */
module Fft {
  import opened Arithmetic
  import opened Bits
  import opened Ring
  import opened Dft

  /** lg: log2 of N; x: the input; root: exp(-2 pi i / N), or any element that behaves like it. */
  datatype Plan<!T> = Plan(ring: Ring<T>, root: T, lg: nat, x: nat -> T)

  /** The (N / 2)-th power of the root is minus one. */
  ghost predicate PlanOk<T(!new)>(c: Plan<T>) {
    IsRing(c.ring) && (c.lg >= 1 ==> Pow(c.ring, c.root, Pow2(c.lg - 1)) == c.ring.neg(c.ring.one))
  }

  function Size<T>(c: Plan<T>): (n: nat)
    ensures n >= 1
  {
    Pow2(c.lg)
  }

  // ---- the reordering ----

  class Swizzler {
    /** The global work_arr_idx. */
    var workArrIdx: nat

    constructor ()
      ensures workArrIdx == 0
    {
      workArrIdx := 0;
    }

    /** The leaves below (start, stride) are written to consecutive places in bit-reversed order. */
    method Swizzle<T>(start: nat, stride: nat, input: seq<int>, output: array<T>, embed: int -> T,
                      ghost lg: nat, ghost j: nat)
      requires |input| == output.Length == Pow2(lg)
      requires j <= lg && stride == Pow2(j) && start < stride
      requires workArrIdx + Pow2(lg - j) <= output.Length
      modifies this, output
      ensures workArrIdx == old(workArrIdx) + Pow2(lg - j)
      ensures forall p :: 0 <= p < output.Length ==>
        output[p] == if old(workArrIdx) <= p < old(workArrIdx) + Pow2(lg - j)
                     then embed(input[Leaf(lg, j, start, p - old(workArrIdx))]) else old(output[p])
      decreases lg - j
    {
      if j < lg {
        Pow2Grows(j, lg);
      }
      if output.Length > stride {
        ghost var half := Pow2(lg - j - 1);
        Swizzle(start, stride * 2, input, output, embed, lg, j + 1);
        Swizzle(start + stride, stride * 2, input, output, embed, lg, j + 1);
        forall t: nat | t < half ensures Leaf(lg, j, start, t) == Leaf(lg, j + 1, start, t) {
          LeafSplits(lg, j, start, t);
        }
        forall t: nat | half <= t < Pow2(lg - j)
          ensures Leaf(lg, j, start, t) == Leaf(lg, j + 1, start + stride, t - half)
        {
          LeafSplits(lg, j, start, t - half);
        }
      } else {
        LeafSingle(lg, start);
        output[workArrIdx] := embed(input[start]);
        workArrIdx := workArrIdx + 1;
      }
    }
  }

  /** The input index of the t-th leaf below start at stride 2^j. */
  function Leaf(lg: nat, j: nat, start: nat, t: nat): (i: nat)
    requires j <= lg && start < Pow2(j) && t < Pow2(lg - j)
    ensures i < Pow2(lg)
  {
    LeafBound(lg, j, start, Rev(lg - j, t), t);
    start + Pow2(j) * Rev(lg - j, t)
  }

  lemma LeafBound(lg: nat, j: nat, start: nat, q: nat, t: nat)
    requires j <= lg && start < Pow2(j) && q == Rev(lg - j, t)
    ensures start + Pow2(j) * q < Pow2(lg)
  {
    RevBound(lg - j, t);
    Pow2Adds(j, lg - j);
    Nested(Pow2(j), Pow2(lg - j), start, q);
  }

  lemma LeafSplits(lg: nat, j: nat, start: nat, t: nat)
    requires j < lg && start < Pow2(j) && t < Pow2(lg - j - 1)
    ensures Leaf(lg, j, start, t) == Leaf(lg, j + 1, start, t)
    ensures Leaf(lg, j, start, t + Pow2(lg - j - 1)) == Leaf(lg, j + 1, start + Pow2(j), t)
  {
    var k := lg - j - 1;
    RevTop(k, t);
    Twice(Pow2(j), Rev(k, t));
    assert lg - j == k + 1 && lg - (j + 1) == k;
  }

  lemma Twice(a: int, q: int)
    ensures a * (2 * q) == 2 * a * q && a * (2 * q + 1) == 2 * a * q + a
  {
  }

  lemma LeafSingle(lg: nat, start: nat)
    requires start < Pow2(lg)
    ensures Leaf(lg, lg, start, 0) == start
  {
    assert Rev(0, 0) == 0;
  }

  // ---- one stage ----

  /** Entry p of the work array before stage s: entry p % 2^s of the transform of the samples of
      block p / 2^s. */
  function Entry<T>(c: Plan<T>, s: nat, p: nat): T
    requires s <= c.lg
  {
    DivMod(p, Pow2(s));
    DftSum(c.ring, c.root, c.x, Rev(c.lg - s, p / Pow2(s)), Pow2(c.lg - s), p % Pow2(s), Pow2(s))
  }

  ghost predicate AtStage<T>(c: Plan<T>, s: nat, work: seq<T>) {
    s <= c.lg && |work| == Size(c) && forall p :: 0 <= p < |work| ==> work[p] == Entry(c, s, p)
  }

  /** The twiddle factor exp(-2 pi i k / n) of stage s, where n is 2^(s + 1). */
  function Twiddle<T>(c: Plan<T>, s: nat, k: nat): T
    requires s < c.lg
  {
    Pow(c.ring, c.root, Pow2(c.lg - s - 1) * k)
  }

  /** Place p is the first of the two places of its butterfly. */
  predicate IsEven(s: nat, p: nat) {
    p % Pow2(s + 1) < Pow2(s)
  }

  lemma PartnerInside(lg: nat, s: nat, p: nat)
    requires s < lg && p < Pow2(lg)
    ensures IsEven(s, p) ==> p + Pow2(s) < Pow2(lg)
    ensures !IsEven(s, p) ==> Pow2(s) <= p
  {
    Pow2Adds(s + 1, lg - s - 1);
    HalfFits(p, Pow2(s), 2 * Pow2(s), Pow2(lg - s - 1));
  }

  lemma HalfFits(p: nat, m: nat, n: nat, b: nat)
    requires p < n * b && m > 0 && n == 2 * m
    ensures p % n < m ==> p + m < n * b
    ensures p % n >= m ==> m <= p
  {
    QuotientBound(p, n, b);
    DivMod(p, n);
    if p % n < m {
      Nested(n, b, p % n + m, p / n);
    }
  }

  /** What stage s leaves in place p. */
  function StageValue<T>(c: Plan<T>, s: nat, work: seq<T>, p: nat): T
    requires s < c.lg && |work| == Size(c) && p < |work|
  {
    var r, m, k := c.ring, Pow2(s), p % Pow2(s + 1);
    PartnerInside(c.lg, s, p);
    if IsEven(s, p) then r.add(work[p], r.mul(Twiddle(c, s, k), work[p + m]))
    else Sub(r, work[p - m], r.mul(Twiddle(c, s, k - m), work[p]))
  }

  function Stage<T>(c: Plan<T>, s: nat, work: seq<T>): (w: seq<T>)
    requires s < c.lg && |work| == Size(c)
    ensures |w| == Size(c)
  {
    seq(Size(c), p requires 0 <= p < Size(c) => StageValue(c, s, work, p))
  }

  /** Where place p lies: in block h of length 2m, in its half e, k places in. */
  lemma Place(p: nat, m: nat, h: nat, e: nat, k: nat)
    requires p == h * (2 * m) + e * m + k && e < 2 && k < m
    ensures p / m == 2 * h + e && p % m == k
    ensures p / (2 * m) == h && p % (2 * m) == e * m + k
  {
    DivModIs(p, 2 * m, h, e * m + k);
    assert h * (2 * m) == (2 * h) * m;
    DivModIs(p, m, 2 * h + e, k);
  }

  /** The place k places into half e of block h. */
  function At(s: nat, h: nat, e: nat, k: nat): nat {
    h * (2 * Pow2(s)) + e * Pow2(s) + k
  }

  lemma PlaceOf(s: nat, p: nat) returns (h: nat, e: nat, k: nat)
    ensures e < 2 && k < Pow2(s) && p == At(s, h, e, k)
    ensures p % Pow2(s + 1) == e * Pow2(s) + k && (IsEven(s, p) <==> e == 0)
  {
    h, e, k := Halves(p, Pow2(s));
  }

  lemma Halves(p: nat, m: nat) returns (h: nat, e: nat, k: nat)
    requires m > 0
    ensures e < 2 && k < m && p == h * (2 * m) + e * m + k
    ensures p % (2 * m) == e * m + k && (p % (2 * m) < m <==> e == 0)
  {
    h := p / (2 * m);
    if p % (2 * m) < m {
      e, k := 0, p % (2 * m);
    } else {
      e, k := 1, p % (2 * m) - m;
    }
  }

  lemma EntryBefore<T>(c: Plan<T>, s: nat, h: nat, e: nat, k: nat)
    requires s < c.lg && e < 2 && k < Pow2(s)
    ensures Entry(c, s, At(s, h, e, k))
         == DftSum(c.ring, c.root, c.x, Rev(c.lg - s - 1, h) + (if e == 0 then 0 else Pow2(c.lg - s - 1)),
                 2 * Pow2(c.lg - s - 1), k, Pow2(s))
  {
    Place(At(s, h, e, k), Pow2(s), h, e, k);
    DivModIs(2 * h + e, 2, h, e);
    assert (2 * h + e) % 2 == e && (2 * h + e) / 2 == h;
    assert Rev(c.lg - s, 2 * h + e) == e * Pow2(c.lg - s - 1) + Rev(c.lg - s - 1, h);
  }

  lemma EntryAfter<T>(c: Plan<T>, s: nat, h: nat, e: nat, k: nat)
    requires s < c.lg && e < 2 && k < Pow2(s)
    ensures Entry(c, s + 1, At(s, h, e, k))
         == DftSum(c.ring, c.root, c.x, Rev(c.lg - s - 1, h), Pow2(c.lg - s - 1),
                 if e == 0 then k else k + Pow2(s), 2 * Pow2(s))
  {
    Place(At(s, h, e, k), Pow2(s), h, e, k);
    assert c.lg - (s + 1) == c.lg - s - 1;
  }

  lemma HalfTurnRoot<T(!new)>(c: Plan<T>, s: nat)
    requires PlanOk(c) && s < c.lg
    ensures Pow(c.ring, c.root, Pow2(c.lg - s - 1) * Pow2(s)) == c.ring.neg(c.ring.one)
  {
    Pow2Adds(c.lg - s - 1, s);
    assert c.lg - s - 1 + s == c.lg - 1;
  }

  /** The two places of a butterfly lie half a block apart. */
  lemma AtFacts<T>(c: Plan<T>, s: nat, h: nat, k: nat)
    requires s < c.lg && k < Pow2(s)
    ensures At(s, h, 1, k) == At(s, h, 0, k) + Pow2(s)
    ensures IsEven(s, At(s, h, 0, k)) && At(s, h, 0, k) % Pow2(s + 1) == k
    ensures !IsEven(s, At(s, h, 1, k)) && At(s, h, 1, k) % Pow2(s + 1) == Pow2(s) + k
  {
    Place(At(s, h, 0, k), Pow2(s), h, 0, k);
    Place(At(s, h, 1, k), Pow2(s), h, 1, k);
  }

  lemma EvenInside<T>(c: Plan<T>, s: nat, h: nat, k: nat)
    requires s < c.lg && k < Pow2(s) && At(s, h, 0, k) < Size(c)
    ensures At(s, h, 1, k) < Size(c)
  {
    AtFacts(c, s, h, k);
    PartnerInside(c.lg, s, At(s, h, 0, k));
  }

  lemma EvenValue<T>(c: Plan<T>, s: nat, work: seq<T>, p: nat, q: nat, k: nat)
    requires s < c.lg && |work| == Size(c) && p < Size(c) && q < Size(c)
    requires q == p + Pow2(s) && IsEven(s, p) && p % Pow2(s + 1) == k
    ensures StageValue(c, s, work, p) == c.ring.add(work[p], c.ring.mul(Twiddle(c, s, k), work[q]))
  {
  }

  lemma OddValue<T>(c: Plan<T>, s: nat, work: seq<T>, p: nat, q: nat, k: nat)
    requires s < c.lg && |work| == Size(c) && p < Size(c) && q < Size(c)
    requires q == p + Pow2(s) && !IsEven(s, q) && q % Pow2(s + 1) == Pow2(s) + k
    ensures StageValue(c, s, work, q) == Sub(c.ring, work[p], c.ring.mul(Twiddle(c, s, k), work[q]))
  {
  }

  /** Entry k of the transform of length n of the samples start, start + stride, ... */
  function Part<T>(c: Plan<T>, start: nat, stride: nat, k: nat, n: nat): T {
    DftSum(c.ring, c.root, c.x, start, stride, k, n)
  }

  lemma JoinEven<T(!new)>(c: Plan<T>, s: nat, start: nat, k: nat, even: T, odd: T)
    requires PlanOk(c) && s < c.lg
    requires even == Part(c, start, 2 * Pow2(c.lg - s - 1), k, Pow2(s))
    requires odd == Part(c, start + Pow2(c.lg - s - 1), 2 * Pow2(c.lg - s - 1), k, Pow2(s))
    ensures c.ring.add(even, c.ring.mul(Twiddle(c, s, k), odd)) == Part(c, start, Pow2(c.lg - s - 1), k, 2 * Pow2(s))
  {
    Interleave(c.ring, c.root, c.x, start, Pow2(c.lg - s - 1), k, Pow2(s));
  }

  lemma JoinOdd<T(!new)>(c: Plan<T>, s: nat, start: nat, k: nat, even: T, odd: T)
    requires PlanOk(c) && s < c.lg
    requires even == Part(c, start, 2 * Pow2(c.lg - s - 1), k, Pow2(s))
    requires odd == Part(c, start + Pow2(c.lg - s - 1), 2 * Pow2(c.lg - s - 1), k, Pow2(s))
    ensures Sub(c.ring, even, c.ring.mul(Twiddle(c, s, k), odd))
         == Part(c, start, Pow2(c.lg - s - 1), k + Pow2(s), 2 * Pow2(s))
  {
    HalfTurnRoot(c, s);
    ButterflyHigh(c.ring, c.root, c.x, start, Pow2(c.lg - s - 1), k, Pow2(s));
  }

  lemma WorkAt<T>(c: Plan<T>, s: nat, work: seq<T>, h: nat, e: nat, k: nat)
    requires s < c.lg && AtStage(c, s, work) && e < 2 && k < Pow2(s) && At(s, h, e, k) < Size(c)
    ensures work[At(s, h, e, k)]
         == Part(c, Rev(c.lg - s - 1, h) + (if e == 0 then 0 else Pow2(c.lg - s - 1)),
                 2 * Pow2(c.lg - s - 1), k, Pow2(s))
  {
    EntryBefore(c, s, h, e, k);
  }

  lemma ButterflyAt<T(!new)>(c: Plan<T>, s: nat, work: seq<T>, h: nat, k: nat, p: nat, q: nat)
    requires PlanOk(c) && s < c.lg && AtStage(c, s, work) && k < Pow2(s)
    requires p == At(s, h, 0, k) && q == At(s, h, 1, k) && q < Size(c) && p < q
    ensures c.ring.add(work[p], c.ring.mul(Twiddle(c, s, k), work[q]))
         == Part(c, Rev(c.lg - s - 1, h), Pow2(c.lg - s - 1), k, 2 * Pow2(s))
    ensures Sub(c.ring, work[p], c.ring.mul(Twiddle(c, s, k), work[q]))
         == Part(c, Rev(c.lg - s - 1, h), Pow2(c.lg - s - 1), k + Pow2(s), 2 * Pow2(s))
  {
    WorkAt(c, s, work, h, 0, k);
    WorkAt(c, s, work, h, 1, k);
    JoinEven(c, s, Rev(c.lg - s - 1, h), k, work[p], work[q]);
    JoinOdd(c, s, Rev(c.lg - s - 1, h), k, work[p], work[q]);
  }

  lemma FirstPlace<T(!new)>(c: Plan<T>, s: nat, work: seq<T>, h: nat, k: nat)
    requires PlanOk(c) && s < c.lg && AtStage(c, s, work) && k < Pow2(s) && At(s, h, 1, k) < Size(c)
    ensures At(s, h, 0, k) < Size(c)
    ensures StageValue(c, s, work, At(s, h, 0, k)) == Part(c, Rev(c.lg - s - 1, h), Pow2(c.lg - s - 1), k, 2 * Pow2(s))
  {
    AtFacts(c, s, h, k);
    ButterflyAt(c, s, work, h, k, At(s, h, 0, k), At(s, h, 1, k));
    EvenValue(c, s, work, At(s, h, 0, k), At(s, h, 1, k), k);
  }

  lemma SecondPlace<T(!new)>(c: Plan<T>, s: nat, work: seq<T>, h: nat, k: nat)
    requires PlanOk(c) && s < c.lg && AtStage(c, s, work) && k < Pow2(s) && At(s, h, 1, k) < Size(c)
    ensures StageValue(c, s, work, At(s, h, 1, k))
         == Part(c, Rev(c.lg - s - 1, h), Pow2(c.lg - s - 1), k + Pow2(s), 2 * Pow2(s))
  {
    AtFacts(c, s, h, k);
    ButterflyAt(c, s, work, h, k, At(s, h, 0, k), At(s, h, 1, k));
    OddValue(c, s, work, At(s, h, 0, k), At(s, h, 1, k), k);
  }

  lemma StageAt<T(!new)>(c: Plan<T>, s: nat, work: seq<T>, p: nat)
    requires PlanOk(c) && s < c.lg && AtStage(c, s, work) && p < Size(c)
    ensures StageValue(c, s, work, p) == Entry(c, s + 1, p)
  {
    var h, e, k := PlaceOf(s, p);
    if e == 0 {
      EvenInside(c, s, h, k);
      FirstPlace(c, s, work, h, k);
    } else {
      SecondPlace(c, s, work, h, k);
    }
    EntryAfter(c, s, h, e, k);
  }

  /** A stage turns transforms of length 2^s into transforms of length 2^(s + 1). */
  lemma StageAdvances<T(!new)>(c: Plan<T>, s: nat, work: seq<T>)
    requires PlanOk(c) && s < c.lg && AtStage(c, s, work)
    ensures AtStage(c, s + 1, Stage(c, s, work))
  {
    forall p | 0 <= p < Size(c) ensures Stage(c, s, work)[p] == Entry(c, s + 1, p) {
      StageAt(c, s, work, p);
    }
  }

  /** The reordered input is where the first stage starts. */
  lemma SwizzledIsStage0<T(!new)>(c: Plan<T>, work: seq<T>)
    requires PlanOk(c) && |work| == Size(c)
    requires forall p :: 0 <= p < |work| ==> work[p] == c.x(Rev(c.lg, p))
    ensures AtStage(c, 0, work)
  {
    forall p | 0 <= p < |work| ensures work[p] == Entry(c, 0, p) {
      var start := Rev(c.lg, p);
      var v := c.x(start);
      assert p / Pow2(0) == p && p % Pow2(0) == 0;
      assert Pow2(c.lg) * 0 * 0 == 0 && start + Pow2(c.lg) * 0 == start;
      assert MulComm(c.ring, v, c.ring.one) && MulOne(c.ring, v);
      assert AddZero(c.ring, v);
      assert DftSum(c.ring, c.root, c.x, start, Pow2(c.lg), 0, 0) == c.ring.zero;
    }
  }

  /** After the last stage place p holds entry p of the transform of the whole input. */
  lemma LastStageIsTransform<T>(c: Plan<T>, work: seq<T>, p: nat)
    requires AtStage(c, c.lg, work) && p < Size(c)
    ensures work[p] == DftSum(c.ring, c.root, c.x, 0, 1, p, Size(c))
  {
    DivModIs(p, Pow2(c.lg), 0, p);
    assert Rev(0, 0) == 0;
  }

  // ---- a stage as one tile runs it ----

  /** The number of the butterfly that touches place p. */
  function Owner(s: nat, p: nat): nat {
    MulBound(p / Pow2(s + 1), Pow2(s));
    (p / Pow2(s + 1)) * Pow2(s) + p % Pow2(s)
  }

  lemma OwnerAt(s: nat, h: nat, e: nat, k: nat)
    requires e < 2 && k < Pow2(s)
    ensures Owner(s, At(s, h, e, k)) == h * Pow2(s) + k
    ensures At(s, h, e, k) % Pow2(s + 1) == e * Pow2(s) + k
  {
    Place(At(s, h, e, k), Pow2(s), h, e, k);
  }

  /** Butterfly h * 2^s + k touches exactly its two places: every place belongs to one butterfly. */
  lemma OwnerIsUnique(s: nat, p: nat, h: nat, k: nat)
    requires k < Pow2(s)
    ensures Owner(s, p) == h * Pow2(s) + k <==> p == At(s, h, 0, k) || p == At(s, h, 1, k)
  {
    OwnerAt(s, h, 0, k);
    OwnerAt(s, h, 1, k);
    var h', e, k' := PlaceOf(s, p);
    OwnerAt(s, h', e, k');
    if Owner(s, p) == h * Pow2(s) + k {
      DivModIs(Owner(s, p), Pow2(s), h, k);
      DivModIs(Owner(s, p), Pow2(s), h', k');
    }
  }

  /** The factor exp(-2 pi i k / n): the root taken k * N / n times. */
  function ExpVal<T>(c: Plan<T>, k: nat, n: nat): T
    requires n > 0
  {
    Pow(c.ring, c.root, (Size(c) / n) * k)
  }

  lemma ExpValIsTwiddle<T>(c: Plan<T>, s: nat, k: nat)
    requires s < c.lg
    ensures ExpVal(c, k, Pow2(s + 1)) == Twiddle(c, s, k)
  {
    Pow2Adds(c.lg - s - 1, s + 1);
    DivModIs(Size(c), Pow2(s + 1), Pow2(c.lg - s - 1), 0);
  }

  /** Place p after the butterflies below b of tile id, among `tiles`, are done. */
  function TileValue<T>(c: Plan<T>, s: nat, work: seq<T>, id: nat, tiles: nat, b: nat, p: nat): T
    requires s < c.lg && |work| == Size(c) && p < |work| && tiles > 0
  {
    if Owner(s, p) < b && Owner(s, p) % tiles == id then StageValue(c, s, work, p) else work[p]
  }

  ghost predicate TileDone<T>(c: Plan<T>, s: nat, work: seq<T>, id: nat, tiles: nat, b: nat, now: seq<T>)
    requires s < c.lg && |work| == Size(c) && tiles > 0
  {
    |now| == |work| && forall p :: 0 <= p < |work| ==> now[p] == TileValue(c, s, work, id, tiles, b, p)
  }

  lemma TileSkips<T>(c: Plan<T>, s: nat, work: seq<T>, id: nat, tiles: nat, b: nat, now: seq<T>)
    requires s < c.lg && |work| == Size(c) && tiles > 0
    requires TileDone(c, s, work, id, tiles, b, now) && b % tiles != id
    ensures TileDone(c, s, work, id, tiles, b + 1, now)
  {
  }

  /** Storing the two results of a butterfly of the tile. */
  lemma TileDoes<T>(c: Plan<T>, s: nat, work: seq<T>, id: nat, tiles: nat, h: nat, k: nat, now: seq<T>, b: nat)
    requires s < c.lg && |work| == Size(c) && tiles > 0 && k < Pow2(s) && b == h * Pow2(s) + k
    requires TileDone(c, s, work, id, tiles, b, now) && b % tiles == id
    requires At(s, h, 1, k) < Size(c) && At(s, h, 0, k) < Size(c)
    ensures now[At(s, h, 0, k)] == work[At(s, h, 0, k)] && now[At(s, h, 1, k)] == work[At(s, h, 1, k)]
    ensures
      var t := c.ring.mul(Twiddle(c, s, k), work[At(s, h, 1, k)]);
      TileDone(c, s, work, id, tiles, b + 1,
               now[At(s, h, 1, k) := Sub(c.ring, work[At(s, h, 0, k)], t)]
                  [At(s, h, 0, k) := c.ring.add(work[At(s, h, 0, k)], t)])
  {
    var e, o := At(s, h, 0, k), At(s, h, 1, k);
    OwnerAt(s, h, 0, k);
    OwnerAt(s, h, 1, k);
    AtFacts(c, s, h, k);
    EvenValue(c, s, work, e, o, k);
    OddValue(c, s, work, e, o, k);
    var t := c.ring.mul(Twiddle(c, s, k), work[o]);
    var now' := now[o := Sub(c.ring, work[e], t)][e := c.ring.add(work[e], t)];
    forall p | 0 <= p < |work| ensures now'[p] == TileValue(c, s, work, id, tiles, b + 1, p) {
      OwnerIsUnique(s, p, h, k);
      assert now[p] == TileValue(c, s, work, id, tiles, b, p);
    }
  }

  lemma OwnerBound(s: nat, p: nat, h: nat)
    requires p < Pow2(s + 1) * h
    ensures Owner(s, p) < h * Pow2(s)
  {
    QuotientBound(p, Pow2(s + 1), h);
    Nested(Pow2(s), h, p % Pow2(s), p / Pow2(s + 1));
  }

  /** The loads, the twiddle and the two stores of one butterfly. */
  method Butterfly<T>(X: array<T>, c: Plan<T>, expVal: T, evenIdx: nat, oddIdx: nat)
    requires evenIdx < oddIdx < X.Length
    modifies X
    ensures
      var even, t := old(X[evenIdx]), c.ring.mul(expVal, old(X[oddIdx]));
      X[..] == old(X[..])[oddIdx := Sub(c.ring, even, t)][evenIdx := c.ring.add(even, t)]
  {
    var oddVal := X[oddIdx];
    var evenVal := X[evenIdx];
    var tVal := c.ring.mul(expVal, oddVal);
    X[oddIdx] := Sub(c.ring, evenVal, tVal);
    X[evenIdx] := c.ring.add(evenVal, tVal);
  }

  /** A block of the stage starts at i, when i / 2 pairs are done. */
  ghost predicate Aligned(s: nat, i: nat) {
    i % Pow2(s + 1) == 0
  }

  lemma NextAligned(s: nat, i: nat)
    requires Aligned(s, i)
    ensures Aligned(s, i + Pow2(s + 1))
  {
    DivModIs(i + Pow2(s + 1), Pow2(s + 1), i / Pow2(s + 1) + 1, 0);
  }

  lemma MultipleInside(i: nat, n: nat, g: nat)
    requires n > 0 && i % n == 0 && i < n * g
    ensures i + n <= n * g
  {
    QuotientBound(i, n, g);
    MulBound(g - i / n - 1, n);
    assert n * g == (g - i / n - 1) * n + i / n * n + n;
  }

  lemma BlockInside<T>(c: Plan<T>, s: nat, i: nat)
    requires s < c.lg && Aligned(s, i) && i < Size(c)
    ensures i + Pow2(s + 1) <= Size(c)
  {
    Pow2Adds(s + 1, c.lg - s - 1);
    MultipleInside(i, Pow2(s + 1), Pow2(c.lg - s - 1));
  }

  lemma PairAt(s: nat, i: nat, k: nat) returns (h: nat)
    requires Aligned(s, i)
    ensures At(s, h, 0, k) == i + k && At(s, h, 1, k) == i + k + Pow2(s) && h * Pow2(s) == i / 2
  {
    h := i / Pow2(s + 1);
    assert i == h * (2 * Pow2(s)) == 2 * (h * Pow2(s));
  }

  /** Pair k of the block that starts at i, after b pairs. */
  lemma PairDone<T>(c: Plan<T>, s: nat, work: seq<T>, id: nat, tiles: nat, i: nat, b: nat, k: nat, now: seq<T>)
    requires s < c.lg && |work| == Size(c) && tiles > 0 && k < Pow2(s) && i + Pow2(s + 1) <= Size(c)
    requires Aligned(s, i) && i == 2 * b
    requires TileDone(c, s, work, id, tiles, b + k, now) && (b + k) % tiles == id
    ensures
      var even, t := now[i + k], c.ring.mul(ExpVal(c, k, Pow2(s + 1)), now[i + k + Pow2(s)]);
      TileDone(c, s, work, id, tiles, b + k + 1,
               now[i + k + Pow2(s) := Sub(c.ring, even, t)][i + k := c.ring.add(even, t)])
  {
    var h := PairAt(s, i, k);
    TileDoes(c, s, work, id, tiles, h, k, now, b + k);
    ExpValIsTwiddle(c, s, k);
  }

  lemma NextWorkId(workId: nat, b: nat, tiles: nat)
    requires tiles > 0 && workId == b % tiles
    ensures (workId + 1) % tiles == (b + 1) % tiles
  {
    ModAdd(b, 1, tiles);
  }

  /** The loop over k for the block that starts at i, after b pairs. */
  method FftBlock<T>(X: array<T>, c: Plan<T>, n: nat, ghost s: nat, i: nat, id: nat, tiles: nat,
                     workId: nat, ghost work: seq<T>, ghost b: nat) returns (workId': nat)
    requires s < c.lg && n == Pow2(s + 1) && X.Length == Size(c) == |work| && id < tiles
    requires Aligned(s, i) && i + n <= X.Length && i == 2 * b && workId == b % tiles
    requires TileDone(c, s, work, id, tiles, b, X[..])
    modifies X
    ensures workId' == (b + n / 2) % tiles && TileDone(c, s, work, id, tiles, b + n / 2, X[..])
  {
    workId' := workId;
    var k := 0;
    while k < n / 2
      invariant 0 <= k <= n / 2 && workId' == (b + k) % tiles
      invariant TileDone(c, s, work, id, tiles, b + k, X[..])
    {
      NextWorkId(workId', b + k, tiles);
      if workId' != id {
        TileSkips(c, s, work, id, tiles, b + k, X[..]);
        workId' := (workId' + 1) % tiles;
        k := k + 1;
        continue;
      }
      var evenIdx := i + k;
      var oddIdx := evenIdx + n / 2;
      PairDone(c, s, work, id, tiles, i, b, k, X[..]);
      Butterfly(X, c, ExpVal(c, k, n), evenIdx, oddIdx);
      workId' := (workId' + 1) % tiles;
      k := k + 1;
    }
  }

  /** One round of the loop over n, as tile id runs it. It does every tiles-th butterfly, and with
      them exactly its own places. */
  method FftStage<T>(X: array<T>, c: Plan<T>, n: nat, ghost s: nat, id: nat, tiles: nat)
    requires s < c.lg && n == Pow2(s + 1) && X.Length == Size(c) && id < tiles
    modifies X
    ensures forall p :: 0 <= p < X.Length ==>
      X[p] == if Owner(s, p) % tiles == id then StageValue(c, s, old(X[..]), p) else old(X[p])
  {
    ghost var work, b := X[..], 0;
    var workId := 0;
    var i := 0;
    while i < X.Length
      invariant Aligned(s, i) && i == 2 * b && workId == b % tiles
      invariant TileDone(c, s, work, id, tiles, b, X[..])
      decreases X.Length - i
    {
      BlockInside(c, s, i);
      NextAligned(s, i);
      workId := FftBlock(X, c, n, s, i, id, tiles, workId, work, b);
      i := i + n;
      b := b + n / 2;
    }
    AllDone(c, s, work, id, tiles, i, X[..]);
  }

  lemma OwnerBelow(s: nat, p: nat, i: nat)
    requires Aligned(s, i) && p < i
    ensures Owner(s, p) < i / 2
  {
    var h := PairAt(s, i, 0);
    OwnerBound(s, p, h);
  }

  lemma AllDone<T>(c: Plan<T>, s: nat, work: seq<T>, id: nat, tiles: nat, i: nat, now: seq<T>)
    requires s < c.lg && |work| == Size(c) && tiles > 0 && Size(c) <= i && Aligned(s, i)
    requires TileDone(c, s, work, id, tiles, i / 2, now)
    ensures forall p :: 0 <= p < |work| ==>
      now[p] == if Owner(s, p) % tiles == id then StageValue(c, s, work, p) else work[p]
  {
    forall p | 0 <= p < |work|
      ensures now[p] == if Owner(s, p) % tiles == id then StageValue(c, s, work, p) else work[p]
    {
      OwnerBelow(s, p, i);
      assert now[p] == TileValue(c, s, work, id, tiles, i / 2, p);
    }
  }

  // ---- the whole transform, on one tile ----

  lemma OneTileStage<T(!new)>(c: Plan<T>, s: nat, work: seq<T>, now: seq<T>)
    requires PlanOk(c) && s < c.lg && AtStage(c, s, work) && |now| == |work|
    requires forall p :: 0 <= p < |now| ==>
      now[p] == if Owner(s, p) % 1 == 0 then StageValue(c, s, work, p) else work[p]
    ensures AtStage(c, s + 1, now)
  {
    forall p | 0 <= p < |now| ensures now[p] == Entry(c, s + 1, p) {
      StageAt(c, s, work, p);
    }
  }

  method TransformInPlace<T(!new)>(X: array<T>, c: Plan<T>)
    requires PlanOk(c) && AtStage(c, 0, X[..])
    modifies X
    ensures AtStage(c, c.lg, X[..])
  {
    var n := 2;
    ghost var s := 0;
    while n <= X.Length
      invariant s <= c.lg && n == Pow2(s + 1) && AtStage(c, s, X[..])
      decreases c.lg - s
    {
      if s == c.lg {
        assert false;
      }
      ghost var work := X[..];
      FftStage(X, c, n, s, 0, 1);
      OneTileStage(c, s, work, X[..]);
      n := n * 2;
      s := s + 1;
    }
    if s < c.lg {
      Pow2Grows(s, c.lg);
    }
  }

  /** Reordering and stages together give the discrete Fourier transform of the input. */
  method Kernel<T(!new)>(input: seq<int>, c: Plan<T>, embed: int -> T, X: array<T>)
    requires PlanOk(c) && |input| == X.Length == Size(c)
    requires forall i :: 0 <= i < |input| ==> c.x(i) == embed(input[i])
    modifies X
    ensures forall p :: 0 <= p < X.Length ==> X[p] == DftSum(c.ring, c.root, c.x, 0, 1, p, X.Length)
  {
    var swizzler := new Swizzler();
    swizzler.Swizzle(0, 1, input, X, embed, c.lg, 0);
    forall p | 0 <= p < X.Length ensures X[..][p] == c.x(Rev(c.lg, p)) {
      assert Leaf(c.lg, 0, 0, p) == Rev(c.lg, p);
    }
    SwizzledIsStage0(c, X[..]);
    TransformInPlace(X, c);
    forall p | 0 <= p < X.Length ensures X[p] == DftSum(c.ring, c.root, c.x, 0, 1, p, X.Length) {
      LastStageIsTransform(c, X[..], p);
    }
  }
}
