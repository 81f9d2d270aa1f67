/** Matrix multiplies of the profiler kernels: the naive one, and two on a transposed B, without
    index multiplications and unrolled F ways. Addition and multiplication are left open: all three
    add the same products in the same order. */
module MatMul {
  import opened Arithmetic

  datatype Ops<!T> = Ops(zero: T, add: (T, T) -> T, mul: (T, T) -> T)

  /** Element i, or zero outside the matrix. */
  function Get<T>(ops: Ops<T>, s: seq<T>, i: int): T {
    if 0 <= i < |s| then s[i] else ops.zero
  }

  /** zero + a[aoff] * b[boff] + a[aoff + 1] * b[boff + stride] + ..., n products, added from the left. */
  function Dot<T>(ops: Ops<T>, a: seq<T>, aoff: int, b: seq<T>, boff: int, stride: int, n: nat): T {
    if n == 0 then ops.zero
    else ops.add(Dot(ops, a, aoff, b, boff, stride, n - 1),
                 ops.mul(Get(ops, a, aoff + n - 1), Get(ops, b, boff + (n - 1) * stride)))
  }

  /** A is h x w, B is w x v, both in rows. */
  datatype Dims = Dims(h: nat, w: nat, v: nat)

  predicate Sizes<T>(d: Dims, a: seq<T>, b: seq<T>, c: int) {
    |a| == d.h * d.w && |b| == d.w * d.v && c == d.h * d.v
  }

  /** Entry (y, x) of the product. */
  function Entry<T>(ops: Ops<T>, d: Dims, a: seq<T>, b: seq<T>, y: int, x: int): T {
    Dot(ops, a, y * d.w, b, x, d.v, d.w)
  }

  /** The first n entries of C, in rows, are those of the product. */
  ghost predicate Filled<T>(ops: Ops<T>, d: Dims, a: seq<T>, b: seq<T>, c: seq<T>, y: int, x: int) {
    && |c| == d.h * d.v
    && forall i, j :: 0 <= i < d.h && 0 <= j < d.v && (i < y || (i == y && j < x)) ==>
         Get(ops, c, Cell(d, i, j)) == Entry(ops, d, a, b, i, j)
  }

  function Cell(d: Dims, y: int, x: int): int {
    y * d.v + x
  }

  ghost predicate Product<T>(ops: Ops<T>, d: Dims, a: seq<T>, b: seq<T>, c: seq<T>) {
    Filled(ops, d, a, b, c, d.h, 0)
  }

  /** Row i, column j of C is word i * v + j, and holds the sum of w products. */
  lemma ProductAt<T>(ops: Ops<T>, d: Dims, a: seq<T>, b: seq<T>, c: seq<T>, i: nat, j: nat)
    requires Product(ops, d, a, b, c) && i < d.h && j < d.v
    ensures 0 <= i * d.v + j < |c| && c[i * d.v + j] == Dot(ops, a, i * d.w, b, j, d.v, d.w)
  {
    InRows(i, j, d.h, d.v);
    assert Get(ops, c, Cell(d, i, j)) == Entry(ops, d, a, b, i, j);
  }

  ghost predicate Transposed<T>(d: Dims, b: seq<T>, bt: seq<T>) {
    && |b| == d.w * d.v && |bt| == d.v * d.w
    && forall x, k :: 0 <= x < d.v && 0 <= k < d.w ==>
         0 <= RowCell(d, x, k) < |bt| && 0 <= Cell(d, k, x) < |b| && bt[RowCell(d, x, k)] == b[Cell(d, k, x)]
  }

  /** Where element (x, k) of the transposed B is. */
  function RowCell(d: Dims, x: int, k: int): int {
    x * d.w + k
  }

  lemma InRows(y: int, x: int, h: nat, v: nat)
    requires 0 <= y < h && 0 <= x < v
    ensures 0 <= y * v + x < h * v
  {
    MulBound(y, v);
    MulBound(h - 1 - y, v);
    assert h * v == (h - 1 - y) * v + y * v + v;
  }

  lemma CellsDiffer(d: Dims, y: int, x: int, i: int, j: int)
    requires 0 <= x < d.v && 0 <= j < d.v && Cell(d, y, x) == Cell(d, i, j)
    ensures y == i && x == j
  {
    DivModIs(Cell(d, y, x), d.v, y, x);
    DivModIs(Cell(d, y, x), d.v, i, j);
  }

  /** Along a row of the transposed B the products are the same. */
  lemma {:induction false} TransposedDot<T>(ops: Ops<T>, d: Dims, a: seq<T>, b: seq<T>, bt: seq<T>,
                                            aoff: int, x: int, n: nat)
    requires Transposed(d, b, bt) && 0 <= x < d.v && n <= d.w
    ensures Dot(ops, a, aoff, bt, x * d.w, 1, n) == Dot(ops, a, aoff, b, x, d.v, n)
  {
    if n > 0 {
      TransposedDot(ops, d, a, b, bt, aoff, x, n - 1);
      assert bt[RowCell(d, x, n - 1)] == b[Cell(d, n - 1, x)];
    }
  }

  /** Storing entry (y, x) fills one more cell. */
  lemma FillsOne<T>(ops: Ops<T>, d: Dims, a: seq<T>, b: seq<T>, c: seq<T>, y: int, x: int, sum: T)
    requires Filled(ops, d, a, b, c, y, x) && 0 <= y < d.h && 0 <= x < d.v && sum == Entry(ops, d, a, b, y, x)
    ensures 0 <= Cell(d, y, x) < |c| && Filled(ops, d, a, b, c[Cell(d, y, x) := sum], y, x + 1)
  {
    InRows(y, x, d.h, d.v);
    var c' := c[Cell(d, y, x) := sum];
    forall i, j | 0 <= i < d.h && 0 <= j < d.v && (i < y || (i == y && j < x + 1))
      ensures Get(ops, c', Cell(d, i, j)) == Entry(ops, d, a, b, i, j)
    {
      if Cell(d, i, j) == Cell(d, y, x) {
        CellsDiffer(d, y, x, i, j);
      }
    }
  }

  lemma RowDone<T>(ops: Ops<T>, d: Dims, a: seq<T>, b: seq<T>, c: seq<T>, y: int)
    requires Filled(ops, d, a, b, c, y, d.v)
    ensures Filled(ops, d, a, b, c, y + 1, 0)
  {
  }

  /** C[y * v + x] = sum. */
  method Store<T>(ops: Ops<T>, d: Dims, ghost A: seq<T>, ghost B: seq<T>, C: array<T>, ghost y: int, ghost x: int,
                  coff: int, sum: T)
    requires Filled(ops, d, A, B, C[..], y, x) && 0 <= y < d.h && 0 <= x < d.v
    requires sum == Entry(ops, d, A, B, y, x) && coff == Cell(d, y, x)
    modifies C
    ensures Filled(ops, d, A, B, C[..], y, x + 1)
  {
    FillsOne(ops, d, A, B, C[..], y, x, sum);
    ghost var c := C[..];
    C[coff] := sum;
    assert C[..] == c[Cell(d, y, x) := sum];
  }

  method NaiveEntry<T>(ops: Ops<T>, d: Dims, A: seq<T>, B: seq<T>, y: int, x: int) returns (sum: T)
    requires |A| == d.h * d.w && |B| == d.w * d.v && 0 <= y < d.h && 0 <= x < d.v
    ensures sum == Entry(ops, d, A, B, y, x)
  {
    sum := ops.zero;
    for k := 0 to d.w
      invariant sum == Dot(ops, A, y * d.w, B, x, d.v, k)
    {
      InRows(y, k, d.h, d.w);
      InRows(k, x, d.w, d.v);
      sum := ops.add(sum, ops.mul(A[y * d.w + k], B[k * d.v + x]));
    }
  }

  method Naive<T>(ops: Ops<T>, d: Dims, A: seq<T>, B: seq<T>, C: array<T>)
    requires Sizes(d, A, B, C.Length)
    modifies C
    ensures Product(ops, d, A, B, C[..])
  {
    for y := 0 to d.h
      invariant Filled(ops, d, A, B, C[..], y, 0)
    {
      for x := 0 to d.v
        invariant Filled(ops, d, A, B, C[..], y, x)
      {
        var sum := NaiveEntry(ops, d, A, B, y, x);
        Store(ops, d, A, B, C, y, x, y * d.v + x, sum);
      }
      RowDone(ops, d, A, B, C[..], y);
    }
  }

  /** The row of A at ayoff times the row of BT at boff. */
  method RowTimesRow<T>(ops: Ops<T>, w: nat, A: seq<T>, BT: seq<T>, ayoff: int, boff: int) returns (sum: T, boff': int)
    requires 0 <= ayoff && ayoff + w <= |A| && 0 <= boff && boff + w <= |BT|
    ensures sum == Dot(ops, A, ayoff, BT, boff, 1, w) && boff' == boff + w
  {
    sum := ops.zero;
    var aoff := ayoff;
    boff' := boff;
    while aoff < ayoff + w
      invariant ayoff <= aoff <= ayoff + w && boff' == boff + (aoff - ayoff)
      invariant sum == Dot(ops, A, ayoff, BT, boff, 1, aoff - ayoff)
    {
      sum := ops.add(sum, ops.mul(A[aoff], BT[boff']));
      aoff := aoff + 1;
      boff' := boff' + 1;
    }
  }

  lemma RowInside(d: Dims, y: int, h: nat)
    requires 0 <= y < h
    ensures 0 <= y * d.w && y * d.w + d.w <= h * d.w
  {
    MulBound(y, d.w);
    MulBound(h - 1 - y, d.w);
    assert h * d.w == (h - 1 - y) * d.w + y * d.w + d.w;
  }

  method NoMul<T>(ops: Ops<T>, d: Dims, A: seq<T>, ghost B: seq<T>, BT: seq<T>, C: array<T>)
    requires Sizes(d, A, B, C.Length) && Transposed(d, B, BT)
    modifies C
    ensures Product(ops, d, A, B, C[..])
  {
    var ayoff, coff := 0, 0;
    for y := 0 to d.h
      invariant ayoff == y * d.w && coff == y * d.v
      invariant Filled(ops, d, A, B, C[..], y, 0)
    {
      var boff := 0;
      RowInside(d, y, d.h);
      for x := 0 to d.v
        invariant boff == x * d.w && coff == y * d.v + x
        invariant Filled(ops, d, A, B, C[..], y, x)
      {
        RowInside(d, x, d.v);
        assert d.v * d.w == d.w * d.v;
        var sum;
        sum, boff := RowTimesRow(ops, d.w, A, BT, ayoff, boff);
        TransposedDot(ops, d, A, B, BT, ayoff, x, d.w);
        Store(ops, d, A, B, C, y, x, coff, sum);
        coff := coff + 1;
      }
      RowDone(ops, d, A, B, C[..], y);
      ayoff := ayoff + d.w;
    }
  }

  /** F row products at once: sum[f] is the row of A at ayoff times the f-th row of BT from boff on. */
  method RowTimesRows<T>(ops: Ops<T>, w: nat, A: seq<T>, BT: seq<T>, ayoff: int, boff: int, F: nat)
      returns (sum: array<T>, boff': int)
    requires 0 <= ayoff && ayoff + w <= |A| && 0 <= boff && boff + F * w <= |BT|
    ensures fresh(sum) && sum.Length == F && boff' == boff + w
    ensures forall f :: 0 <= f < F ==> sum[f] == Dot(ops, A, ayoff, BT, boff + f * w, 1, w)
  {
    sum := new T[F](_ => ops.zero);
    var aoff := ayoff;
    boff' := boff;
    while aoff < ayoff + w
      invariant ayoff <= aoff <= ayoff + w && boff' == boff + (aoff - ayoff)
      invariant forall f :: 0 <= f < F ==> sum[f] == Dot(ops, A, ayoff, BT, boff + f * w, 1, aoff - ayoff)
    {
      var bofff := boff';
      for f := 0 to F
        invariant bofff == boff' + f * w
        invariant forall g :: f <= g < F ==> sum[g] == Dot(ops, A, ayoff, BT, boff + g * w, 1, aoff - ayoff)
        invariant forall g :: 0 <= g < f ==> sum[g] == Dot(ops, A, ayoff, BT, boff + g * w, 1, aoff - ayoff + 1)
      {
        RowInside(Dims(0, w, 0), f, F);
        sum[f] := ops.add(sum[f], ops.mul(A[aoff], BT[bofff]));
        bofff := bofff + w;
      }
      aoff := aoff + 1;
      boff' := boff' + 1;
    }
  }

  /** Moves the sums of one block of columns to their places in C. */
  method StoreSums<T>(ops: Ops<T>, d: Dims, ghost A: seq<T>, ghost B: seq<T>, C: array<T>, ghost y: int, ghost x: int,
                      coff: int, sum: array<T>)
    requires sum != C
    requires Filled(ops, d, A, B, C[..], y, x) && 0 <= y < d.h && 0 <= x && x + sum.Length <= d.v
    requires forall f :: 0 <= f < sum.Length ==> sum[f] == Entry(ops, d, A, B, y, x + f)
    requires coff == Cell(d, y, x)
    modifies C
    ensures Filled(ops, d, A, B, C[..], y, x + sum.Length)
  {
    for f := 0 to sum.Length
      invariant Filled(ops, d, A, B, C[..], y, x + f)
      invariant forall g :: 0 <= g < sum.Length ==> sum[g] == Entry(ops, d, A, B, y, x + g)
    {
      Store(ops, d, A, B, C, y, x + f, coff + f, sum[f]);
    }
  }

  lemma BlockInside(d: Dims, x: int, F: nat)
    requires 0 <= x && x + F <= d.v
    ensures 0 <= x * d.w && x * d.w + F * d.w <= d.v * d.w && (x + F) * d.w == x * d.w + F * d.w
  {
    MulBound(x, d.w);
    MulBound(d.v - x - F, d.w);
    assert d.v * d.w == (d.v - x - F) * d.w + x * d.w + F * d.w;
  }

  lemma NextBlockFits(x: int, F: nat, v: nat)
    requires F > 0 && v % F == 0 && x % F == 0 && 0 <= x < v
    ensures x + F <= v && (x + F) % F == 0
  {
    MultiplesApart(F, x / F, v / F);
    DivModIs(x + F, F, x / F + 1, 0);
  }

  /** One row of C, F entries at a time. */
  method UnrolledRow<T>(ops: Ops<T>, d: Dims, F: nat, A: seq<T>, ghost B: seq<T>, BT: seq<T>, C: array<T>,
                        ghost y: nat, ayoff: int, coff: int) returns (coff': int)
    requires Transposed(d, B, BT) && F > 0 && d.v % F == 0
    requires y < d.h && ayoff == y * d.w && 0 <= ayoff && ayoff + d.w <= |A| && coff == y * d.v
    requires Filled(ops, d, A, B, C[..], y, 0)
    modifies C
    ensures Filled(ops, d, A, B, C[..], y + 1, 0) && coff' == coff + d.v
  {
    var incr := d.w * (F - 1);
    coff' := coff;
    var boff, x := 0, 0;
    while x < d.v
      invariant 0 <= x <= d.v && x % F == 0 && boff == x * d.w && coff' == coff + x
      invariant Filled(ops, d, A, B, C[..], y, x)
    {
      NextBlockFits(x, F, d.v);
      BlockInside(d, x, F);
      var sum;
      sum, boff := RowTimesRows(ops, d.w, A, BT, ayoff, boff, F);
      forall f | 0 <= f < F ensures sum[f] == Entry(ops, d, A, B, y, x + f) {
        TransposedDot(ops, d, A, B, BT, ayoff, x + f, d.w);
        assert x * d.w + f * d.w == (x + f) * d.w;
      }
      StoreSums(ops, d, A, B, C, y, x, coff', sum);
      assert boff + incr == (x + F) * d.w by {
        assert d.w * (F - 1) == F * d.w - d.w;
      }
      boff := boff + incr;
      coff' := coff' + F;
      x := x + F;
    }
    RowDone(ops, d, A, B, C[..], y);
  }

  /** The kernel unrolled F ways, for F that divides the width of B. */
  method NoMulUnrolled<T>(ops: Ops<T>, d: Dims, F: nat, A: seq<T>, ghost B: seq<T>, BT: seq<T>, C: array<T>)
    requires Sizes(d, A, B, C.Length) && Transposed(d, B, BT) && F > 0 && d.v % F == 0
    modifies C
    ensures Product(ops, d, A, B, C[..])
  {
    var ayoff, coff := 0, 0;
    for y := 0 to d.h
      invariant ayoff == y * d.w && coff == y * d.v
      invariant Filled(ops, d, A, B, C[..], y, 0)
    {
      RowInside(d, y, d.h);
      coff := UnrolledRow(ops, d, F, A, B, BT, C, y, ayoff, coff);
      ayoff := ayoff + d.w;
    }
  }

  /** The product is one matrix: all kernels write the same C. */
  lemma ProductIsUnique<T>(ops: Ops<T>, d: Dims, a: seq<T>, b: seq<T>, c: seq<T>, c': seq<T>)
    requires Product(ops, d, a, b, c) && Product(ops, d, a, b, c')
    ensures c == c'
  {
    forall p | 0 <= p < |c| ensures c[p] == c'[p] {
      assert d.v == 0 ==> d.h * d.v == 0;
      if d.v > 0 {
        DivMod(p, d.v);
        QuotientBound(p, d.v, d.h);
        assert Get(ops, c, Cell(d, p / d.v, p % d.v)) == Entry(ops, d, a, b, p / d.v, p % d.v);
        assert Get(ops, c', Cell(d, p / d.v, p % d.v)) == Entry(ops, d, a, b, p / d.v, p % d.v);
      }
    }
  }
}
