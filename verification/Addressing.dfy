/** Addresses of words in a tile group: pointer packing (bsg_manycore_arch.h), the striped array
    (bsg_striped_array.hpp), tile-group shared memory, and the strider (bsg_group_strider.hpp).
    The bitwise or of numbers without a common bit is their sum. */
module Addressing {
  import opened Arithmetic
  import opened Bits

  const EPA_SIZE: int := 0x4_0000 // 2^REMOTE_EPA_WIDTH
  const X_SIZE: int := 64         // 2^REMOTE_X_CORD_WIDTH
  const Y_SIZE: int := 32         // 2^REMOTE_Y_CORD_WIDTH

  /** bsg_remote_ptr. */
  function RemotePtr(x: nat, y: nat, addr: nat): nat {
    ((Y_SIZE + y) * X_SIZE + x) * EPA_SIZE + addr
  }

  predicate Fits(x: nat, y: nat, addr: nat) {
    x < X_SIZE && y < Y_SIZE && addr < EPA_SIZE
  }

  lemma PtrFields(x: nat, y: nat, addr: nat)
    requires Fits(x, y, addr)
    ensures var p := RemotePtr(x, y, addr);
      && p % EPA_SIZE == addr && p / EPA_SIZE % X_SIZE == x && p / EPA_SIZE / X_SIZE % Y_SIZE == y
      && p / EPA_SIZE / X_SIZE / Y_SIZE == 1 && p < 0x1_0000_0000
  {
  }

  /** The address is in bits 0 to 17, x from bit 18, y from bit 24, and bit 29 is set. */
  lemma PtrIs(x: nat, y: nat, addr: nat)
    ensures RemotePtr(x, y, addr) == 0x2000_0000 + 0x100_0000 * y + 0x4_0000 * x + addr
  {
  }

  // ---- the striped array ----

  /** SIZE, STRIPE_SIZE and the dimensions of the tile group. */
  datatype Shape = Shape(size: nat, stripe: nat, tx: nat, ty: nat)

  predicate ShapeOk(a: Shape) {
    a.stripe > 0 && a.tx > 0 && a.ty > 0
  }

  function Tiles(a: Shape): (n: nat)
    requires ShapeOk(a)
    ensures n > 0
  {
    MulBound(a.tx, a.ty);
    a.tx * a.ty
  }

  function Stripes(a: Shape): nat
    requires ShapeOk(a)
  {
    a.size / a.stripe + a.size % a.stripe
  }

  function StripesPerTile(a: Shape): nat
    requires ShapeOk(a)
  {
    DivMod(Stripes(a), Tiles(a));
    Stripes(a) / Tiles(a) + if Stripes(a) % Tiles(a) == 0 then 0 else 1
  }

  function ElementsPerTile(a: Shape): nat
    requires ShapeOk(a)
  {
    MulBound(StripesPerTile(a), a.stripe);
    StripesPerTile(a) * a.stripe
  }

  function TileOf(a: Shape, i: nat): (t: nat)
    requires ShapeOk(a)
    ensures t < Tiles(a)
  {
    DivMod(i, a.stripe);
    DivMod(i / a.stripe, Tiles(a));
    i / a.stripe % Tiles(a)
  }

  function CellOf(a: Shape, i: nat): nat
    requires ShapeOk(a)
  {
    DivMod(i, a.stripe);
    DivMod(i / a.stripe, Tiles(a));
    MulBound(i / a.stripe / Tiles(a), a.stripe);
    i / a.stripe / Tiles(a) * a.stripe + i % a.stripe
  }

  /** Every index below SIZE is within the cells each tile has. */
  lemma InBounds(a: Shape, i: nat)
    requires ShapeOk(a) && i < a.size
    ensures CellOf(a, i) < ElementsPerTile(a)
  {
    var stripe := i / a.stripe;
    DivMod(i, a.stripe);
    DivMod(a.size, a.stripe);
    StripeBelow(a, i);
    Rounded(stripe, Stripes(a), Tiles(a));
    DivMod(stripe, Tiles(a));
    Nested(a.stripe, StripesPerTile(a), i % a.stripe, stripe / Tiles(a));
  }

  lemma StripeBelow(a: Shape, i: nat)
    requires ShapeOk(a) && i < a.size
    ensures i / a.stripe < Stripes(a)
  {
    DivMod(i, a.stripe);
    DivMod(a.size, a.stripe);
    var q, r := a.size / a.stripe, a.size % a.stripe;
    MulBound(i / a.stripe - q, a.stripe);
    assert (i / a.stripe - q) * a.stripe == i / a.stripe * a.stripe - q * a.stripe;
  }

  /** s / t is below n / t rounded up. */
  lemma Rounded(s: nat, n: nat, t: nat)
    requires t > 0 && s < n
    ensures s / t < n / t + (if n % t == 0 then 0 else 1)
  {
    DivMod(s, t);
    DivMod(n, t);
    MulBound(s / t - n / t, t);
    assert (s / t - n / t) * t == s / t * t - n / t * t;
  }

  /** The index whose element is in the cell of the tile. */
  function IndexOf(a: Shape, tile: nat, cell: nat): int
    requires ShapeOk(a)
  {
    (cell / a.stripe * Tiles(a) + tile) * a.stripe + cell % a.stripe
  }

  /** Different indices have different cells: the index can be told from tile and cell. */
  lemma FoundByCell(a: Shape, i: nat)
    requires ShapeOk(a)
    ensures IndexOf(a, TileOf(a, i), CellOf(a, i)) == i
  {
    DivMod(i, a.stripe);
    DivMod(i / a.stripe, Tiles(a));
    DivModIs(CellOf(a, i), a.stripe, i / a.stripe / Tiles(a), i % a.stripe);
  }

  /** The remote pointer of element i, its array at local address base, four bytes a word. */
  function ElementPtr(a: Shape, base: nat, i: nat): nat
    requires ShapeOk(a)
  {
    DivMod(TileOf(a, i), a.tx);
    RemotePtr(TileOf(a, i) % a.tx, TileOf(a, i) / a.tx, base + 4 * CellOf(a, i))
  }

  /** Stripes go round the tiles, row by row; element i has a word of its tile's array. */
  lemma ElementPtrIs(a: Shape, base: nat, i: nat)
    requires ShapeOk(a)
    ensures
      var tiles := a.tx * a.ty;
      && tiles > 0
      && ElementPtr(a, base, i) ==
           0x2000_0000 + 0x100_0000 * (i / a.stripe % tiles / a.tx) + 0x4_0000 * (i / a.stripe % tiles % a.tx)
           + base + 4 * (i / a.stripe / tiles * a.stripe + i % a.stripe)
  {
    PtrIs(TileOf(a, i) % a.tx, TileOf(a, i) / a.tx, base + 4 * CellOf(a, i));
  }

  lemma TileCoordinates(a: Shape, tile: nat)
    requires ShapeOk(a) && tile < Tiles(a)
    ensures 0 <= tile % a.tx < a.tx && 0 <= tile / a.tx < a.ty
  {
    DivMod(tile, a.tx);
    QuotientBound(tile, a.tx, a.ty);
  }

  /** Different indices have different pointers, if the tiles and addresses fit their fields. */
  lemma PointersDiffer(a: Shape, base: nat, i: nat, j: nat)
    requires ShapeOk(a) && a.tx <= X_SIZE && a.ty <= Y_SIZE && i < a.size && j < a.size
    requires base + 4 * ElementsPerTile(a) <= EPA_SIZE
    requires ElementPtr(a, base, i) == ElementPtr(a, base, j)
    ensures i == j
  {
    InBounds(a, i);
    InBounds(a, j);
    TileCoordinates(a, TileOf(a, i));
    TileCoordinates(a, TileOf(a, j));
    PtrFields(TileOf(a, i) % a.tx, TileOf(a, i) / a.tx, base + 4 * CellOf(a, i));
    PtrFields(TileOf(a, j) % a.tx, TileOf(a, j) / a.tx, base + 4 * CellOf(a, j));
    DivMod(TileOf(a, i), a.tx);
    DivMod(TileOf(a, j), a.tx);
    FoundByCell(a, i);
    FoundByCell(a, j);
  }

  /** The array: each tile's _data. */
  class StripedArray<T> {
    const shape: Shape
    var data: array2<T>

    ghost predicate Valid()
      reads this, data
    {
      ShapeOk(shape) && data.Length0 == Tiles(shape) && data.Length1 == ElementsPerTile(shape)
    }

    /** The elements in index order. */
    ghost function Contents(): (s: seq<T>)
      requires Valid()
      reads this, data
      ensures |s| == shape.size
    {
      seq(shape.size, i requires 0 <= i < shape.size && Valid() reads this, data =>
        (InBounds(shape, i); data[TileOf(shape, i), CellOf(shape, i)]))
    }

    /** The elements start out as anything. */
    constructor (a: Shape, init: T)
      requires ShapeOk(a)
      ensures Valid() && shape == a && fresh(data)
    {
      shape := a;
      data := new T[Tiles(a), ElementsPerTile(a)]((_, _) => init);
    }

    /** A read through operator[]. */
    method Get(i: nat) returns (v: T)
      requires Valid() && i < shape.size
      ensures v == Contents()[i]
    {
      InBounds(shape, i);
      v := data[TileOf(shape, i), CellOf(shape, i)];
    }

    /** A store through operator[]: like a store into a flat array. */
    method Set(i: nat, v: T)
      requires Valid() && i < shape.size
      modifies data
      ensures Valid() && data == old(data)
      ensures Contents() == old(Contents())[i := v]
    {
      InBounds(shape, i);
      ghost var before := Contents();
      data[TileOf(shape, i), CellOf(shape, i)] := v;
      forall j: nat | j < shape.size ensures Contents()[j] == before[i := v][j] {
        InBounds(shape, j);
        FoundByCell(shape, i);
        FoundByCell(shape, j);
      }
    }
  }

  // ---- tile-group shared memory ----

  /** bsg_tile_group_shared_ptr: word `index` of a shared array at local address base. */
  function SharedPtr(tx: nat, ty: nat, base: nat, index: nat): nat
    requires tx > 0 && ty > 0
  {
    MulBound(tx, ty);
    DivMod(index, tx);
    DivMod(index / tx, ty);
    DivMod(index, tx * ty);
    RemotePtr(index % tx, index / tx % ty, base + 4 * (index / (tx * ty)))
  }

  /** Words go round the tiles of the group, row by row. */
  lemma SharedPtrIs(tx: nat, ty: nat, base: nat, index: nat)
    requires tx > 0 && ty > 0
    ensures tx * ty > 0
    ensures SharedPtr(tx, ty, base, index) ==
      0x2000_0000 + 0x100_0000 * (index / tx % ty) + 0x4_0000 * (index % tx) + base + 4 * (index / (tx * ty))
  {
    MulBound(tx, ty);
    SharedCoordinates(tx, ty, index);
    PtrIs(index % tx, index / tx % ty, base + 4 * (index / (tx * ty)));
  }

  lemma TwoLevels(index: nat, tx: nat, ty: nat)
    requires tx > 0 && ty > 0
    ensures tx * ty > 0 && index / (tx * ty) == index / tx / ty
  {
    MulBound(tx, ty);
    DivMod(index, tx);
    DivMod(index / tx, ty);
    var q := index / tx / ty;
    Nested(tx, ty, index % tx, index / tx % ty);
    assert index == q * (tx * ty) + (tx * (index / tx % ty) + index % tx);
    DivModIs(index, tx * ty, q, tx * (index / tx % ty) + index % tx);
  }

  lemma SamePtr(x: nat, y: nat, addr: nat, x': nat, y': nat, addr': nat)
    requires Fits(x, y, addr) && Fits(x', y', addr') && RemotePtr(x, y, addr) == RemotePtr(x', y', addr')
    ensures x == x' && y == y' && addr == addr'
  {
    PtrFields(x, y, addr);
    PtrFields(x', y', addr');
  }

  lemma SameIndex(i: nat, j: nat, tx: nat, ty: nat)
    requires tx > 0 && ty > 0 && i % tx == j % tx && i / tx % ty == j / tx % ty && i / tx / ty == j / tx / ty
    ensures i == j
  {
    DivMod(i, tx);
    DivMod(i / tx, ty);
    DivMod(j, tx);
    DivMod(j / tx, ty);
  }

  lemma SharedCoordinates(tx: nat, ty: nat, i: nat)
    requires tx > 0 && ty > 0
    ensures tx * ty > 0 && 0 <= i % tx < tx && 0 <= i / tx % ty < ty
    ensures 0 <= i / (tx * ty) && i / (tx * ty) == i / tx / ty
  {
    TwoLevels(i, tx, ty);
    DivMod(i, tx);
    DivMod(i / tx, ty);
    DivMod(i, tx * ty);
  }

  /** Different words of a shared array have different pointers. */
  lemma SharedPointersDiffer(tx: nat, ty: nat, base: nat, i: nat, j: nat)
    requires 0 < tx <= X_SIZE && 0 < ty <= Y_SIZE && tx * ty > 0
    requires base + 4 * (i / (tx * ty)) < EPA_SIZE && base + 4 * (j / (tx * ty)) < EPA_SIZE
    requires SharedPtr(tx, ty, base, i) == SharedPtr(tx, ty, base, j)
    ensures i == j
  {
    SharedCoordinates(tx, ty, i);
    SharedCoordinates(tx, ty, j);
    SamePtr(i % tx, i / tx % ty, base + 4 * (i / (tx * ty)), j % tx, j / tx % ty, base + 4 * (j / (tx * ty)));
    SameIndex(i, j, tx, ty);
  }

  // ---- the strider ----

  /** The fields of a packed pointer. */
  datatype Fields = Fields(prefix: nat, y: nat, x: nat, epa: nat)

  predicate FieldsOk(f: Fields) {
    f.prefix < 8 && f.y < Y_SIZE && f.x < X_SIZE && f.epa < EPA_SIZE
  }

  function Packed(f: Fields): nat {
    ((f.prefix * Y_SIZE + f.y) * X_SIZE + f.x) * EPA_SIZE + f.epa
  }

  function Unpacked(p: nat): (f: Fields)
    ensures p < 0x1_0000_0000 ==> FieldsOk(f)
  {
    Fields(p / EPA_SIZE / X_SIZE / Y_SIZE, p / EPA_SIZE / X_SIZE % Y_SIZE, p / EPA_SIZE % X_SIZE, p % EPA_SIZE)
  }

  lemma UnpackedPacked(f: Fields)
    requires FieldsOk(f)
    ensures Unpacked(Packed(f)) == f && Packed(f) < 0x1_0000_0000
  {
  }

  lemma PackedUnpacked(p: nat)
    ensures Packed(Unpacked(p)) == p
  {
    DivMod(p, EPA_SIZE);
    DivMod(p / EPA_SIZE, X_SIZE);
    DivMod(p / EPA_SIZE / X_SIZE, Y_SIZE);
  }

  /** S_X, S_Y; lx, ly: log2 of TG_X and TG_Y. */
  datatype Stride = Stride(sx: nat, sy: nat, lx: nat, ly: nat)

  /** The tile-group dimensions fit the coordinate fields. */
  predicate StrideOk(d: Stride) {
    d.lx <= 6 && d.ly <= 5
  }

  lemma DimsFit(d: Stride)
    requires StrideOk(d)
    ensures Pow2(d.lx) <= X_SIZE && (Pow2(d.lx) == X_SIZE <==> d.lx == 6)
    ensures Pow2(d.ly) <= Y_SIZE && (Pow2(d.ly) == Y_SIZE <==> d.ly == 5)
  {
    assert Pow2(6) == 64 && Pow2(5) == 32;
    if d.lx < 6 {
      Pow2Grows(d.lx, 6);
    }
    if d.ly < 5 {
      Pow2Grows(d.ly, 5);
    }
  }

  /** The remainder of n, between 0 and n. */
  function Low(n: nat, m: nat): (r: nat)
    requires m > 0
    ensures r < m && r <= n
  {
    DivMod(n, m);
    MulBound(n / m, m);
    n % m
  }

  lemma LowIs(n: nat, m: nat)
    requires m > 0
    ensures n < m ==> Low(n, m) == n
    ensures m <= n < 2 * m ==> Low(n, m) == n - m
  {
    if n < m {
      DivModIs(n, m, 0, n);
    } else if n < 2 * m {
      DivModIs(n, m, 1, n - m);
    }
  }

  lemma LowTwice(n: nat, m: nat)
    requires m > 0
    ensures Low(Low(n, m) + 1, m) == Low(n + 1, m)
  {
    ModAdd(n, 1, m);
  }

  function MaskX(d: Stride, f: Fields): Fields {
    f.(x := Low(f.x, Pow2(d.lx)))
  }

  function MaskY(d: Stride, f: Fields): Fields {
    f.(y := Low(f.y, Pow2(d.ly)))
  }

  /** The & with X_MASK: it clears the bits of the x field above the tile group's dimension. */
  function AndXMask(d: Stride, p: nat): nat {
    Packed(MaskX(d, Unpacked(p)))
  }

  function AndYMask(d: Stride, p: nat): nat {
    Packed(MaskY(d, Unpacked(p)))
  }

  const X_STRIDE: int := EPA_SIZE
  const Y_STRIDE: int := EPA_SIZE * X_SIZE

  /** Adding to one field of a 32-bit pointer and masking it. */
  function StepX(d: Stride, p: nat): nat {
    AndXMask(d, (p + X_STRIDE) % 0x1_0000_0000)
  }

  function StepY(d: Stride, p: nat): nat {
    AndYMask(d, (p + Y_STRIDE) % 0x1_0000_0000)
  }

  function NextPtr(d: Stride, p: nat): nat {
    if d.sx == 0 then StepY(d, p)
    else if d.sy == 0 then StepX(d, p)
    else StepY(d, StepX(d, p))
  }

  /** Where k calls of stride lead. */
  function After(d: Stride, p: nat, k: nat): nat {
    if k == 0 then p else NextPtr(d, After(d, p, k - 1))
  }

  // ---- strides on fields ----

  /** Adding one to a field carries into the next one when the field is full. */
  function IncY(f: Fields): Fields {
    if f.y + 1 < Y_SIZE then f.(y := f.y + 1)
    else f.(y := 0, prefix := if f.prefix + 1 < 8 then f.prefix + 1 else 0)
  }

  function IncX(f: Fields): Fields {
    if f.x + 1 < X_SIZE then f.(x := f.x + 1) else IncY(f.(x := 0))
  }

  lemma AddX(f: Fields)
    requires FieldsOk(f)
    ensures (Packed(f) + X_STRIDE) % 0x1_0000_0000 == Packed(IncX(f)) && FieldsOk(IncX(f))
  {
  }

  lemma AddY(f: Fields)
    requires FieldsOk(f)
    ensures (Packed(f) + Y_STRIDE) % 0x1_0000_0000 == Packed(IncY(f)) && FieldsOk(IncY(f))
  {
  }

  function NextX(d: Stride, f: Fields): Fields {
    MaskX(d, IncX(f))
  }

  function NextY(d: Stride, f: Fields): Fields {
    MaskY(d, IncY(f))
  }

  function Next(d: Stride, f: Fields): Fields {
    if d.sx == 0 then NextY(d, f) else if d.sy == 0 then NextX(d, f) else NextY(d, NextX(d, f))
  }

  lemma StepXIs(d: Stride, f: Fields)
    requires FieldsOk(f)
    ensures StepX(d, Packed(f)) == Packed(NextX(d, f)) && FieldsOk(NextX(d, f))
  {
    AddX(f);
    UnpackedPacked(IncX(f));
  }

  lemma StepYIs(d: Stride, f: Fields)
    requires FieldsOk(f)
    ensures StepY(d, Packed(f)) == Packed(NextY(d, f)) && FieldsOk(NextY(d, f))
  {
    AddY(f);
    UnpackedPacked(IncY(f));
  }

  lemma StepBoth(d: Stride, p: nat, q: nat, r: nat)
    requires StepX(d, p) == q && StepY(d, q) == r
    ensures StepY(d, StepX(d, p)) == r
  {
  }

  /** A stride of the pointer is a stride of its fields. */
  lemma NextIs(d: Stride, f: Fields)
    requires FieldsOk(f)
    ensures NextPtr(d, Packed(f)) == Packed(Next(d, f)) && FieldsOk(Next(d, f))
  {
    if d.sx == 0 {
      StepYIs(d, f);
    } else if d.sy == 0 {
      StepXIs(d, f);
    } else {
      var g := NextX(d, f);
      StepXIs(d, f);
      StepYIs(d, g);
      StepBoth(d, Packed(f), Packed(g), Packed(NextY(d, g)));
    }
  }

  function FieldsAfter(d: Stride, f: Fields, k: nat): Fields {
    if k == 0 then f else Next(d, FieldsAfter(d, f, k - 1))
  }

  lemma OneMore(d: Stride, p: nat, k: nat, q: nat, r: nat)
    requires After(d, p, k) == q && NextPtr(d, q) == r
    ensures After(d, p, k + 1) == r
  {
  }

  lemma {:induction false} AfterIs(d: Stride, f: Fields, k: nat)
    requires FieldsOk(f)
    ensures After(d, Packed(f), k) == Packed(FieldsAfter(d, f, k)) && FieldsOk(FieldsAfter(d, f, k))
  {
    if k > 0 {
      var g := FieldsAfter(d, f, k - 1);
      AfterIs(d, f, k - 1);
      NextIs(d, g);
      OneMore(d, Packed(f), k - 1, Packed(g), Packed(Next(d, g)));
    }
  }

  /** The coordinates k tiles on, around the tile group. */
  function Moved(d: Stride, f: Fields, k: nat): Fields {
    var x, y := Low(f.x + k, Pow2(d.lx)), Low(f.y + k, Pow2(d.ly));
    if d.sx == 0 then f.(y := y) else if d.sy == 0 then f.(x := x) else f.(x := x, y := y)
  }

  predicate InGroup(d: Stride, f: Fields) {
    FieldsOk(f) && f.x < Pow2(d.lx) && f.y < Pow2(d.ly)
  }

  /** No stride carries out of a coordinate field into what the mask keeps. */
  predicate Roomy(d: Stride) {
    if d.sx == 0 then d.ly < 5
    else if d.sy == 0 then d.lx < 6
    else d.ly < 5 && (d.lx < 6 || d.ly == 0)
  }

  lemma NextMoves(d: Stride, f: Fields)
    requires StrideOk(d) && InGroup(d, f) && Roomy(d)
    ensures Next(d, f) == Moved(d, f, 1)
  {
    DimsFit(d);
    if d.sx != 0 && d.sy != 0 && d.lx == 6 {
      NextFlat(d, f);
    }
  }

  /** In a group one row high the carry lands in the y field and is masked away. */
  lemma NextFlat(d: Stride, f: Fields)
    requires StrideOk(d) && InGroup(d, f) && d.sx != 0 && d.sy != 0 && d.lx == 6 && d.ly == 0
    ensures Next(d, f) == Moved(d, f, 1)
  {
    DimsFit(d);
    assert Pow2(0) == 1;
    LowIs(f.x + 1, 64);
    LowIs(0, 64);
  }

  class Strider {
    const d: Stride
    var ptr: nat

    constructor (d: Stride, epa: nat, xOff: nat, yOff: nat)
      requires Fits(xOff, yOff, epa)
      ensures this.d == d && ptr == Packed(Fields(1, yOff, xOff, epa))
    {
      this.d := d;
      ptr := RemotePtr(xOff, yOff, epa);
    }

    /** stride(): move on and return where to. A pointer into the group moves by one tile around it
        if there is room in its fields. */
    method Next() returns (p: nat)
      modifies this`ptr
      ensures p == ptr == NextPtr(d, old(ptr))
      ensures StrideOk(d) && InGroup(d, Unpacked(old(ptr))) && Roomy(d) ==>
        ptr == Packed(Moved(d, Unpacked(old(ptr)), 1))
    {
      StrideMoves(d, ptr);
      if d.sx == 0 {
        ptr := AndYMask(d, (ptr + Y_STRIDE) % 0x1_0000_0000);
      } else if d.sy == 0 {
        ptr := AndXMask(d, (ptr + X_STRIDE) % 0x1_0000_0000);
      } else {
        ptr := AndYMask(d, (AndXMask(d, (ptr + X_STRIDE) % 0x1_0000_0000) + Y_STRIDE) % 0x1_0000_0000);
      }
      p := ptr;
    }
  }

  lemma StrideMoves(d: Stride, p: nat)
    ensures StrideOk(d) && InGroup(d, Unpacked(p)) && Roomy(d) ==> NextPtr(d, p) == Packed(Moved(d, Unpacked(p), 1))
  {
    if StrideOk(d) && InGroup(d, Unpacked(p)) && Roomy(d) {
      PackedUnpacked(p);
      NextMoves(d, Unpacked(p));
      NextIs(d, Unpacked(p));
    }
  }

  lemma MovedInGroup(d: Stride, f: Fields, k: nat)
    requires StrideOk(d) && InGroup(d, f)
    ensures InGroup(d, Moved(d, f, k))
  {
    DimsFit(d);
  }

  lemma MovedNone(d: Stride, f: Fields)
    requires InGroup(d, f)
    ensures Moved(d, f, 0) == f
  {
    LowIs(f.x, Pow2(d.lx));
    LowIs(f.y, Pow2(d.ly));
  }

  lemma MovedTwice(d: Stride, f: Fields, k: nat)
    ensures Moved(d, Moved(d, f, k), 1) == Moved(d, f, k + 1)
  {
    LowTwice(f.x + k, Pow2(d.lx));
    LowTwice(f.y + k, Pow2(d.ly));
    var g, n := Moved(d, f, k), Moved(d, f, k + 1);
    assert n.x == (if d.sx == 0 then f.x else Low(f.x + k + 1, Pow2(d.lx)));
    assert n.y == (if d.sx != 0 && d.sy == 0 then f.y else Low(f.y + k + 1, Pow2(d.ly)));
    assert Moved(d, g, 1).x == (if d.sx == 0 then g.x else Low(g.x + 1, Pow2(d.lx)));
    assert Moved(d, g, 1).y == (if d.sx != 0 && d.sy == 0 then g.y else Low(g.y + 1, Pow2(d.ly)));
  }

  lemma {:induction false} StridesMove(d: Stride, f: Fields, k: nat)
    requires StrideOk(d) && InGroup(d, f) && Roomy(d)
    ensures FieldsAfter(d, f, k) == Moved(d, f, k)
  {
    if k == 0 {
      MovedNone(d, f);
    } else {
      StridesMove(d, f, k - 1);
      MovedInGroup(d, f, k - 1);
      MovedTwice(d, f, k - 1);
      NextMoves(d, Moved(d, f, k - 1));
    }
  }

  ghost predicate StaysAt(d: Stride, f: Fields, k: nat) {
    After(d, Packed(f), k) == Packed(Moved(d, f, k))
  }

  lemma StaysAtFields(d: Stride, f: Fields, k: nat)
    requires StrideOk(d) && InGroup(d, f)
    ensures StaysAt(d, f, k) <==> FieldsAfter(d, f, k) == Moved(d, f, k)
  {
    AfterIs(d, f, k);
    MovedInGroup(d, f, k);
    PackedDiffer(FieldsAfter(d, f, k), Moved(d, f, k));
  }

  lemma PackedDiffer(f: Fields, g: Fields)
    requires FieldsOk(f) && FieldsOk(g)
    ensures Packed(f) == Packed(g) <==> f == g
  {
    UnpackedPacked(f);
    UnpackedPacked(g);
  }

  /** Where the x field is full the stride carries. */
  lemma CarryX(d: Stride, f: Fields)
    requires StrideOk(d) && InGroup(d, f) && f.prefix == 1 && d.sx != 0 && d.lx == 6 && f.x == 63
    requires d.sy != 0 ==> d.ly > 0
    ensures Next(d, f) != Moved(d, f, 1)
  {
    DimsFit(d);
    if d.sy != 0 {
      Pow2Grows(0, d.ly);
      LowMoves(f.y + 1, Pow2(d.ly));
    }
  }

  lemma LowMoves(n: nat, m: nat)
    requires m > 1
    ensures Low(n + 1, m) != Low(n, m)
  {
    ModDiffers(n, n + 1, m);
  }

  /** And where the y field is full. */
  lemma CarryY(d: Stride, f: Fields)
    requires StrideOk(d) && InGroup(d, f) && f.prefix == 1 && d.ly == 5 && f.y == 31
    requires d.sx == 0 || (d.sy != 0 && d.lx < 6)
    ensures Next(d, f) != Moved(d, f, 1)
  {
    DimsFit(d);
  }

  /** The number of strides from f to where a field is full. */
  lemma SomeStrideCarries(d: Stride, f: Fields) returns (k: nat)
    requires StrideOk(d) && InGroup(d, f) && f.prefix == 1 && !Roomy(d)
    ensures Next(d, Moved(d, f, k)) != Moved(d, f, k + 1)
  {
    DimsFit(d);
    if d.sx != 0 && d.lx == 6 && (d.sy != 0 ==> d.ly > 0) {
      k := 63 - f.x;
      LowIs(63, 64);
      MovedInGroup(d, f, k);
      CarryX(d, Moved(d, f, k));
    } else {
      k := 31 - f.y;
      LowIs(31, 32);
      MovedInGroup(d, f, k);
      CarryY(d, Moved(d, f, k));
    }
    MovedTwice(d, f, k);
  }

  lemma SomeStrideLeaves(d: Stride, f: Fields) returns (k: nat)
    requires StrideOk(d) && InGroup(d, f) && f.prefix == 1 && !Roomy(d)
    ensures !StaysAt(d, f, k)
  {
    k := SomeStrideCarries(d, f);
    StaysAtFields(d, f, k);
    StaysAtFields(d, f, k + 1);
    if StaysAt(d, f, k) {
      k := k + 1;
    }
  }

  /** The coordinate advances by one per stride, around the group's dimension, with the other
      fields as they were, for any number of strides, exactly if no carry leaves a field. */
  lemma StridesMoveIff(d: Stride, f: Fields)
    requires StrideOk(d) && InGroup(d, f) && f.prefix == 1
    ensures (forall k: nat :: StaysAt(d, f, k)) <==> Roomy(d)
  {
    if Roomy(d) {
      forall k: nat ensures StaysAt(d, f, k) {
        StridesMove(d, f, k);
        StaysAtFields(d, f, k);
      }
    } else {
      var k := SomeStrideLeaves(d, f);
    }
  }
}
