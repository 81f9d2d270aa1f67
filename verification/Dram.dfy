/** Where the loader (nbf.py) places a DRAM word: column, top or bottom cache, and address there,
    with and without hashing. Bits of numbers are taken by division and remainder; the bitwise
    or of numbers without a common bit is their sum. */
module Dram {
  import opened Arithmetic
  import opened Bits

  /** width bits of n from bit start on. */
  function Field(n: nat, start: nat, width: nat): (f: nat)
    ensures f < Pow2(width)
  {
    DivMod(n, Pow2(start));
    n / Pow2(start) % Pow2(width)
  }

  function Bit(n: nat, i: nat): (b: nat)
    ensures b < 2
  {
    DivMod(n, Pow2(i));
    n / Pow2(i) % 2
  }

  lemma DivDiv(n: nat, a: nat, b: nat)
    requires a > 0 && b > 0
    ensures a * b > 0 && n / a / b == n / (a * b)
    ensures n / a % b == n % (a * b) / a
  {
    DivMod(n, a);
    DivMod(n / a, b);
    Regroup(n, a, b, n / a, n % a, n / a / b, n / a % b);
  }

  lemma Regroup(n: nat, a: nat, b: nat, q: nat, r: nat, q2: nat, r2: nat)
    requires n == q * a + r && r < a && q == q2 * b + r2 && r2 < b
    ensures a * b > 0 && n / (a * b) == q2 && n % (a * b) / a == r2
  {
    MulBound(b, a);
    assert (q2 * b + r2) * a == q2 * (a * b) + r2 * a;
    Nested(a, b, r, r2);
    MulBound(r2, a);
    DivModIs(n, a * b, q2, r2 * a + r);
    DivModIs(r2 * a + r, a, r2, r);
  }

  lemma RemainderGrows(m: nat, p: nat)
    requires p > 0
    ensures m % (2 * p) == m / p % 2 * p + m % p
  {
    DivMod(m, p);
    DivMod(m / p, 2);
    var h, e, r := m / p / 2, m / p % 2, m % p;
    assert (h * 2 + e) * p == h * (2 * p) + e * p;
    assert 0 <= e * p <= p;
    DivModIs(m, 2 * p, h, e * p + r);
  }

  /** One more bit of a field. */
  lemma FieldGrows(n: nat, start: nat, width: nat)
    ensures Field(n, start, width + 1) == Field(n, start, width) + Bit(n, start + width) * Pow2(width)
  {
    DivMod(n, Pow2(start));
    Pow2Adds(start, width);
    DivDiv(n, Pow2(start), Pow2(width));
    RemainderGrows(n / Pow2(start), Pow2(width));
  }

  lemma Factor(s: int, f: int, b: int, w: int)
    ensures s * f + b * (s * w) == s * (f + b * w)
  {
  }

  lemma SelectOne(num: nat, start: nat, width: nat)
    ensures Pow2(start) * Field(num, start, width) + Bit(num, start + width) * Pow2(start + width)
         == Pow2(start) * Field(num, start, width + 1)
  {
    FieldGrows(num, start, width);
    Pow2Adds(start, width);
    Factor(Pow2(start), Field(num, start, width), Bit(num, start + width), Pow2(width));
  }

  /** select_bits: the bits from start to end, shifted down. */
  method SelectBits(num: nat, start: nat, end: int) returns (r: nat)
    ensures r == Field(num, start, if end < start then 0 else end - start + 1)
  {
    var retval := 0;
    var i := start;
    while i < end + 1
      invariant start <= i && (i > start ==> i <= end + 1)
      invariant retval == Pow2(start) * Field(num, start, i - start)
    {
      SelectOne(num, start, i - start);
      var b := Bit(num, i) * Pow2(i);
      retval := retval + b;
      i := i + 1;
    }
    ShiftedBack(Pow2(start), Field(num, start, i - start));
    r := retval / Pow2(start);
  }

  lemma ShiftedBack(s: nat, f: nat)
    requires s > 0
    ensures s * f / s == f
  {
    DivModIs(s * f, s, f, 0);
  }

  lemma SingleBit(n: nat, i: nat)
    ensures Field(n, i, 1) == Bit(n, i)
  {
    assert Pow2(1) == 2 * Pow2(0);
  }

  // ---- hashing ----

  /** Exclusive or of two bits. */
  function Xor(a: nat, b: nat): (c: nat)
    requires a < 2 && b < 2
    ensures c < 2
  {
    if a == b then 0 else 1
  }

  /** The exclusive or of the listed bits. */
  function Parity(index: nat, hash: seq<nat>): (p: nat)
    ensures p < 2
  {
    if hash == [] then 0 else Xor(Parity(index, hash[..|hash| - 1]), Bit(index, hash[|hash| - 1]))
  }

  lemma XorAssoc(a: nat, b: nat, c: nat)
    requires a < 2 && b < 2 && c < 2
    ensures Xor(Xor(a, b), c) == Xor(a, Xor(b, c))
    ensures Xor(Xor(a, b), b) == a && Xor(a, 0) == a
  {
  }

  method HashAddrBit(addrBit: nat, index: nat, hash: seq<nat>) returns (r: nat)
    requires addrBit < 2
    ensures r == Xor(addrBit, Parity(index, hash))
  {
    r := addrBit;
    for i := 0 to |hash|
      invariant r == Xor(addrBit, Parity(index, hash[..i]))
    {
      var b := SelectBits(index, hash[i], hash[i]);
      SingleBit(index, hash[i]);
      XorAssoc(addrBit, Parity(index, hash[..i]), b);
      assert hash[..i + 1][..i] == hash[..i];
      r := Xor(r, b);
    }
    assert hash[..|hash|] == hash;
  }

  // ---- placement ----

  /** lgBlock, lgX: log2 of the cache block size and of the number of columns; with hashing, the
      lists of index bits for each bit of the column and for the choice of top or bottom. */
  datatype Config = Config(lgBlock: nat, lgX: nat, hashing: bool, hashX: seq<seq<nat>>, hashY: seq<nat>)

  predicate ConfigOk(c: Config) {
    c.lgX >= 1 && c.lgBlock + c.lgX <= 28 && (c.hashing ==> |c.hashX| == c.lgX)
  }

  function IndexWidth(c: Config): nat
    requires ConfigOk(c)
  {
    28 - c.lgBlock - c.lgX
  }

  /** The width of the addresses that can be placed apart. */
  const ADDR_WIDTH: nat := 29

  datatype Place = Place(x: nat, y: nat, epa: nat)

  function HashX(c: Config, i: nat, index: nat): (b: nat)
    requires ConfigOk(c) && i < c.lgX
    ensures b < 2
  {
    if c.hashing then Parity(index, c.hashX[i]) else 0
  }

  function HashY(c: Config, index: nat): (b: nat)
    ensures b < 2
  {
    if c.hashing then Parity(index, c.hashY) else 0
  }

  /** The number with the bits of v below n, each exclusive-ored with its hash bit. */
  function HashedX(c: Config, v: nat, index: nat, n: nat): (x: nat)
    requires ConfigOk(c) && n <= c.lgX
    ensures x < Pow2(n)
  {
    if n == 0 then 0 else HashedX(c, v, index, n - 1) + Xor(Bit(v, n - 1), HashX(c, n - 1, index)) * Pow2(n - 1)
  }

  /** low, with high above its width bits. */
  function Join(low: nat, width: nat, high: nat): (n: nat)
  {
    low + high * Pow2(width)
  }

  /** Where the word at addr goes. */
  function PlaceOf(c: Config, addr: nat): Place
    requires ConfigOk(c)
  {
    var index := Field(addr, c.lgBlock + c.lgX + 1, IndexWidth(c));
    Place(HashedX(c, Field(addr, c.lgBlock, c.lgX), index, c.lgX),
          Xor(Bit(addr, c.lgBlock + c.lgX), HashY(c, index)),
          Join(Field(addr, 0, c.lgBlock), c.lgBlock, index))
  }

  method HashedColumn(c: Config, addr: nat, index: nat) returns (x: nat)
    requires ConfigOk(c) && c.hashing
    ensures x == HashedX(c, Field(addr, c.lgBlock, c.lgX), index, c.lgX)
  {
    x := 0;
    for i := 0 to c.lgX
      invariant x == HashedX(c, Field(addr, c.lgBlock, c.lgX), index, i)
    {
      var tempX := SelectBits(addr, c.lgBlock + i, c.lgBlock + i);
      SingleBit(addr, c.lgBlock + i);
      BitOfField(addr, c.lgBlock, c.lgX, i);
      var xi := HashAddrBit(tempX, index, c.hashX[i]);
      x := x + xi * Pow2(i);
    }
  }

  method PlainColumn(c: Config, addr: nat, ghost index: nat) returns (x: nat)
    requires ConfigOk(c) && !c.hashing
    ensures x == HashedX(c, Field(addr, c.lgBlock, c.lgX), index, c.lgX)
  {
    x := SelectBits(addr, c.lgBlock, c.lgBlock + c.lgX - 1);
    PlainX(c, x, index, c.lgX);
    FieldOfField(addr, c.lgBlock, c.lgX);
  }

  /** init_dram, for one word. */
  method PlaceWord(c: Config, addr: nat) returns (p: Place)
    requires ConfigOk(c)
    ensures p == PlaceOf(c, addr)
  {
    var lgY := 1;
    var index := SelectBits(addr, c.lgBlock + c.lgX + lgY, c.lgBlock + c.lgX + lgY + IndexWidth(c) - 1);
    var x: nat;
    var y := SelectBits(addr, c.lgBlock + c.lgX, c.lgBlock + c.lgX + lgY - 1);
    SingleBit(addr, c.lgBlock + c.lgX);
    if c.hashing {
      x := HashedColumn(c, addr, index);
      y := HashAddrBit(y, index, c.hashY);
    } else {
      x := PlainColumn(c, addr, index);
    }
    var low := SelectBits(addr, 0, c.lgBlock - 1);
    p := Place(x, y, Join(low, c.lgBlock, index));
  }

  lemma BitOfField(n: nat, start: nat, width: nat, i: nat)
    requires i < width
    ensures Bit(Field(n, start, width), i) == Bit(n, start + i)
  {
    var m := n / Pow2(start);
    DivMod(n, Pow2(start));
    Pow2Adds(start, i);
    DivDiv(n, Pow2(start), Pow2(i));
    Pow2Adds(i, width - i);
    DivDiv(m, Pow2(i), Pow2(width - i));
    var q, b := m / Pow2(i), Pow2(width - i - 1);
    assert Pow2(width - i) == 2 * b;
    DivMod(q, 2 * b);
    assert q == (q / (2 * b)) * b * 2 + q % (2 * b);
    SameParity(q, q % (2 * b), (q / (2 * b)) * b);
  }

  lemma SameParity(q: nat, r: nat, k: nat)
    requires q == 2 * k + r
    ensures q % 2 == r % 2
  {
  }

  /** Without hashing the bits are put back as they were. */
  lemma {:induction false} PlainX(c: Config, v: nat, index: nat, n: nat)
    requires ConfigOk(c) && !c.hashing && n <= c.lgX
    ensures HashedX(c, v, index, n) == Field(v, 0, n)
  {
    if n == 0 {
      assert Field(v, 0, 0) == 0;
    } else {
      PlainX(c, v, index, n - 1);
      FieldGrows(v, 0, n - 1);
      var b := Bit(v, n - 1);
      assert Xor(b, 0) == b;
    }
  }

  lemma FieldOfField(n: nat, start: nat, width: nat)
    ensures Field(Field(n, start, width), 0, width) == Field(n, start, width)
  {
    var f := Field(n, start, width);
    assert Pow2(0) == 1;
    DivModIs(f, 1, f, 0);
    DivModIs(f, Pow2(width), 0, f);
  }

  // ---- no two words collide, and no place stays empty ----

  lemma SplitField(n: nat, start: nat, width: nat)
    ensures n / Pow2(start) == Join(Field(n, start, width), width, n / Pow2(start + width))
  {
    DivMod(n, Pow2(start));
    Pow2Adds(start, width);
    DivDiv(n, Pow2(start), Pow2(width));
    DivMod(n / Pow2(start), Pow2(width));
  }

  lemma SmallQuotient(n: nat, a: nat, b: nat)
    requires n < Pow2(a + b)
    ensures n / Pow2(a) < Pow2(b)
  {
    Pow2Adds(a, b);
    QuotientBound(n, Pow2(a), Pow2(b));
  }

  lemma SplitAddr(c: Config, addr: nat)
    requires ConfigOk(c) && addr < Pow2(ADDR_WIDTH)
    ensures addr == Join(Field(addr, 0, c.lgBlock), c.lgBlock,
                         Join(Field(addr, c.lgBlock, c.lgX), c.lgX,
                              Join(Bit(addr, c.lgBlock + c.lgX), 1,
                                   Field(addr, c.lgBlock + c.lgX + 1, IndexWidth(c)))))
  {
    var top := c.lgBlock + c.lgX + 1;
    SplitField(addr, 0, c.lgBlock);
    SplitField(addr, c.lgBlock, c.lgX);
    SplitField(addr, c.lgBlock + c.lgX, 1);
    SingleBit(addr, c.lgBlock + c.lgX);
    assert top + IndexWidth(c) == ADDR_WIDTH;
    SmallQuotient(addr, top, IndexWidth(c));
    DivMod(addr, Pow2(top));
    DivModIs(addr / Pow2(top), Pow2(IndexWidth(c)), 0, addr / Pow2(top));
    assert addr / Pow2(0) == addr;
  }

  lemma JoinParts(low: nat, width: nat, high: nat)
    requires low < Pow2(width)
    ensures Join(low, width, high) % Pow2(width) == low && Join(low, width, high) / Pow2(width) == high
  {
    DivModIs(Join(low, width, high), Pow2(width), high, low);
  }

  lemma JoinBound(low: nat, width: nat, high: nat, w: nat)
    requires low < Pow2(width) && high < Pow2(w)
    ensures Join(low, width, high) < Pow2(width + w)
  {
    Pow2Adds(width, w);
    Nested(Pow2(width), Pow2(w), low, high);
  }

  /** A bit above the width leaves the bits below it alone. */
  lemma BitBelow(low: nat, b: nat, n: nat, i: nat)
    requires i < n && low < Pow2(n)
    ensures Bit(low + b * Pow2(n), i) == Bit(low, i)
  {
    Pow2Adds(i, n - i);
    EvenMultiple(low, b, Pow2(i), Pow2(n - i - 1));
  }

  lemma EvenMultiple(low: nat, b: nat, a: nat, d: nat)
    requires a > 0
    ensures (low + b * (a * (2 * d))) / a % 2 == low / a % 2
  {
    MulBound(b, d);
    assert b * (a * (2 * d)) == 2 * (b * d) * a;
    ParityKept(low, a, b * d);
  }

  lemma ParityKept(low: nat, a: nat, k: nat)
    requires a > 0
    ensures (low + 2 * k * a) / a % 2 == low / a % 2
  {
    DivMod(low, a);
    assert low + 2 * k * a == (low / a + 2 * k) * a + low % a;
    DivModIs(low + 2 * k * a, a, low / a + 2 * k, low % a);
    SameParity(low / a + 2 * k, low / a, k);
  }

  lemma BitAt(low: nat, b: nat, n: nat)
    requires low < Pow2(n) && b < 2
    ensures Bit(low + b * Pow2(n), n) == b
  {
    DivModIs(low + b * Pow2(n), Pow2(n), b, low);
  }

  lemma {:induction false} HashedBits(c: Config, v: nat, index: nat, n: nat, i: nat)
    requires ConfigOk(c) && i < n <= c.lgX
    ensures Bit(HashedX(c, v, index, n), i) == Xor(Bit(v, i), HashX(c, i, index))
  {
    var low := HashedX(c, v, index, n - 1);
    var b := Xor(Bit(v, n - 1), HashX(c, n - 1, index));
    if i == n - 1 {
      BitAt(low, b, n - 1);
    } else {
      BitBelow(low, b, n - 1, i);
      HashedBits(c, v, index, n - 1, i);
    }
  }

  /** Bit i of the column is bit i above the block offset, exclusive-ored with the bits that list i
      names; the side is the next bit with its own list; and the address within the bank has the bits
      from there to bit 28 on top of the block offset. */
  lemma PlaceBits(c: Config, addr: nat, i: nat, j: nat)
    requires ConfigOk(c) && i < c.lgX && c.lgBlock + c.lgX + 1 + j < 29
    ensures
      var index, p := Field(addr, c.lgBlock + c.lgX + 1, 28 - c.lgBlock - c.lgX), PlaceOf(c, addr);
      && Bit(p.x, i) == Xor(Bit(addr, c.lgBlock + i), if c.hashing then Parity(index, c.hashX[i]) else 0)
      && p.y == Xor(Bit(addr, c.lgBlock + c.lgX), if c.hashing then Parity(index, c.hashY) else 0)
      && Bit(index, j) == Bit(addr, c.lgBlock + c.lgX + 1 + j)
      && p.epa == Field(addr, 0, c.lgBlock) + index * Pow2(c.lgBlock)
  {
    var index := Field(addr, c.lgBlock + c.lgX + 1, 28 - c.lgBlock - c.lgX);
    HashedBits(c, Field(addr, c.lgBlock, c.lgX), index, c.lgX, i);
    BitOfField(addr, c.lgBlock, c.lgX, i);
    BitOfField(addr, c.lgBlock + c.lgX + 1, 28 - c.lgBlock - c.lgX, j);
  }

  /** Hashing a column a second time with the same index undoes it. */
  lemma {:induction false} HashedTwice(c: Config, v: nat, index: nat, n: nat)
    requires ConfigOk(c) && n <= c.lgX
    ensures HashedX(c, HashedX(c, v, index, c.lgX), index, n) == Field(v, 0, n)
  {
    if n == 0 {
      assert Field(v, 0, 0) == 0;
    } else {
      HashedTwice(c, v, index, n - 1);
      HashedBits(c, v, index, c.lgX, n - 1);
      XorAssoc(Bit(v, n - 1), HashX(c, n - 1, index), HashX(c, n - 1, index));
      FieldGrows(v, 0, n - 1);
    }
  }

  lemma UnhashX(c: Config, v: nat, index: nat)
    requires ConfigOk(c) && v < Pow2(c.lgX)
    ensures HashedX(c, HashedX(c, v, index, c.lgX), index, c.lgX) == v
  {
    HashedTwice(c, v, index, c.lgX);
    DivModIs(v, 1, v, 0);
    DivModIs(v, Pow2(c.lgX), 0, v);
  }

  /** The address of the word at a place. */
  function AddrOf(c: Config, p: Place): nat
    requires ConfigOk(c) && p.y < 2
  {
    DivMod(p.epa, Pow2(c.lgBlock));
    var index := p.epa / Pow2(c.lgBlock);
    Join(p.epa % Pow2(c.lgBlock), c.lgBlock,
         Join(HashedX(c, p.x, index, c.lgX), c.lgX, Join(Xor(p.y, HashY(c, index)), 1, index)))
  }

  /** Every word can be found again: no two of the 2^29 addresses share a place. */
  lemma FoundAgain(c: Config, addr: nat)
    requires ConfigOk(c) && addr < Pow2(ADDR_WIDTH)
    ensures PlaceOf(c, addr).y < 2 && AddrOf(c, PlaceOf(c, addr)) == addr
  {
    var p := PlaceOf(c, addr);
    var index := Field(addr, c.lgBlock + c.lgX + 1, IndexWidth(c));
    JoinParts(Field(addr, 0, c.lgBlock), c.lgBlock, index);
    UnhashX(c, Field(addr, c.lgBlock, c.lgX), index);
    XorAssoc(Bit(addr, c.lgBlock + c.lgX), HashY(c, index), HashY(c, index));
    SplitAddr(c, addr);
  }

  predicate InRange(c: Config, p: Place)
    requires ConfigOk(c)
  {
    p.x < Pow2(c.lgX) && p.y < 2 && p.epa < Pow2(c.lgBlock + IndexWidth(c))
  }

  lemma PlaceInRange(c: Config, addr: nat)
    requires ConfigOk(c)
    ensures InRange(c, PlaceOf(c, addr))
  {
    JoinBound(Field(addr, 0, c.lgBlock), c.lgBlock, Field(addr, c.lgBlock + c.lgX + 1, IndexWidth(c)), IndexWidth(c));
  }

  lemma JoinedInRange(c: Config, low: nat, x: nat, y: nat, index: nat)
    requires ConfigOk(c) && low < Pow2(c.lgBlock) && x < Pow2(c.lgX) && y < 2 && index < Pow2(IndexWidth(c))
    ensures Join(low, c.lgBlock, Join(x, c.lgX, Join(y, 1, index))) < Pow2(ADDR_WIDTH)
  {
    assert Pow2(1) == 2 * Pow2(0) == 2;
    JoinBound(y, 1, index, IndexWidth(c));
    JoinBound(x, c.lgX, Join(y, 1, index), 1 + IndexWidth(c));
    JoinBound(low, c.lgBlock, Join(x, c.lgX, Join(y, 1, index)), c.lgX + (1 + IndexWidth(c)));
  }

  /** What is above a field. */
  lemma Above(addr: nat, a: nat, b: nat)
    ensures addr / Pow2(a + b) == addr / Pow2(a) / Pow2(b)
  {
    Pow2Adds(a, b);
    DivDiv(addr, Pow2(a), Pow2(b));
  }

  /** The fields of an address put together from fields. */
  lemma JoinedFields(c: Config, low: nat, x: nat, y: nat, index: nat)
    requires ConfigOk(c) && low < Pow2(c.lgBlock) && x < Pow2(c.lgX) && y < 2 && index < Pow2(IndexWidth(c))
    ensures var addr := Join(low, c.lgBlock, Join(x, c.lgX, Join(y, 1, index)));
      && Field(addr, 0, c.lgBlock) == low && Field(addr, c.lgBlock, c.lgX) == x
      && Bit(addr, c.lgBlock + c.lgX) == y
      && Field(addr, c.lgBlock + c.lgX + 1, IndexWidth(c)) == index
  {
    var n3 := Join(y, 1, index);
    var n2 := Join(x, c.lgX, n3);
    var addr := Join(low, c.lgBlock, n2);
    assert Pow2(1) == 2 * Pow2(0) == 2;
    JoinParts(low, c.lgBlock, n2);
    JoinParts(x, c.lgX, n3);
    JoinParts(y, 1, index);
    DivModIs(addr, Pow2(0), addr, 0);
    Above(addr, c.lgBlock, c.lgX);
    Above(addr, c.lgBlock + c.lgX, 1);
    DivModIs(index, Pow2(IndexWidth(c)), 0, index);
  }

  /** Every place in range holds the word of some address: the placement is a bijection. */
  lemma EveryPlaceUsed(c: Config, p: Place)
    requires ConfigOk(c) && InRange(c, p)
    ensures AddrOf(c, p) < Pow2(ADDR_WIDTH) && PlaceOf(c, AddrOf(c, p)) == p
  {
    DivMod(p.epa, Pow2(c.lgBlock));
    var index, low := p.epa / Pow2(c.lgBlock), p.epa % Pow2(c.lgBlock);
    SmallQuotient(p.epa, c.lgBlock, IndexWidth(c));
    JoinedInRange(c, low, HashedX(c, p.x, index, c.lgX), Xor(p.y, HashY(c, index)), index);
    JoinedFields(c, low, HashedX(c, p.x, index, c.lgX), Xor(p.y, HashY(c, index)), index);
    UnhashX(c, p.x, index);
    XorAssoc(p.y, HashY(c, index), HashY(c, index));
  }

  // ---- the order of the whole load ----

  /** A line of the load file, as far as its order matters: x and y number the tiles of a pod's tile
      group, or its columns. */
  datatype Line =
    | VcacheDest(px: nat, py: nat, x: nat, south: bool)
    | Load(px: nat, py: nat, k: nat)
    | Fence
    | Unfreeze(px: nat, py: nat, x: nat, y: nat)
    | Finish

  predicate IsLoad(line: Line) {
    line.VcacheDest? || line.Load?
  }

  ghost predicate AllLoads(lines: seq<Line>) {
    forall i :: 0 <= i < |lines| ==> IsLoad(lines[i])
  }

  /** The fence at place f divides the lines: nothing is unfrozen before it, nothing loaded after it. */
  ghost predicate FenceDivides(lines: seq<Line>, f: nat) {
    && f < |lines| && lines[f] == Fence && AllLoads(lines[..f])
    && (forall i :: f < i < |lines| ==> lines[i].Unfreeze? || lines[i].Finish?)
  }

  lemma FenceStays(lines: seq<Line>, f: nat, line: Line)
    requires FenceDivides(lines, f) && (line.Unfreeze? || line.Finish?)
    ensures FenceDivides(lines + [line], f)
  {
    assert (lines + [line])[..f] == lines[..f];
  }

  /** How often the line is there. */
  ghost function Times(lines: seq<Line>, line: Line): (n: nat) {
    multiset(lines)[line]
  }

  function OneIf(b: bool): nat {
    if b then 1 else 0
  }

  lemma TimesMore(lines: seq<Line>, last: Line, line: Line)
    ensures Times(lines + [last], line) == Times(lines, line) + OneIf(last == line)
  {
  }

  /** r has, beside the lines of before, each line for which `added` holds once more. */
  ghost predicate Adds(before: seq<Line>, r: seq<Line>, added: Line -> bool) {
    forall line: Line :: Times(r, line) == Times(before, line) + OneIf(added(line))
  }

  lemma AddsLine(before: seq<Line>, r: seq<Line>, added: Line -> bool, last: Line, added': Line -> bool)
    requires Adds(before, r, added) && !added(last)
    requires forall line: Line :: added'(line) <==> added(line) || line == last
    ensures Adds(before, r + [last], added')
  {
    forall line: Line ensures Times(r + [last], line) == Times(before, line) + OneIf(added'(line)) {
      TimesMore(r, last, line);
    }
  }

  lemma AddsMore(before: seq<Line>, r: seq<Line>, added: Line -> bool, r': seq<Line>, more: Line -> bool,
                 added': Line -> bool)
    requires Adds(before, r, added) && Adds(r, r', more)
    requires forall line: Line :: (added'(line) <==> added(line) || more(line)) && !(added(line) && more(line))
    ensures Adds(before, r', added')
  {
    forall line: Line ensures Times(r', line) == Times(before, line) + OneIf(added'(line)) {
      assert Times(r', line) == Times(r, line) + OneIf(more(line));
    }
  }

  /** A line for the caches of one of the first columns of pod (px, py). */
  predicate DestOf(line: Line, px: nat, py: nat, columns: nat) {
    line.VcacheDest? && line.px == px && line.py == py && line.x < columns
  }

  predicate DestOrNorth(line: Line, px: nat, py: nat, columns: nat) {
    DestOf(line, px, py, columns) || line == VcacheDest(px, py, columns, false)
  }

  /** init_vcache_wh_dest: both caches of every column of a pod. */
  method InitVcacheDest(lines: seq<Line>, px: nat, py: nat, tilesX: nat) returns (r: seq<Line>)
    requires AllLoads(lines)
    ensures AllLoads(r) && Adds(lines, r, line => DestOf(line, px, py, tilesX))
  {
    r := lines;
    for x := 0 to tilesX
      invariant AllLoads(r) && Adds(lines, r, line => DestOf(line, px, py, x))
    {
      AddsLine(lines, r, line => DestOf(line, px, py, x), VcacheDest(px, py, x, false),
               line => DestOrNorth(line, px, py, x));
      r := r + [VcacheDest(px, py, x, false)];
      AddsLine(lines, r, line => DestOrNorth(line, px, py, x), VcacheDest(px, py, x, true),
               line => DestOf(line, px, py, x + 1));
      r := r + [VcacheDest(px, py, x, true)];
    }
  }

  predicate LoadOf(line: Line, px: nat, py: nat, n: nat) {
    line.Load? && line.px == px && line.py == py && line.k < n
  }

  /** All that is loaded into a pod: tile-group origins, instruction and data memories, DRAM. */
  method InitPod(lines: seq<Line>, px: nat, py: nat, loads: nat) returns (r: seq<Line>)
    requires AllLoads(lines)
    ensures AllLoads(r) && Adds(lines, r, line => LoadOf(line, px, py, loads))
  {
    r := lines;
    for k := 0 to loads
      invariant AllLoads(r) && Adds(lines, r, line => LoadOf(line, px, py, k))
    {
      AddsLine(lines, r, line => LoadOf(line, px, py, k), Load(px, py, k), line => LoadOf(line, px, py, k + 1));
      r := r + [Load(px, py, k)];
    }
  }

  /** The unfreeze of a tile of the group of pod (px, py), among the first rows and, of the next row,
      the first columns. */
  predicate Unfrozen(line: Line, px: nat, py: nat, dimX: nat, rows: nat, columns: nat) {
    && line.Unfreeze? && line.px == px && line.py == py
    && line.x < dimX && (line.y < rows || (line.y == rows && line.x < columns))
  }

  method UnfreezeTiles(lines: seq<Line>, px: nat, py: nat, dimX: nat, dimY: nat, ghost f: nat) returns (r: seq<Line>)
    requires FenceDivides(lines, f)
    ensures FenceDivides(r, f) && Adds(lines, r, line => Unfrozen(line, px, py, dimX, dimY, 0))
  {
    r := lines;
    for y := 0 to dimY
      invariant FenceDivides(r, f) && Adds(lines, r, line => Unfrozen(line, px, py, dimX, y, 0))
    {
      for x := 0 to dimX
        invariant FenceDivides(r, f) && Adds(lines, r, line => Unfrozen(line, px, py, dimX, y, x))
      {
        var next := Unfreeze(px, py, x, y);
        FenceStays(r, f, next);
        AddsLine(lines, r, line => Unfrozen(line, px, py, dimX, y, x), next,
                 line => Unfrozen(line, px, py, dimX, y, x + 1));
        r := r + [next];
      }
    }
  }

  /** The pod of the line is in one of the first columns of pods or, of the next, the first ones. */
  predicate PodAmong(px: nat, py: nat, podsY: nat, columns: nat, pods: nat) {
    py < podsY && (px < columns || (px == columns && py < pods))
  }

  predicate Dests(line: Line, tilesX: nat, podsY: nat, columns: nat, pods: nat) {
    line.VcacheDest? && line.x < tilesX && PodAmong(line.px, line.py, podsY, columns, pods)
  }

  predicate Loads(line: Line, loads: (nat, nat) -> nat, podsY: nat, columns: nat, pods: nat) {
    line.Load? && line.k < loads(line.px, line.py) && PodAmong(line.px, line.py, podsY, columns, pods)
  }

  predicate Unfreezes(line: Line, dimX: nat, dimY: nat, podsY: nat, columns: nat, pods: nat) {
    line.Unfreeze? && line.x < dimX && line.y < dimY && PodAmong(line.px, line.py, podsY, columns, pods)
  }

  method DumpDests(lines: seq<Line>, machineX: nat, machineY: nat, tilesX: nat) returns (r: seq<Line>)
    requires AllLoads(lines)
    ensures AllLoads(r) && Adds(lines, r, line => Dests(line, tilesX, machineY, machineX, 0))
  {
    r := lines;
    for px := 0 to machineX
      invariant AllLoads(r) && Adds(lines, r, line => Dests(line, tilesX, machineY, px, 0))
    {
      for py := 0 to machineY
        invariant AllLoads(r) && Adds(lines, r, line => Dests(line, tilesX, machineY, px, py))
      {
        ghost var before := r;
        r := InitVcacheDest(r, px, py, tilesX);
        AddsMore(lines, before, line => Dests(line, tilesX, machineY, px, py), r,
                 line => DestOf(line, px, py, tilesX), line => Dests(line, tilesX, machineY, px, py + 1));
      }
    }
  }

  method DumpLoads(lines: seq<Line>, podsX: nat, podsY: nat, loads: (nat, nat) -> nat) returns (r: seq<Line>)
    requires AllLoads(lines)
    ensures AllLoads(r) && Adds(lines, r, line => Loads(line, loads, podsY, podsX, 0))
  {
    r := lines;
    for px := 0 to podsX
      invariant AllLoads(r) && Adds(lines, r, line => Loads(line, loads, podsY, px, 0))
    {
      for py := 0 to podsY
        invariant AllLoads(r) && Adds(lines, r, line => Loads(line, loads, podsY, px, py))
      {
        ghost var before := r;
        r := InitPod(r, px, py, loads(px, py));
        AddsMore(lines, before, line => Loads(line, loads, podsY, px, py), r,
                 line => LoadOf(line, px, py, loads(px, py)), line => Loads(line, loads, podsY, px, py + 1));
      }
    }
  }

  method DumpUnfreezes(lines: seq<Line>, podsX: nat, podsY: nat, dimX: nat, dimY: nat, ghost f: nat)
      returns (r: seq<Line>)
    requires FenceDivides(lines, f)
    ensures FenceDivides(r, f) && Adds(lines, r, line => Unfreezes(line, dimX, dimY, podsY, podsX, 0))
  {
    r := lines;
    for px := 0 to podsX
      invariant FenceDivides(r, f) && Adds(lines, r, line => Unfreezes(line, dimX, dimY, podsY, px, 0))
    {
      for py := 0 to podsY
        invariant FenceDivides(r, f) && Adds(lines, r, line => Unfreezes(line, dimX, dimY, podsY, px, py))
      {
        ghost var before := r;
        r := UnfreezeTiles(r, px, py, dimX, dimY, f);
        AddsMore(lines, before, line => Unfreezes(line, dimX, dimY, podsY, px, py), r,
                 line => Unfrozen(line, px, py, dimX, dimY, 0),
                 line => Unfreezes(line, dimX, dimY, podsY, px, py + 1));
      }
    }
  }

  /** The lines there should be, each once. */
  predicate Wanted(line: Line, machineX: nat, machineY: nat, tilesX: nat, podsX: nat, podsY: nat, dimX: nat, dimY: nat,
                   loads: (nat, nat) -> nat) {
    match line
    case VcacheDest(px, py, x, _) => px < machineX && py < machineY && x < tilesX
    case Load(px, py, k) => px < podsX && py < podsY && k < loads(px, py)
    case Fence => true
    case Unfreeze(px, py, x, y) => px < podsX && py < podsY && x < dimX && y < dimY
    case Finish => true
  }

  /** dump: loads(px, py) is how many lines the loads of a pod take; the tile group is dimX by dimY. */
  method Dump(machineX: nat, machineY: nat, tilesX: nat, podsX: nat, podsY: nat, dimX: nat, dimY: nat,
              loads: (nat, nat) -> nat) returns (lines: seq<Line>)
    ensures exists f :: FenceDivides(lines, f)
    ensures lines != [] && lines[|lines| - 1] == Finish
    ensures forall line: Line ::
      Times(lines, line) == OneIf(Wanted(line, machineX, machineY, tilesX, podsX, podsY, dimX, dimY, loads))
  {
    var dests := DumpDests([], machineX, machineY, tilesX);
    var loaded := DumpLoads(dests, podsX, podsY, loads);
    var fenced := loaded + [Fence];
    assert fenced[..|loaded|] == loaded;
    var unfrozen := DumpUnfreezes(fenced, podsX, podsY, dimX, dimY, |loaded|);
    FenceStays(unfrozen, |loaded|, Finish);
    lines := unfrozen + [Finish];
    forall line: Line ensures Times(lines, line)
        == OneIf(Wanted(line, machineX, machineY, tilesX, podsX, podsY, dimX, dimY, loads))
    {
      TimesMore(loaded, Fence, line);
      TimesMore(unfrozen, Finish, line);
      assert Times([], line) == 0;
    }
  }
}
