/** The table-driven CRC-32 loop of spmd/crc32 against the CRC of section 8 of RFC 1952 taken one
    bit at a time. */
module Crc32 {
  import opened CrcTable

  /** The register after one more input bit. */
  function BitStep(c: bv32, bit: bool): bv32 {
    Shift(if bit then c ^ 1 else c)
  }

  /** The register after the bits, in order. */
  function Register(c: bv32, bits: seq<bool>): bv32
    decreases bits
  {
    if bits == [] then c else Register(BitStep(c, bits[0]), bits[1..])
  }

  /** The n low bits of v, least significant first. */
  function BitsOf(v: bv32, n: nat): (bits: seq<bool>)
    ensures |bits| == n
    decreases n
  {
    if n == 0 then [] else [v & 1 == 1] + BitsOf(v >> 1, n - 1)
  }

  /** The bits of the items, one item after the other. */
  function Flat<T>(bits: T -> seq<bool>, items: seq<T>): seq<bool> {
    if items == [] then [] else bits(items[0]) + Flat(bits, items[1..])
  }

  function ByteBits(b: bv8): seq<bool> {
    BitsOf(b as bv32, 8)
  }

  /** The bits of the data, in the order section 8 of RFC 1952 takes them. */
  function Bits(data: seq<bv8>): seq<bool> {
    Flat(ByteBits, data)
  }

  /** The CRC-32 of the data. */
  function Crc(data: seq<bv8>): bv32 {
    Xor(Register(0xFFFFFFFF, Bits(data)), 0xFFFFFFFF)
  }

  // ---- eight bits at a time ----

  /** f applied n times. */
  function Iter<T>(f: T -> T, c: T, n: nat): T
    decreases n
  {
    if n == 0 then c else Iter(f, f(c), n - 1)
  }

  ghost predicate RespectsAt<T>(f: T -> T, op: (T, T) -> T, a: T, b: T) {
    f(op(a, b)) == op(f(a), f(b))
  }

  lemma {:induction false} IterRespects<T(!new)>(f: T -> T, op: (T, T) -> T, a: T, b: T, n: nat)
    requires forall x, y :: RespectsAt(f, op, x, y)
    ensures RespectsAt((c: T) => Iter(f, c, n), op, a, b)
    decreases n
  {
    if n > 0 {
      assert RespectsAt(f, op, a, b);
      IterRespects(f, op, f(a), f(b), n - 1);
    }
  }

  function Xor(a: bv32, b: bv32): bv32 {
    a ^ b
  }

  lemma XorHalves(a: bv32, b: bv32)
    ensures (a ^ b) >> 1 == (a >> 1) ^ (b >> 1)
    ensures (a ^ b) & 1 == (a & 1) ^ (b & 1)
    ensures a & 1 == 0 || a & 1 == 1
    ensures b & 1 == 0 || b & 1 == 1
  {
  }

  lemma XorMoves(x: bv32, y: bv32, p: bv32)
    ensures (x ^ p) ^ (y ^ p) == x ^ y
    ensures (x ^ p) ^ y == (x ^ y) ^ p
    ensures x ^ (y ^ p) == (x ^ y) ^ p
  {
  }

  lemma EightIsIter(c: bv32)
    ensures Iter(Shift, c, 8) == Eight(c)
  {
    var c1 := Shift(c);
    var c2 := Shift(c1);
    var c3 := Shift(c2);
    var c4 := Shift(c3);
    assert Iter(Shift, c, 8) == Iter(Shift, c1, 7) == Iter(Shift, c2, 6) == Iter(Shift, c3, 5) == Iter(Shift, c4, 4);
  }

  lemma ShiftRespectsXor(x: bv32, y: bv32)
    ensures RespectsAt(Shift, Xor, x, y)
  {
    ShiftOfXor(x, y);
  }

  lemma ShiftOfXor(a: bv32, b: bv32)
    ensures Shift(Xor(a, b)) == Xor(Shift(a), Shift(b))
  {
    XorHalves(a, b);
    XorMoves(a >> 1, b >> 1, 0xEDB88320);
  }

  lemma IterIsLinear(a: bv32, b: bv32, n: nat)
    ensures Iter(Shift, Xor(a, b), n) == Xor(Iter(Shift, a, n), Iter(Shift, b, n))
  {
    forall x, y ensures RespectsAt(Shift, Xor, x, y) {
      ShiftRespectsXor(x, y);
    }
    IterRespects(Shift, Xor, a, b, n);
  }

  /** Without its low byte the register only moves down. */
  lemma EightOfHigh(c: bv32)
    ensures Eight(c & 0xFFFFFF00) == c >> 8
  {
  }

  lemma LowAndHigh(c: bv32)
    ensures c == Xor(c & 0xFFFFFF00, c & 0xFF) && c & 0xFF < 256
  {
  }

  lemma HighIter(x: bv32, n: nat)
    requires n == 8
    ensures Iter(Shift, x & 0xFFFFFF00, n) == x >> 8
  {
    EightOfHigh(x);
    EightIsIter(x & 0xFFFFFF00);
  }

  lemma TableIter(i: bv32, n: nat)
    requires i < 256 && n == 8
    ensures Table(i) == Iter(Shift, i, n)
  {
    TableIsShifts(i);
    EightIsIter(i);
  }

  lemma SplitIter(x: bv32, hi: bv32, lo: bv32, n: nat)
    requires x == Xor(hi, lo)
    ensures Iter(Shift, x, n) == Xor(Iter(Shift, hi, n), Iter(Shift, lo, n))
  {
    IterIsLinear(hi, lo, n);
  }

  /** One look-up does the work of eight steps. */
  lemma LookUpIsEight(x: bv32, n: nat)
    requires n == 8
    ensures Iter(Shift, x, n) == Xor(x >> 8, Table(x & 0xFF))
  {
    LowAndHigh(x);
    SplitIter(x, x & 0xFFFFFF00, x & 0xFF, n);
    HighIter(x, n);
    TableIter(x & 0xFF, n);
  }

  lemma SameHigh(c: bv32, b: bv8)
    ensures Xor(c, b as bv32) >> 8 == c >> 8 && Xor(c, b as bv32) & 0xFF < 256
  {
  }

  // ---- bit by bit ----

  /** v has no bits from n on. */
  predicate Fits(v: bv32, n: nat)
    decreases n
  {
    if n == 0 then v == 0 else Fits(v >> 1, n - 1)
  }

  lemma DropLow(v: bv32)
    ensures v == Xor(v & 1, v & 0xFFFFFFFE) && Shift(v & 0xFFFFFFFE) == v >> 1
  {
  }

  lemma XorAssoc(a: bv32, b: bv32, c: bv32)
    ensures Xor(a, Xor(b, c)) == Xor(Xor(a, b), c)
  {
    assert a ^ (b ^ c) == (a ^ b) ^ c;
  }

  /** Feeding the lowest bit of v leaves the rest of v to be fed. */
  lemma FeedBit(r: bv32, v: bv32)
    ensures Xor(BitStep(r, v & 1 == 1), v >> 1) == Shift(Xor(r, v))
  {
    DropLow(v);
    XorAssoc(r, v & 1, v & 0xFFFFFFFE);
    ShiftOfXor(Xor(r, v & 1), v & 0xFFFFFFFE);
    BitStepIs(r, v);
  }

  lemma BitStepIs(r: bv32, v: bv32)
    ensures BitStep(r, v & 1 == 1) == Shift(Xor(r, v & 1))
  {
    if v & 1 != 1 {
      assert v & 1 == 0;
      assert r ^ 0 == r;
    }
  }

  /** The bits of v, fed one by one, are as many steps of the register with v exclusive-ored into it. */
  lemma {:induction false} FeedBits(r: bv32, v: bv32, n: nat)
    requires Fits(v, n)
    ensures Register(r, BitsOf(v, n)) == Iter(Shift, Xor(r, v), n)
    decreases n
  {
    if n == 0 {
      assert Xor(r, 0) == r;
    } else {
      FeedBit(r, v);
      var s := BitStep(r, v & 1 == 1);
      FeedBits(s, v >> 1, n - 1);
      assert BitsOf(v, n)[1..] == BitsOf(v >> 1, n - 1);
    }
  }

  lemma {:induction false} RegisterAppends(c: bv32, a: seq<bool>, b: seq<bool>)
    ensures Register(c, a + b) == Register(Register(c, a), b)
    decreases a
  {
    if a == [] {
      assert a + b == b;
    } else {
      RegisterAppends(BitStep(c, a[0]), a[1..], b);
      assert (a + b)[1..] == a[1..] + b;
    }
  }

  lemma {:induction false} FlatAppends<T>(bits: T -> seq<bool>, a: seq<T>, b: seq<T>)
    ensures Flat(bits, a + b) == Flat(bits, a) + Flat(bits, b)
  {
    if a == [] {
      assert a + b == b;
    } else {
      FlatAppends(bits, a[1..], b);
      assert (a + b)[1..] == a[1..] + b;
    }
  }

  lemma ByteFits(b: bv8)
    ensures Fits(b as bv32, 8)
  {
  }

  /** The register after a byte, by the table. */
  function LookUp(c: bv32, b: bv8): bv32 {
    Xor(c >> 8, Table(Xor(c, b as bv32) & 0xFF))
  }

  lemma FedBits(c: bv32, v: bv32, n: nat)
    requires n == 8 && Fits(v, n)
    ensures Register(c, BitsOf(v, n)) == ByTable(Xor(c, v))
  {
    FeedBits(c, v, n);
    IsByTable(Register(c, BitsOf(v, n)), Xor(c, v), n);
  }

  function ByTable(x: bv32): bv32 {
    Xor(x >> 8, Table(x & 0xFF))
  }

  lemma IsByTable(r: bv32, x: bv32, n: nat)
    requires n == 8 && r == Iter(Shift, x, n)
    ensures r == ByTable(x)
  {
    LookUpIsEight(x, n);
  }

  lemma OneByte(c: bv32, b: bv8)
    ensures Register(c, ByteBits(b)) == LookUp(c, b)
  {
    ByteFits(b);
    FedBits(c, b as bv32, 8);
    SameHigh(c, b);
  }

  /** One byte through the table is its eight bits through the register. */
  lemma ByteStep(start: bv32, done: seq<bv8>, b: bv8)
    ensures Register(start, Bits(done + [b])) == LookUp(Register(start, Bits(done)), b)
  {
    FlatAppends(ByteBits, done, [b]);
    FlatOne(ByteBits, b);
    RegisterAppends(start, Bits(done), ByteBits(b));
    OneByte(Register(start, Bits(done)), b);
  }

  lemma FlatOne<T>(bits: T -> seq<bool>, x: T)
    ensures Flat(bits, [x]) == bits(x)
  {
    assert Flat(bits, [x]) == bits(x) + Flat(bits, []);
  }

  // ---- the loop ----

  method NextCrc(crc: bv32, b: bv8) returns (r: bv32)
    ensures r == LookUp(crc, b)
  {
    var idx := Xor(crc, b as bv32) & 0xFF;
    r := Xor(crc >> 8, Table(idx));
  }

  method TableCrc(data: seq<bv8>) returns (crc: bv32)
    ensures crc == Crc(data)
  {
    crc := 0xFFFFFFFF;
    for i := 0 to |data|
      invariant crc == Register(0xFFFFFFFF, Bits(data[..i]))
    {
      ByteStep(0xFFFFFFFF, data[..i], data[i]);
      assert data[..i + 1] == data[..i] + [data[i]];
      crc := NextCrc(crc, data[i]);
    }
    assert data[..|data|] == data;
    crc := Xor(crc, 0xFFFFFFFF);
  }

  // ---- the CRC as it is known ----

  /** The register after bytes through the table. */
  function LookUps(c: bv32, bytes: seq<bv8>): bv32
    decreases |bytes|
  {
    if bytes == [] then c else LookUps(LookUp(c, bytes[0]), bytes[1..])
  }

  lemma {:induction false} RegisterIsLookUps(start: bv32, done: seq<bv8>, bytes: seq<bv8>)
    ensures Register(start, Bits(done + bytes)) == LookUps(Register(start, Bits(done)), bytes)
    decreases |bytes|
  {
    if bytes == [] {
      assert done + bytes == done;
    } else {
      ByteStep(start, done, bytes[0]);
      RegisterIsLookUps(start, done + [bytes[0]], bytes[1..]);
      assert done + [bytes[0]] + bytes[1..] == done + bytes;
    }
  }

  /** A look-up with a known entry. */
  lemma LookUpAt(c: bv32, b: bv8, i: bv32, t: bv32)
    requires Xor(c, b as bv32) & 0xFF == i && Table(i) == t
    ensures LookUp(c, b) == Xor(c >> 8, t)
  {
  }

  lemma NextLookUp(c: bv32, b: bv8, bytes: seq<bv8>, i: bv32, t: bv32, c': bv32)
    requires bytes != [] && bytes[0] == b && Xor(c, b as bv32) & 0xFF == i && Table(i) == t && c' == Xor(c >> 8, t)
    ensures LookUps(c, bytes) == LookUps(c', bytes[1..])
  {
    LookUpAt(c, b, i, t);
  }

  lemma Check123(bytes: seq<bv8>)
    requires |bytes| == 9 && bytes[0] == 0x31 && bytes[1] == 0x32 && bytes[2] == 0x33
    ensures LookUps(0xFFFFFFFF, bytes[0..]) == LookUps(0x77B79C2D, bytes[3..])
  {
    NextLookUp(0xFFFFFFFF, 0x31, bytes[0..], 0xCE, 0x7CDCEFB7, 0x7C231048);
    NextLookUp(0x7C231048, 0x32, bytes[1..], 0x7A, 0xB0D09822, 0xB0ACBB32);
    NextLookUp(0xB0ACBB32, 0x33, bytes[2..], 0x01, 0x77073096, 0x77B79C2D);
  }

  lemma Check456(bytes: seq<bv8>)
    requires |bytes| == 9 && bytes[3] == 0x34 && bytes[4] == 0x35 && bytes[5] == 0x36
    ensures LookUps(0x77B79C2D, bytes[3..]) == LookUps(0xF68D2C9E, bytes[6..])
  {
    NextLookUp(0x77B79C2D, 0x34, bytes[3..], 0x19, 0x646BA8C0, 0x641C1F5C);
    NextLookUp(0x641C1F5C, 0x35, bytes[4..], 0x69, 0x346ED9FC, 0x340AC5E3);
    NextLookUp(0x340AC5E3, 0x36, bytes[5..], 0xD5, 0xF6B9265B, 0xF68D2C9E);
  }

  lemma Check789(bytes: seq<bv8>)
    requires |bytes| == 9 && bytes[6] == 0x37 && bytes[7] == 0x38 && bytes[8] == 0x39
    ensures LookUps(0xF68D2C9E, bytes[6..]) == LookUps(0x340BC6D9, bytes[9..])
  {
    NextLookUp(0xF68D2C9E, 0x37, bytes[6..], 0xA9, 0xAF0A1B4C, 0xAFFC9660);
    NextLookUp(0xAFFC9660, 0x38, bytes[7..], 0x58, 0x65B0D9C6, 0x651F2550);
    NextLookUp(0x651F2550, 0x39, bytes[8..], 0x69, 0x346ED9FC, 0x340BC6D9);
  }

  /** The check value: the CRC of the text 123456789. */
  lemma CheckValue(bytes: seq<bv8>)
    requires bytes == [0x31, 0x32, 0x33, 0x34, 0x35, 0x36, 0x37, 0x38, 0x39]
    ensures Crc(bytes) == 0xCBF43926
  {
    RegisterIsLookUps(0xFFFFFFFF, [], bytes);
    Check123(bytes);
    Check456(bytes);
    Check789(bytes);
    assert bytes[0..] == [] + bytes == bytes;
  }

  // ---- the residue ----

  function LowByte(v: bv32): (b: bv8)
    ensures b as bv32 == v & 0xFF
  {
    (v & 0xFF) as bv8
  }

  /** The word without its low byte. */
  function Lower(v: bv32): bv32 {
    v >> 8
  }

  /** The n low bytes of a word, lowest first. */
  function Bytes(v: bv32, n: nat): (b: seq<bv8>)
    ensures |b| == n
    decreases n
  {
    if n == 0 then [] else [LowByte(v)] + Bytes(Lower(v), n - 1)
  }

  /** x moved down n bytes. */
  function Down(x: bv32, n: nat): bv32
    decreases n
  {
    if n == 0 then x else Down(Lower(x), n - 1)
  }

  /** What n look-ups with index 0xFF, taken before m is put in, add to a register. */
  function Added(m: bv32, n: nat): bv32
    decreases n
  {
    if n == 0 then m else Added(Xor(Lower(m), Table(Xor(m, 0xFF) & 0xFF)), n - 1)
  }

  lemma IndexIs(x: bv32, m: bv32, f: bv32, v: bv32)
    requires v == (x ^ f) & 0xFF && f & 0xFF == 0xFF
    ensures ((x ^ m) ^ v) & 0xFF == (m ^ 0xFF) & 0xFF
  {
  }

  lemma DownBits(x: bv32, m: bv32)
    ensures (x ^ m) >> 8 == (x >> 8) ^ (m >> 8)
  {
  }

  lemma DownBoth(x: bv32, m: bv32)
    ensures Lower(Xor(x, m)) == Xor(Lower(x), Lower(m))
  {
    DownBits(x, m);
  }

  /** f has ones in its n low bytes. */
  predicate Ones(f: bv32, n: nat)
    decreases n
  {
    n == 0 || (f & 0xFF == 0xFF && Ones(Lower(f), n - 1))
  }

  lemma OwnIndex(x: bv32, m: bv32, f: bv32, b: bv8)
    requires b == LowByte(Xor(x, f)) && f & 0xFF == 0xFF
    ensures Xor(Xor(x, m), b as bv32) & 0xFF == Xor(m, 0xFF) & 0xFF
  {
    IndexIs(x, m, f, b as bv32);
  }

  lemma FeedAt(y: bv32, k: bv32, l: bv32, b: bv8, i: bv32, t: bv32)
    requires Xor(y, b as bv32) & 0xFF == i && Table(i) == t && Lower(y) == Xor(k, l)
    ensures LookUp(y, b) == Xor(k, Xor(l, t))
  {
    LookUpAt(y, b, i, t);
    XorAssoc(k, l, t);
  }

  /** Feeding a register the complement of its own low byte: what comes in does not depend on it. */
  lemma FeedOwnByte(x: bv32, m: bv32, f: bv32, b: bv8, i: bv32)
    requires b == LowByte(Xor(x, f)) && f & 0xFF == 0xFF && i == Xor(m, 0xFF) & 0xFF
    ensures LookUp(Xor(x, m), b) == Xor(Lower(x), Xor(Lower(m), Table(i)))
  {
    OwnIndex(x, m, f, b);
    DownBoth(x, m);
    FeedAt(Xor(x, m), Lower(x), Lower(m), b, i, Table(i));
  }

  lemma {:induction false} FeedOwnBytes(x: bv32, m: bv32, f: bv32, n: nat)
    requires Ones(f, n)
    ensures LookUps(Xor(x, m), Bytes(Xor(x, f), n)) == Xor(Down(x, n), Added(m, n))
    decreases n
  {
    if n > 0 {
      var bytes := Bytes(Xor(x, f), n);
      FeedOwnByte(x, m, f, bytes[0], Xor(m, 0xFF) & 0xFF);
      DownBoth(x, f);
      FeedOwnBytes(Lower(x), Xor(Lower(m), Table(Xor(m, 0xFF) & 0xFF)), Lower(f), n - 1);
      assert bytes[1..] == Bytes(Lower(Xor(x, f)), n - 1);
    }
  }

  lemma AllDown(r: bv32, n: nat, f: bv32)
    requires n == 4 && f == 0xFFFFFFFF
    ensures Down(r, n) == 0 && Ones(f, n) && Xor(r, 0) == r
  {
  }

  lemma AddOne(m: bv32, n: nat, i: bv32, t: bv32, m': bv32)
    requires n > 0 && Xor(m, 0xFF) & 0xFF == i && Table(i) == t && m' == Xor(Lower(m), t)
    ensures Added(m, n) == Added(m', n - 1)
  {
  }

  lemma AddTwo(n: nat)
    requires n == 4
    ensures Added(0, n) == Added(0xBE2612FF, n - 2)
  {
    AddOne(0, n, 0xFF, 0x2D02EF8D, 0x2D02EF8D);
    AddOne(0x2D02EF8D, n - 1, 0x72, 0xBE0B1010, 0xBE2612FF);
  }

  lemma AddRest(n: nat)
    requires n == 2
    ensures Added(0xBE2612FF, n) == 0xDEBB20E3
  {
    AddOne(0xBE2612FF, n, 0x00, 0x00000000, 0x00BE2612);
    AddOne(0x00BE2612, n - 1, 0xED, 0xDEBB9EC5, 0xDEBB20E3);
  }

  lemma FeedComplement(r: bv32, n: nat)
    requires n == 4
    ensures LookUps(r, Bytes(Xor(r, 0xFFFFFFFF), n)) == Xor(0, Added(0, n))
  {
    AllDown(r, n, 0xFFFFFFFF);
    FeedOwnBytes(r, 0, 0xFFFFFFFF, n);
  }

  lemma AddedInAll(n: nat)
    requires n == 4
    ensures Xor(0, Added(0, n)) == 0xDEBB20E3
  {
    AddTwo(n);
    AddRest(n - 2);
  }

  lemma ResidueOf(data: seq<bv8>, n: nat)
    requires n == 4
    ensures Register(0xFFFFFFFF, Bits(data + Bytes(Crc(data), n))) == 0xDEBB20E3
  {
    FeedComplement(Register(0xFFFFFFFF, Bits(data)), n);
    AddedInAll(n);
    RegisterIsLookUps(0xFFFFFFFF, data, Bytes(Crc(data), n));
  }

  /** Data followed by the four bytes of its CRC, lowest first, always leaves the same register. */
  lemma Residue(data: seq<bv8>)
    ensures Register(0xFFFFFFFF, Bits(data + Bytes(Crc(data), 4))) == 0xDEBB20E3
  {
    ResidueOf(data, 4);
  }
}
