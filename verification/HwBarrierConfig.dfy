/** The generator of the hardware barrier's configuration words (bsg_hw_barrier_config_init.h).

    Every tile of a tile group gets a word: bit d says that it waits for an input from direction
    d, and the bits from OUTDIR_OFFSET up say which way it sends its own signal on. */
module HwBarrierConfig {
  import opened Arithmetic

  /** Directions, in the order of their codes. P is the tile's own processor. */
  datatype Dir = P | W | E | N | S | RW | RE | Root

  function Code(d: Dir): bv32 {
    match d
    case P => 0
    case W => 1
    case E => 2
    case N => 3
    case S => 4
    case RW => 5
    case RE => 6
    case Root => 7
  }

  const OUTDIR_OFFSET: bv6 := 16

  predicate HasInput(word: bv32, d: Dir) {
    match d
    case P => word & 1 != 0
    case W => word & 2 != 0
    case E => word & 4 != 0
    case N => word & 8 != 0
    case S => word & 16 != 0
    case RW => word & 32 != 0
    case RE => word & 64 != 0
    case Root => word & 128 != 0
  }

  predicate SendsTo(word: bv32, d: Dir) {
    word >> OUTDIR_OFFSET == Code(d)
  }

  /** tx, ty: dimensions of the tile group; ruche: BARRIER_RUCHE_FACTOR_X. */
  datatype Group = Group(tx: nat, ty: nat, ruche: nat)

  predicate GroupOk(g: Group) {
    g.tx >= 1 && g.ty >= 1 && g.ruche >= 1
  }

  predicate InGroup(g: Group, x: int, y: int) {
    0 <= x < g.tx && 0 <= y < g.ty
  }

  // ---- the tree ----

  /** The tile at the other end of the link in direction d. */
  function Neighbour(g: Group, x: int, y: int, d: Dir): (int, int) {
    match d
    case W => (x - 1, y)
    case E => (x + 1, y)
    case N => (x, y - 1)
    case S => (x, y + 1)
    case RW => (x - g.ruche, y)
    case RE => (x + g.ruche, y)
    case P => (x, y)
    case Root => (x, y)
  }

  function Opposite(d: Dir): Dir {
    match d
    case W => E
    case E => W
    case N => S
    case S => N
    case RW => RE
    case RE => RW
    case P => P
    case Root => Root
  }

  predicate IsLink(d: Dir) {
    d != P && d != Root
  }

  predicate IsCenter(g: Group, x: int, y: int) {
    x == g.tx / 2 && y == g.ty / 2
  }

  /** How far a tile is from the center tile. */
  function Distance(g: Group, x: int, y: int): (n: nat) {
    var dx, dy := x - g.tx / 2, y - g.ty / 2;
    (if dx < 0 then -dx else dx) + (if dy < 0 then -dy else dy)
  }

  /** A tile sends along its row to the center column, by the long links while they do not
      overshoot, and along the center column to the center tile. */
  function Output(g: Group, x: int, y: int): Dir {
    var dx, dy := x - g.tx / 2, y - g.ty / 2;
    if dx + g.ruche <= 0 then RE
    else if dx < 0 then E
    else if dx >= g.ruche && dx > 0 then RW
    else if dx > 0 then W
    else if dy < 0 then S
    else if dy > 0 then N
    else Root
  }

  /** There is a tile in direction d and it sends this way. */
  predicate Incoming(g: Group, x: int, y: int, d: Dir) {
    var (u, v) := Neighbour(g, x, y, d);
    IsLink(d) && InGroup(g, u, v) && Output(g, u, v) == Opposite(d)
  }

  /** The number of the port a tile sends to, in bits 16 and up, from where the center is. */
  function OutputBits(g: Group, x: int, y: int): bv32 {
    var dx, dy := x - g.tx / 2, y - g.ty / 2;
    if dx < 0 then (if -dx < g.ruche then 0x2_0000 else 0x6_0000)
    else if dx > 0 then (if dx < g.ruche then 0x1_0000 else 0x5_0000)
    else if dy < 0 then 0x4_0000
    else if dy > 0 then 0x3_0000
    else 0x7_0000
  }

  /** The bit of an input: 2 to the number of its port. */
  function InputBits(g: Group, x: int, y: int, d: Dir, bit: bv32): bv32 {
    if Incoming(g, x, y, d) then bit else 0
  }

  /** The ports are 0 for the processor, 1 W, 2 E, 3 N, 4 S, 5 RW, 6 RE and 7 for the root. */
  function WordValue(g: Group, x: int, y: int): bv32 {
    OutputBits(g, x, y) | 0x01
    | InputBits(g, x, y, W, 0x02) | InputBits(g, x, y, E, 0x04) | InputBits(g, x, y, N, 0x08)
    | InputBits(g, x, y, S, 0x10) | InputBits(g, x, y, RW, 0x20) | InputBits(g, x, y, RE, 0x40)
  }

  /** The word sends where the tile must send, waits for the processor and for exactly those
      neighbours that send to this tile. */
  ghost predicate WordOk(g: Group, x: int, y: int, word: bv32) {
    && SendsTo(word, Output(g, x, y))
    && (forall d :: HasInput(word, d) <==> d == P || Incoming(g, x, y, d))
    && word & 0xFF00 == 0
  }

  // ---- the generator ----

  lemma ValueSends(g: Group, x: int, y: int)
    requires GroupOk(g)
    ensures SendsTo(WordValue(g, x, y), Output(g, x, y))
  {
  }

  lemma ValueWaits(g: Group, x: int, y: int, d: Dir)
    ensures HasInput(WordValue(g, x, y), d) <==> d == P || Incoming(g, x, y, d)
  {
  }

  lemma ValueHasNoMore(g: Group, x: int, y: int)
    ensures WordValue(g, x, y) & 0xFF00 == 0
  {
  }

  lemma ValueOk(g: Group, x: int, y: int)
    requires GroupOk(g)
    ensures WordOk(g, x, y, WordValue(g, x, y))
  {
    ValueHasNoMore(g, x, y);
    ValueSends(g, x, y);
    forall d ensures HasInput(WordValue(g, x, y), d) <==> d == P || Incoming(g, x, y, d) {
      ValueWaits(g, x, y, d);
    }
  }

  /** What the conditions of the generator find is what the neighbours send. */
  lemma RowInputs(g: Group, x: int, y: int)
    requires GroupOk(g) && InGroup(g, x, y)
    ensures Incoming(g, x, y, W) <==> g.tx / 2 - x < g.ruche - 1 && x <= g.tx / 2 && x > 0
    ensures Incoming(g, x, y, RW) <==> x - g.ruche >= 0 && x <= g.tx / 2
    ensures Incoming(g, x, y, E) <==> x - g.tx / 2 < g.ruche - 1 && x >= g.tx / 2 && x < g.tx - 1
    ensures Incoming(g, x, y, RE) <==> x + g.ruche < g.tx && x >= g.tx / 2
  {
  }

  lemma ColumnInputs(g: Group, x: int, y: int)
    requires GroupOk(g) && InGroup(g, x, y)
    ensures Incoming(g, x, y, N) <==> x == g.tx / 2 && y > 0 && y <= g.ty / 2
    ensures Incoming(g, x, y, S) <==> x == g.tx / 2 && y < g.ty - 1 && y >= g.ty / 2
  {
  }

  method TileWord(g: Group, x: int, y: int) returns (val: bv32)
    requires GroupOk(g) && InGroup(g, x, y)
    ensures WordOk(g, x, y, val) && val == WordValue(g, x, y)
  {
    var centerX, centerY := g.tx / 2, g.ty / 2;
    val := 1;
    if x <= centerX - g.ruche {
      val := val | (6 << OUTDIR_OFFSET);
    } else if x < centerX && x > centerX - g.ruche {
      val := val | (2 << OUTDIR_OFFSET);
    } else if x == centerX {
      if y < centerY {
        val := val | (4 << OUTDIR_OFFSET);
      } else if y == centerY {
        val := val | (7 << OUTDIR_OFFSET);
      } else {
        val := val | (3 << OUTDIR_OFFSET);
      }
    } else if x > centerX && x < centerX + g.ruche {
      val := val | (1 << OUTDIR_OFFSET);
    } else {
      val := val | (5 << OUTDIR_OFFSET);
    }
    RowInputs(g, x, y);
    ColumnInputs(g, x, y);

    if centerX - x < g.ruche - 1 && x <= centerX && x > 0 {
      val := val | (1 << 1);
    }
    if x - g.ruche >= 0 && x <= centerX {
      val := val | (1 << 5);
    }
    if x - centerX < g.ruche - 1 && x >= centerX && x < g.tx - 1 {
      val := val | (1 << 2);
    }
    if x + g.ruche < g.tx && x >= centerX {
      val := val | (1 << 6);
    }
    if x == centerX {
      if y > 0 && y <= centerY {
        val := val | (1 << 3);
      }
      if y < g.ty - 1 && y >= centerY {
        val := val | (1 << 4);
      }
    }
    ValueOk(g, x, y);
  }

  /** Where the word of tile (x, y) is kept. */
  function Id(g: Group, x: int, y: int): int {
    x + y * g.tx
  }

  lemma IdInRange(g: Group, x: int, y: int)
    requires GroupOk(g) && InGroup(g, x, y)
    ensures 0 <= Id(g, x, y) < g.tx * g.ty
  {
    MulBound(y, g.tx);
    MulBound(g.ty - 1 - y, g.tx);
    assert g.tx * g.ty == (g.ty - 1 - y) * g.tx + y * g.tx + g.tx;
  }

  lemma IdInjective(g: Group, x: int, y: int, u: int, v: int)
    requires GroupOk(g) && InGroup(g, x, y) && InGroup(g, u, v) && Id(g, x, y) == Id(g, u, v)
    ensures x == u && y == v
  {
    DivModIs(Id(g, x, y), g.tx, y, x);
    DivModIs(Id(g, x, y), g.tx, v, u);
  }

  ghost predicate Configured(g: Group, words: seq<bv32>)
    requires GroupOk(g)
  {
    && |words| >= g.tx * g.ty
    && (forall x, y :: InGroup(g, x, y) ==>
          0 <= Id(g, x, y) < g.tx * g.ty && WordOk(g, x, y, words[Id(g, x, y)]))
  }

  method ConfigInit(arr: array<bv32>, g: Group)
    requires GroupOk(g) && arr.Length >= g.tx * g.ty
    modifies arr
    ensures Configured(g, arr[..])
    ensures arr[g.tx * g.ty..] == old(arr[g.tx * g.ty..])
  {
    ghost var n := g.tx * g.ty;
    var x := 0;
    while x < g.tx
      invariant 0 <= x <= g.tx
      invariant arr[n..] == old(arr[n..])
      invariant forall u, v :: InGroup(g, u, v) && u < x ==> 0 <= Id(g, u, v) < n && WordOk(g, u, v, arr[Id(g, u, v)])
    {
      var y := 0;
      while y < g.ty
        invariant 0 <= y <= g.ty
        invariant arr[n..] == old(arr[n..])
        invariant forall u, v :: InGroup(g, u, v) && (u < x || (u == x && v < y)) ==>
          0 <= Id(g, u, v) < n && WordOk(g, u, v, arr[Id(g, u, v)])
      {
        var id := x + y * g.tx;
        IdInRange(g, x, y);
        var val := TileWord(g, x, y);
        forall u, v | InGroup(g, u, v) && (u < x || (u == x && v < y)) ensures Id(g, u, v) != id {
          if Id(g, u, v) == id {
            IdInjective(g, u, v, x, y);
          }
        }
        arr[id] := val;
        y := y + 1;
      }
      x := x + 1;
    }
  }

  lemma WordFrom(g: Group, x: int, y: int, out: bv32, w: bv32, e: bv32, n: bv32, s: bv32, rw: bv32, re: bv32)
    requires OutputBits(g, x, y) == out
    requires InputBits(g, x, y, W, 0x02) == w && InputBits(g, x, y, E, 0x04) == e && InputBits(g, x, y, N, 0x08) == n
    requires InputBits(g, x, y, S, 0x10) == s
    requires InputBits(g, x, y, RW, 0x20) == rw && InputBits(g, x, y, RE, 0x40) == re
    ensures WordValue(g, x, y) == out | 0x01 | w | e | n | s | rw | re
  {
  }

  lemma SameBits(word: bv32, word': bv32)
    requires word >> 16 == word' >> 16 && word & 0xFF00 == word' & 0xFF00
    requires word & 1 == word' & 1 && word & 2 == word' & 2 && word & 4 == word' & 4 && word & 8 == word' & 8
    requires word & 16 == word' & 16 && word & 32 == word' & 32 && word & 64 == word' & 64 && word & 128 == word' & 128
    ensures word == word'
  {
  }

  /** No other word will do. */
  lemma WordIsValue(g: Group, x: int, y: int, word: bv32)
    requires GroupOk(g) && WordOk(g, x, y, word)
    ensures word == WordValue(g, x, y)
  {
    ValueOk(g, x, y);
    var value := WordValue(g, x, y);
    assert forall d :: HasInput(word, d) <==> HasInput(value, d);
    SameInputs(word, value);
    SameBits(word, value);
  }

  lemma OneBit(word: bv32, word': bv32, m: bv32)
    requires m in {1, 2, 4, 8, 16, 32, 64, 128} && (word & m != 0 <==> word' & m != 0)
    ensures word & m == word' & m
  {
  }

  lemma SameInputs(word: bv32, word': bv32)
    requires forall d :: HasInput(word, d) <==> HasInput(word', d)
    ensures word & 1 == word' & 1 && word & 2 == word' & 2 && word & 4 == word' & 4 && word & 8 == word' & 8
    ensures word & 16 == word' & 16 && word & 32 == word' & 32 && word & 64 == word' & 64 && word & 128 == word' & 128
  {
    assert HasInput(word, P) <==> HasInput(word', P);
    assert HasInput(word, W) <==> HasInput(word', W);
    assert HasInput(word, E) <==> HasInput(word', E);
    assert HasInput(word, N) <==> HasInput(word', N);
    assert HasInput(word, S) <==> HasInput(word', S);
    assert HasInput(word, RW) <==> HasInput(word', RW);
    assert HasInput(word, RE) <==> HasInput(word', RE);
    assert HasInput(word, Root) <==> HasInput(word', Root);
    OneBit(word, word', 1);
    OneBit(word, word', 2);
    OneBit(word, word', 4);
    OneBit(word, word', 8);
    OneBit(word, word', 16);
    OneBit(word, word', 32);
    OneBit(word, word', 64);
    OneBit(word, word', 128);
  }

  /** The words are kept row by row. */
  lemma WordOfTile(g: Group, words: seq<bv32>, x: int, y: int)
    requires GroupOk(g) && Configured(g, words) && InGroup(g, x, y)
    ensures 0 <= x + y * g.tx < |words| && words[x + y * g.tx] == WordValue(g, x, y)
  {
    assert Id(g, x, y) == x + y * g.tx;
    WordIsValue(g, x, y, words[Id(g, x, y)]);
  }

  /** The word of a single tile. */
  lemma KnownSingle()
    ensures WordValue(Group(1, 1, 1), 0, 0) == 0x7_0001
  {
    WordFrom(Group(1, 1, 1), 0, 0, 0x7_0000, 0x00, 0x00, 0x00, 0x00, 0x00, 0x00);
  }

  /** In 16 by 8 tiles with long links over 3, a tile for each way out along a row .. */
  lemma KnownInRow()
    ensures WordValue(Group(16, 8, 3), 9, 0) == 0x1_0045
    ensures WordValue(Group(16, 8, 3), 7, 0) == 0x2_0023
    ensures WordValue(Group(16, 8, 3), 15, 0) == 0x5_0001
    ensures WordValue(Group(16, 8, 3), 0, 4) == 0x6_0001
  {
    WordFrom(Group(16, 8, 3), 9, 0, 0x1_0000, 0x00, 0x04, 0x00, 0x00, 0x00, 0x40);
    WordFrom(Group(16, 8, 3), 7, 0, 0x2_0000, 0x02, 0x00, 0x00, 0x00, 0x20, 0x00);
    WordFrom(Group(16, 8, 3), 15, 0, 0x5_0000, 0x00, 0x00, 0x00, 0x00, 0x00, 0x00);
    WordFrom(Group(16, 8, 3), 0, 4, 0x6_0000, 0x00, 0x00, 0x00, 0x00, 0x00, 0x00);
  }

  /** .. and along the center column. */
  lemma KnownInColumn()
    ensures WordValue(Group(16, 8, 3), 8, 7) == 0x3_0067
    ensures WordValue(Group(16, 8, 3), 8, 0) == 0x4_0067
    ensures WordValue(Group(16, 8, 3), 8, 4) == 0x7_007F
  {
    WordFrom(Group(16, 8, 3), 8, 7, 0x3_0000, 0x02, 0x04, 0x00, 0x00, 0x20, 0x40);
    WordFrom(Group(16, 8, 3), 8, 0, 0x4_0000, 0x02, 0x04, 0x00, 0x00, 0x20, 0x40);
    WordFrom(Group(16, 8, 3), 8, 4, 0x7_0000, 0x02, 0x04, 0x08, 0x10, 0x20, 0x40);
  }

  // ---- the words make a tree ----

  /** A tile other than the center sends to a tile of the group that is nearer to the center and
      waits for it. */
  lemma OutputGoesNearer(g: Group, x: int, y: int)
    requires GroupOk(g) && InGroup(g, x, y)
    ensures IsCenter(g, x, y) <==> Output(g, x, y) == Root
    ensures !IsCenter(g, x, y) ==>
      var (u, v) := Neighbour(g, x, y, Output(g, x, y));
      && InGroup(g, u, v) && Distance(g, u, v) < Distance(g, x, y)
      && Neighbour(g, u, v, Opposite(Output(g, x, y))) == (x, y)
      && Incoming(g, u, v, Opposite(Output(g, x, y)))
  {
  }

  lemma IncomingIsFurther(g: Group, x: int, y: int, d: Dir)
    requires GroupOk(g) && InGroup(g, x, y) && Incoming(g, x, y, d)
    ensures
      var (u, v) := Neighbour(g, x, y, d);
      Distance(g, x, y) < Distance(g, u, v) && Neighbour(g, u, v, Output(g, u, v)) == (x, y)
  {
  }

  lemma DistanceBound(g: Group, x: int, y: int)
    requires GroupOk(g) && InGroup(g, x, y)
    ensures Distance(g, x, y) <= g.tx + g.ty
  {
  }

  /** The tiles a signal passes from (x, y) on. */
  function Path(g: Group, x: int, y: int): (p: seq<(int, int)>)
    requires GroupOk(g) && InGroup(g, x, y)
    ensures |p| >= 1 && p[0] == (x, y)
    decreases Distance(g, x, y)
  {
    if IsCenter(g, x, y) then [(x, y)]
    else
      OutputGoesNearer(g, x, y);
      var (u, v) := Neighbour(g, x, y, Output(g, x, y));
      [(x, y)] + Path(g, u, v)
  }

  function Abs(n: int): nat {
    if n < 0 then -n else n
  }

  /** Links needed for d columns: long ones of r columns while they fit, then short ones. */
  function Hops(d: nat, r: nat): nat
    requires r >= 1
  {
    d / r + d % r
  }

  lemma HopLong(d: nat, r: nat)
    requires 1 <= r <= d
    ensures Hops(d, r) == 1 + Hops(d - r, r)
  {
    DivModIs(d - r, r, d / r - 1, d % r);
  }

  lemma HopShort(d: nat, r: nat)
    requires d < r
    ensures Hops(d, r) == d
  {
    DivModIs(d, r, 0, d);
  }

  /** One output takes one link off the way. */
  lemma OutputTakesOneHop(g: Group, x: int, y: int)
    requires GroupOk(g) && InGroup(g, x, y) && !IsCenter(g, x, y)
    ensures
      var (u, v) := Neighbour(g, x, y, Output(g, x, y));
      Hops(Abs(x - g.tx / 2), g.ruche) + Abs(y - g.ty / 2) == 1 + Hops(Abs(u - g.tx / 2), g.ruche) + Abs(v - g.ty / 2)
  {
    var dx := Abs(x - g.tx / 2);
    if dx >= g.ruche {
      HopLong(dx, g.ruche);
    } else if dx > 0 {
      HopShort(dx, g.ruche);
      HopShort(dx - 1, g.ruche);
    }
  }

  /** From every tile the outputs lead to the center tile, in as many hops as there are long
      links, left-over short links and rows on the way. */
  lemma {:induction false} EveryTileReachesRoot(g: Group, x: int, y: int)
    requires GroupOk(g) && InGroup(g, x, y)
    ensures
      var p := Path(g, x, y);
      && p[|p| - 1] == (g.tx / 2, g.ty / 2)
      && |p| == 1 + Hops(Abs(x - g.tx / 2), g.ruche) + Abs(y - g.ty / 2)
    decreases Distance(g, x, y)
  {
    if IsCenter(g, x, y) {
      HopShort(0, g.ruche);
    } else {
      OutputGoesNearer(g, x, y);
      OutputTakesOneHop(g, x, y);
      var (u, v) := Neighbour(g, x, y, Output(g, x, y));
      EveryTileReachesRoot(g, u, v);
    }
  }

  lemma OneDirection(word: bv32, d: Dir, e: Dir)
    requires SendsTo(word, d)
    ensures SendsTo(word, e) <==> d == e
  {
  }

  lemma SendsIff(g: Group, words: seq<bv32>, x: int, y: int, e: Dir)
    requires GroupOk(g) && Configured(g, words) && InGroup(g, x, y)
    ensures 0 <= Id(g, x, y) < |words| && (SendsTo(words[Id(g, x, y)], e) <==> Output(g, x, y) == e)
  {
    assert WordOk(g, x, y, words[Id(g, x, y)]);
    OneDirection(words[Id(g, x, y)], Output(g, x, y), e);
  }

  ghost predicate NeighbourSends(g: Group, words: seq<bv32>, x: int, y: int, d: Dir)
    requires GroupOk(g) && Configured(g, words)
  {
    var (u, v) := Neighbour(g, x, y, d);
    InGroup(g, u, v) && SendsTo(words[Id(g, u, v)], Opposite(d))
  }

  lemma InputIffIncoming(g: Group, words: seq<bv32>, x: int, y: int, d: Dir)
    requires GroupOk(g) && Configured(g, words) && InGroup(g, x, y) && IsLink(d)
    ensures HasInput(words[Id(g, x, y)], d) <==> Incoming(g, x, y, d)
  {
    assert WordOk(g, x, y, words[Id(g, x, y)]);
  }

  lemma SendsIffIncoming(g: Group, words: seq<bv32>, x: int, y: int, d: Dir)
    requires GroupOk(g) && Configured(g, words) && IsLink(d)
    ensures NeighbourSends(g, words, x, y, d) <==> Incoming(g, x, y, d)
  {
    var (u, v) := Neighbour(g, x, y, d);
    if InGroup(g, u, v) {
      SendsIff(g, words, u, v, Opposite(d));
    }
  }

  /** By the words alone: a tile waits for the neighbour on a side exactly when there is one and
      its word sends this way. */
  lemma InputIffNeighbourSends(g: Group, words: seq<bv32>, x: int, y: int, d: Dir)
    requires GroupOk(g) && Configured(g, words) && InGroup(g, x, y) && IsLink(d)
    ensures HasInput(words[Id(g, x, y)], d) <==> NeighbourSends(g, words, x, y, d)
  {
    InputIffIncoming(g, words, x, y, d);
    SendsIffIncoming(g, words, x, y, d);
  }

  /** Exactly one word is the root's. */
  lemma OneRoot(g: Group, words: seq<bv32>, x: int, y: int)
    requires GroupOk(g) && Configured(g, words) && InGroup(g, x, y)
    ensures SendsTo(words[Id(g, x, y)], Root) <==> IsCenter(g, x, y)
  {
    SendsIff(g, words, x, y, Root);
    OutputGoesNearer(g, x, y);
  }

  // ---- the barrier ----

  /** Tile (x, y) signals: its processor has arrived and every input its word waits for does. */
  ghost predicate Signals(g: Group, words: seq<bv32>, arrived: set<(int, int)>, x: int, y: int)
    requires GroupOk(g) && Configured(g, words) && InGroup(g, x, y)
    decreases g.tx + g.ty - Distance(g, x, y)
  {
    && (x, y) in arrived
    && (forall d | IsLink(d) && HasInput(words[Id(g, x, y)], d) ::
          InputSignals(g, words, arrived, x, y, d))
  }

  ghost predicate InputSignals(g: Group, words: seq<bv32>, arrived: set<(int, int)>, x: int, y: int, d: Dir)
    requires GroupOk(g) && Configured(g, words) && InGroup(g, x, y)
    requires IsLink(d) && HasInput(words[Id(g, x, y)], d)
    decreases g.tx + g.ty - Distance(g, x, y), 0
  {
    assert WordOk(g, x, y, words[Id(g, x, y)]);
    IncomingIsFurther(g, x, y, d);
    var (u, v) := Neighbour(g, x, y, d);
    DistanceBound(g, u, v);
    Signals(g, words, arrived, u, v)
  }

  lemma {:induction false} AllArrivedSignals(g: Group, words: seq<bv32>, arrived: set<(int, int)>, x: int, y: int)
    requires GroupOk(g) && Configured(g, words) && InGroup(g, x, y)
    requires forall u, v :: InGroup(g, u, v) ==> (u, v) in arrived
    ensures Signals(g, words, arrived, x, y)
    decreases g.tx + g.ty - Distance(g, x, y)
  {
    forall d | IsLink(d) && HasInput(words[Id(g, x, y)], d) ensures InputSignals(g, words, arrived, x, y, d) {
      assert WordOk(g, x, y, words[Id(g, x, y)]);
      IncomingIsFurther(g, x, y, d);
      var (u, v) := Neighbour(g, x, y, d);
      DistanceBound(g, u, v);
      AllArrivedSignals(g, words, arrived, u, v);
    }
  }

  /** If the center signals, so does every tile. */
  lemma {:induction false} RootSignalsAll(g: Group, words: seq<bv32>, arrived: set<(int, int)>, x: int, y: int)
    requires GroupOk(g) && Configured(g, words) && InGroup(g, x, y)
    requires Signals(g, words, arrived, g.tx / 2, g.ty / 2)
    ensures Signals(g, words, arrived, x, y)
    decreases Distance(g, x, y)
  {
    if !IsCenter(g, x, y) {
      OutputGoesNearer(g, x, y);
      var (u, v) := Neighbour(g, x, y, Output(g, x, y));
      var d := Opposite(Output(g, x, y));
      RootSignalsAll(g, words, arrived, u, v);
      assert WordOk(g, u, v, words[Id(g, u, v)]);
      assert InputSignals(g, words, arrived, u, v, d);
    }
  }

  /** The center tile sees the barrier complete exactly when every tile of the group has arrived. */
  lemma BarrierCompletesIffAllArrived(g: Group, words: seq<bv32>, arrived: set<(int, int)>)
    requires GroupOk(g) && Configured(g, words)
    ensures Signals(g, words, arrived, g.tx / 2, g.ty / 2) <==> forall x, y :: InGroup(g, x, y) ==> (x, y) in arrived
  {
    if Signals(g, words, arrived, g.tx / 2, g.ty / 2) {
      forall x, y | InGroup(g, x, y) ensures (x, y) in arrived {
        RootSignalsAll(g, words, arrived, x, y);
      }
    } else if forall x, y :: InGroup(g, x, y) ==> (x, y) in arrived {
      AllArrivedSignals(g, words, arrived, g.tx / 2, g.ty / 2);
    }
  }
}
