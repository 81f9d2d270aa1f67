/** The tiled matrix multiply over tile-group shared memory (matrix_mul_shared_mem), as run by all
    tiles of one tile group at once: between two barriers the loads and stores of the tiles mix
    in any order.

    Element (y, x) of a shared array with n columns is word y * n + x of it. */
module TiledMatMul {
  import opened Arithmetic
  import opened Ring

  /** tx, ty: the tile group; h, w: block_size_y, block_size_x; bw: BLOCK_WIDTH; N, P: columns of A
      and of B; gy, gx: __bsg_tile_group_id_y, _x; rows: rows of C. */
  datatype Config<!T> = Config(
    ring: Ring<T>, tx: nat, ty: nat, h: nat, w: nat, bw: nat, N: nat, P: nat, gy: nat, gx: nat, rows: nat,
    a: seq<T>, b: seq<T>)

  /** The blocks of A and B divide evenly. */
  ghost predicate SizesOk<T(!new)>(c: Config<T>) {
    && IsRing(c.ring) && c.tx > 0 && c.ty > 0
    && c.bw > 0 && c.N > 0 && c.N % c.bw == 0
    && |c.a| == c.rows * c.N && |c.b| == c.N * c.P
  }

  /** The group's block lies within C. */
  ghost predicate ConfigOk<T(!new)>(c: Config<T>) {
    SizesOk(c) && (c.gy + 1) * c.h <= c.rows && (c.gx + 1) * c.w <= c.P
  }

  function Blocks<T>(c: Config<T>): nat
    requires c.bw > 0
  {
    c.N / c.bw
  }

  /** Word y * n + x of a matrix with n columns. */
  function Cell(n: nat, y: nat, x: nat): nat {
    y * n + x
  }

  /** Word i of a matrix; ReadsInside shows that none is read beyond its end. */
  function Get<T>(c: Config<T>, s: seq<T>, i: nat): T {
    if i < |s| then s[i] else c.ring.zero
  }

  /** The row and the column of C that row y and column x of the group's block are. */
  function RowOf<T>(c: Config<T>, y: nat): nat {
    c.gy * c.h + y
  }

  function ColOf<T>(c: Config<T>, x: nat): nat {
    c.gx * c.w + x
  }

  function AWord<T>(c: Config<T>, y: nat, k: nat): T {
    Get(c, c.a, Cell(c.N, RowOf(c, y), k))
  }

  function BWord<T>(c: Config<T>, k: nat, x: nat): T {
    Get(c, c.b, Cell(c.P, k, ColOf(c, x)))
  }

  // ---- the tiles ----

  datatype Pc<+T> =
    | LoadA
    | LoadB
    | Mul(k: nat, sum: T)
    | MulA(k: nat, sum: T, lcA: T)
    | AddC(sum: T, lcC: T)
    | Copy
    | Wait
    | Finished

  /** phase: 2 b to load block b, 2 b + 1 to multiply it, and at the end one to copy out. */
  datatype Tile<+T> = Tile(phase: nat, iy: nat, ix: nat, pc: Pc<T>)

  datatype State<+T> = State(shA: seq<T>, shB: seq<T>, shC: seq<T>, C: seq<T>, tiles: seq<Tile<T>>)

  function Bx<T>(c: Config<T>, t: nat): nat
    requires c.tx > 0
  {
    t % c.tx
  }

  function By<T>(c: Config<T>, t: nat): nat
    requires c.tx > 0
  {
    t / c.tx
  }

  /** The grid the tile walks over. */
  function Rows<T>(c: Config<T>, pc: Pc<T>): nat {
    if pc.LoadB? then c.bw else c.h
  }

  function Cols<T>(c: Config<T>, pc: Pc<T>): nat {
    if pc.LoadA? then c.bw else c.w
  }

  ghost predicate Valid<T(!new)>(c: Config<T>, s: State<T>) {
    && ConfigOk(c)
    && |s.shA| == c.h * c.bw && |s.shB| == c.w * c.bw && |s.shC| == c.h * c.w && |s.C| == c.rows * c.P
    && |s.tiles| == c.ty * c.tx
    && (forall t :: 0 <= t < |s.tiles| ==> TileValid(c, s.tiles[t]))
  }

  ghost predicate TileValid<T>(c: Config<T>, u: Tile<T>)
    requires c.bw > 0
  {
    match u.pc
    case LoadA => u.phase % 2 == 0 && u.phase / 2 < Blocks(c)
    case LoadB => u.phase % 2 == 0 && u.phase / 2 < Blocks(c)
    case Mul(k, _) => u.phase % 2 == 1 && u.phase / 2 < Blocks(c) && k <= c.bw
    case MulA(k, _, _) => u.phase % 2 == 1 && u.phase / 2 < Blocks(c) && k < c.bw && u.iy < c.h && u.ix < c.w
    case AddC(_, _) => u.phase % 2 == 1 && 0 < u.phase / 2 < Blocks(c) && u.iy < c.h && u.ix < c.w
    case Copy => u.phase == 2 * Blocks(c)
    case Wait => u.phase <= 2 * Blocks(c)
    case Finished => u.phase == 2 * Blocks(c) + 1
  }

  predicate Arrived<T>(u: Tile<T>, phase: nat) {
    u.phase > phase || (u.phase == phase && u.pc.Wait?)
  }

  function Begin<T>(c: Config<T>, t: nat, phase: nat): Tile<T>
    requires c.tx > 0 && c.bw > 0
  {
    var pc := if phase == 2 * Blocks(c) + 1 then Finished else if phase == 2 * Blocks(c) then Copy
              else if phase % 2 == 0 then LoadA else Mul(0, c.ring.zero);
    Tile(phase, By(c, t), Bx(c, t), pc)
  }

  /** The words of a shared array lie within it. */
  lemma CellInside(rows: nat, cols: nat, y: nat, x: nat)
    requires y < rows && x < cols
    ensures Cell(cols, y, x) < rows * cols
  {
    Nested(cols, rows, x, y);
  }

  /** Where element (y, x) of the group's block is in C. */
  function OutCell<T>(c: Config<T>, y: nat, x: nat): nat {
    Cell(c.P, RowOf(c, y), ColOf(c, x))
  }

  lemma OutInside<T(!new)>(c: Config<T>, y: nat, x: nat)
    requires ConfigOk(c) && y < c.h && x < c.w
    ensures RowOf(c, y) < c.rows && ColOf(c, x) < c.P
    ensures OutCell(c, y, x) < c.rows * c.P
  {
    assert (c.gy + 1) * c.h == c.gy * c.h + c.h;
    assert (c.gx + 1) * c.w == c.gx * c.w + c.w;
    CellInside(c.rows, c.P, RowOf(c, y), ColOf(c, x));
  }

  lemma ReadsInside<T(!new)>(c: Config<T>, y: nat, x: nat, k: nat)
    requires ConfigOk(c) && k < c.N
    ensures y < c.h ==> Cell(c.N, RowOf(c, y), k) < |c.a|
    ensures x < c.w ==> Cell(c.P, k, ColOf(c, x)) < |c.b|
  {
    assert (c.gy + 1) * c.h == c.gy * c.h + c.h;
    assert (c.gx + 1) * c.w == c.gx * c.w + c.w;
    if y < c.h {
      CellInside(c.rows, c.N, RowOf(c, y), k);
    }
    if x < c.w {
      CellInside(c.N, c.P, k, ColOf(c, x));
    }
  }

  /** One step of tile t. The walk over a grid is the two loops of each function: columns in steps of
      tx, rows in steps of ty. */
  ghost function Step<T(!new)>(c: Config<T>, s: State<T>, t: nat): (s': State<T>)
    requires Valid(c, s)
    ensures Valid(c, s')
  {
    if t >= |s.tiles| then s
    else
      var u := s.tiles[t];
      var b := u.phase / 2;
      match u.pc
      case Wait =>
        if forall v :: 0 <= v < |s.tiles| ==> Arrived(s.tiles[v], u.phase) then
          s.(tiles := s.tiles[t := Begin(c, t, u.phase + 1)])
        else s
      case Finished => s
      case MulA(k, sum, lcA) =>
        CellInside(c.w, c.bw, u.ix, k);
        var lcB := s.shB[Cell(c.bw, u.ix, k)];
        s.(tiles := s.tiles[t := u.(pc := Mul(k + 1, c.ring.add(sum, c.ring.mul(lcA, lcB))))])
      case AddC(sum, lcC) =>
        CellInside(c.h, c.w, u.iy, u.ix);
        s.(shC := s.shC[Cell(c.w, u.iy, u.ix) := c.ring.add(lcC, sum)],
           tiles := s.tiles[t := u.(ix := u.ix + c.tx, pc := Mul(0, c.ring.zero))])
      case _ =>
        if u.iy >= Rows(c, u.pc) then s.(tiles := s.tiles[t := GridDone(c, t, u)])
        else if u.ix >= Cols(c, u.pc) then s.(tiles := s.tiles[t := u.(iy := u.iy + c.ty, ix := Bx(c, t))])
        else AtElement(c, s, t)
  }

  function GridDone<T>(c: Config<T>, t: nat, u: Tile<T>): Tile<T>
    requires c.tx > 0
  {
    if u.pc.LoadA? then u.(iy := By(c, t), ix := Bx(c, t), pc := LoadB) else u.(pc := Wait)
  }

  /** A step of tile t at an element of the grid. */
  ghost function AtElement<T(!new)>(c: Config<T>, s: State<T>, t: nat): (s': State<T>)
    requires Valid(c, s) && t < |s.tiles|
    requires s.tiles[t].iy < Rows(c, s.tiles[t].pc) && s.tiles[t].ix < Cols(c, s.tiles[t].pc)
    requires s.tiles[t].pc.LoadA? || s.tiles[t].pc.LoadB? || s.tiles[t].pc.Mul? || s.tiles[t].pc.Copy?
    ensures Valid(c, s')
  {
    var u := s.tiles[t];
    var b := u.phase / 2;
    match u.pc
    case LoadA =>
      CellInside(c.h, c.bw, u.iy, u.ix);
      s.(shA := s.shA[Cell(c.bw, u.iy, u.ix) := AWord(c, u.iy, Cell(c.bw, b, u.ix))],
         tiles := s.tiles[t := u.(ix := u.ix + c.tx)])
    case LoadB =>
      CellInside(c.w, c.bw, u.ix, u.iy);
      s.(shB := s.shB[Cell(c.bw, u.ix, u.iy) := BWord(c, Cell(c.bw, b, u.iy), u.ix)],
         tiles := s.tiles[t := u.(ix := u.ix + c.tx)])
    case Mul(k, sum) =>
      if k < c.bw then
        CellInside(c.h, c.bw, u.iy, k);
        s.(tiles := s.tiles[t := u.(pc := MulA(k, sum, s.shA[Cell(c.bw, u.iy, k)]))])
      else
        CellInside(c.h, c.w, u.iy, u.ix);
        if b == 0 then
          s.(shC := s.shC[Cell(c.w, u.iy, u.ix) := sum],
             tiles := s.tiles[t := u.(ix := u.ix + c.tx, pc := Mul(0, c.ring.zero))])
        else
          s.(tiles := s.tiles[t := u.(pc := AddC(sum, s.shC[Cell(c.w, u.iy, u.ix)]))])
    case Copy =>
      CellInside(c.h, c.w, u.iy, u.ix);
      OutInside(c, u.iy, u.ix);
      s.(C := s.C[OutCell(c, u.iy, u.ix) := s.shC[Cell(c.w, u.iy, u.ix)]],
         tiles := s.tiles[t := u.(ix := u.ix + c.tx)])
  }

  /** All tiles start; shared memory and C hold anything. */
  ghost predicate Start<T(!new)>(c: Config<T>, s: State<T>) {
    Valid(c, s) && forall t :: 0 <= t < |s.tiles| ==> s.tiles[t] == Begin(c, t, 0)
  }

  // ---- the sums ----

  function Term<T>(c: Config<T>, y: nat, x: nat, k: nat): T {
    c.ring.mul(AWord(c, y, k), BWord(c, k, x))
  }

  /** n products from the lo-th on, added from the left. */
  function Sum<T>(c: Config<T>, y: nat, x: nat, lo: nat, n: nat): T {
    if n == 0 then c.ring.zero else c.ring.add(Sum(c, y, x, lo, n - 1), Term(c, y, x, lo + n - 1))
  }

  /** What the kernel has in shared C after b blocks: their sums, added one by one. */
  function Acc<T>(c: Config<T>, y: nat, x: nat, b: nat): T
    requires b > 0
  {
    if b == 1 then Sum(c, y, x, 0, c.bw)
    else c.ring.add(Acc(c, y, x, b - 1), Sum(c, y, x, Cell(c.bw, b - 1, 0), c.bw))
  }

  lemma {:induction false} SumSplits<T(!new)>(c: Config<T>, y: nat, x: nat, lo: nat, m: nat, n: nat)
    requires IsRing(c.ring)
    ensures Sum(c, y, x, lo, m + n) == c.ring.add(Sum(c, y, x, lo, m), Sum(c, y, x, lo + m, n))
  {
    var s := Sum(c, y, x, lo, m);
    if n == 0 {
      assert AddComm(c.ring, s, c.ring.zero) && AddZero(c.ring, s);
    } else {
      SumSplits(c, y, x, lo, m, n - 1);
      assert lo + (m + n) - 1 == lo + m + n - 1;
      assert AddAssoc(c.ring, s, Sum(c, y, x, lo + m, n - 1), Term(c, y, x, lo + m + n - 1));
    }
  }

  lemma NextBlock<T(!new)>(c: Config<T>, y: nat, x: nat, b: nat, m: nat, n: nat)
    requires IsRing(c.ring) && b > 0 && m == Cell(c.bw, b, 0) && n == m + c.bw
    requires Acc(c, y, x, b) == Sum(c, y, x, 0, m)
    ensures Acc(c, y, x, b + 1) == Sum(c, y, x, 0, n)
  {
    SumSplits(c, y, x, 0, m, c.bw);
  }

  lemma BlockFollows(n: nat, b: nat)
    ensures Cell(n, b + 1, 0) == Cell(n, b, 0) + n
  {
  }

  /** Adding block sums is adding all the products. */
  lemma {:induction false} AccIsSum<T(!new)>(c: Config<T>, y: nat, x: nat, b: nat)
    requires IsRing(c.ring) && b > 0
    ensures Acc(c, y, x, b) == Sum(c, y, x, 0, Cell(c.bw, b, 0))
  {
    if b > 1 {
      AccIsSum(c, y, x, b - 1);
      BlockFollows(c.bw, b - 1);
      NextBlock(c, y, x, b - 1, Cell(c.bw, b - 1, 0), Cell(c.bw, b, 0));
    }
  }

  // ---- the invariant ----

  /** The tile whose walk meets element (y, x). */
  function Owner<T>(c: Config<T>, y: nat, x: nat): (t: nat)
    requires c.tx > 0 && c.ty > 0
    ensures t < c.ty * c.tx && By(c, t) == y % c.ty && Bx(c, t) == x % c.tx
  {
    CellInside(c.ty, c.tx, y % c.ty, x % c.tx);
    DivModIs(Cell(c.tx, y % c.ty, x % c.tx), c.tx, y % c.ty, x % c.tx);
    Cell(c.tx, y % c.ty, x % c.tx)
  }

  predicate Before<T>(u: Tile<T>, y: nat, x: nat) {
    y < u.iy || (y == u.iy && x < u.ix)
  }

  predicate DoneA<T>(u: Tile<T>, phase: nat, y: nat, k: nat) {
    u.phase == phase && (u.pc.LoadB? || u.pc.Wait? || (u.pc.LoadA? && Before(u, y, k)))
  }

  /** Also for the multiplication and for copying out. */
  predicate DoneB<T>(u: Tile<T>, phase: nat, y: nat, x: nat) {
    u.phase == phase && !u.pc.LoadA? && (u.pc.Wait? || Before(u, y, x))
  }

  /** Word (y, k) of shared A is loaded, if it should be. */
  ghost predicate AOk<T(!new)>(c: Config<T>, s: State<T>, phase: nat, y: nat, k: nat)
    requires Valid(c, s) && y < c.h && k < c.bw
  {
    CellInside(c.h, c.bw, y, k);
    phase / 2 < Blocks(c) && (phase % 2 == 1 || DoneA(s.tiles[Owner(c, y, k)], phase, y, k)) ==>
      s.shA[Cell(c.bw, y, k)] == AWord(c, y, Cell(c.bw, phase / 2, k))
  }

  ghost predicate BOk<T(!new)>(c: Config<T>, s: State<T>, phase: nat, k: nat, x: nat)
    requires Valid(c, s) && k < c.bw && x < c.w
  {
    CellInside(c.w, c.bw, x, k);
    phase / 2 < Blocks(c) && (phase % 2 == 1 || DoneB(s.tiles[Owner(c, k, x)], phase, k, x)) ==>
      s.shB[Cell(c.bw, x, k)] == BWord(c, Cell(c.bw, phase / 2, k), x)
  }

  /** How many blocks are summed in word (y, x) of shared C. */
  function Summed<T>(c: Config<T>, u: Tile<T>, phase: nat, y: nat, x: nat): nat
    requires c.bw > 0
  {
    if phase % 2 == 1 && phase / 2 < Blocks(c) && DoneB(u, phase, y, x) then phase / 2 + 1 else phase / 2
  }

  ghost predicate COk<T(!new)>(c: Config<T>, s: State<T>, phase: nat, y: nat, x: nat)
    requires Valid(c, s) && y < c.h && x < c.w
  {
    CellInside(c.h, c.w, y, x);
    var n := Summed(c, s.tiles[Owner(c, y, x)], phase, y, x);
    n > 0 ==> s.shC[Cell(c.w, y, x)] == Acc(c, y, x, n)
  }

  ghost predicate OutOk<T(!new)>(c: Config<T>, s: State<T>, phase: nat, y: nat, x: nat)
    requires Valid(c, s) && y < c.h && x < c.w && Blocks(c) > 0
  {
    OutInside(c, y, x);
    phase > 2 * Blocks(c) || (phase == 2 * Blocks(c) && DoneB(s.tiles[Owner(c, y, x)], phase, y, x)) ==>
      s.C[OutCell(c, y, x)] == Acc(c, y, x, Blocks(c))
  }

  ghost predicate TileOk<T>(c: Config<T>, t: nat, u: Tile<T>, phase: nat)
    requires c.tx > 0 && c.ty > 0 && c.bw > 0
  {
    && (u.phase == phase || (u.phase + 1 == phase && u.pc.Wait?))
    && u.iy % c.ty == By(c, t) && u.ix % c.tx == Bx(c, t)
    && match u.pc
       case Mul(k, sum) =>
         sum == Sum(c, u.iy, u.ix, Cell(c.bw, u.phase / 2, 0), k) && (k > 0 ==> u.iy < c.h && u.ix < c.w)
       case MulA(k, sum, lcA) =>
         sum == Sum(c, u.iy, u.ix, Cell(c.bw, u.phase / 2, 0), k) && lcA == AWord(c, u.iy, Cell(c.bw, u.phase / 2, k))
       case AddC(sum, lcC) =>
         && sum == Sum(c, u.iy, u.ix, Cell(c.bw, u.phase / 2, 0), c.bw)
         && u.phase / 2 > 0 && lcC == Acc(c, u.iy, u.ix, u.phase / 2)
       case _ => true
  }

  ghost predicate Outside<T>(c: Config<T>, p: nat) {
    forall y: nat, x: nat :: y < c.h && x < c.w ==> p != OutCell(c, y, x)
  }

  ghost predicate InvAt<T(!new)>(c: Config<T>, s: State<T>, phase: nat) {
    && Valid(c, s) && Blocks(c) > 0
    && (forall t :: 0 <= t < |s.tiles| ==> TileOk(c, t, s.tiles[t], phase))
    && (forall y: nat, k: nat :: y < c.h && k < c.bw ==> AOk(c, s, phase, y, k))
    && (forall k: nat, x: nat :: k < c.bw && x < c.w ==> BOk(c, s, phase, k, x))
    && (forall y: nat, x: nat :: y < c.h && x < c.w ==> COk(c, s, phase, y, x))
    && (forall y: nat, x: nat :: y < c.h && x < c.w ==> OutOk(c, s, phase, y, x))
  }

  // ---- the walk ----

  /** The next column of the walk is the next element of the row that the tile owns. */
  lemma NextColumn(n: nat, ix: nat, x: nat)
    requires n > 0 && x % n == ix % n
    ensures (ix + n) % n == ix % n
    ensures x < ix + n <==> x < ix || x == ix
  {
    DivModIs(ix + n, n, ix / n + 1, ix % n);
    if ix < x < ix + n {
      ModDiffers(ix, x, n);
    }
  }

  /** Elements of the tile's rows start at its own column. */
  lemma FirstColumn(n: nat, x: nat)
    requires n > 0
    ensures x % n <= x && x % n % n == x % n
  {
    DivMod(x, n);
    MulBound(x / n, n);
    DivModIs(x % n, n, 0, x % n);
  }

  predicate Owns<T>(c: Config<T>, t: nat, y: nat, x: nat)
    requires c.tx > 0 && c.ty > 0
  {
    Owner(c, y, x) == t
  }

  /** What tile t has done is the same for u and u'. */
  ghost predicate SameDone<T>(c: Config<T>, t: nat, phase: nat, u: Tile<T>, u': Tile<T>)
    requires c.tx > 0 && c.ty > 0 && c.bw > 0
  {
    && (phase % 2 == 0 && phase / 2 < Blocks(c) ==>
          && (forall y: nat, k: nat :: y < c.h && k < c.bw && Owns(c, t, y, k) ==>
                DoneA(u', phase, y, k) == DoneA(u, phase, y, k))
          && (forall k: nat, x: nat :: k < c.bw && x < c.w && Owns(c, t, k, x) ==>
                DoneB(u', phase, k, x) == DoneB(u, phase, k, x)))
    && (!(phase % 2 == 0 && phase / 2 < Blocks(c)) ==>
          forall y: nat, x: nat :: y < c.h && x < c.w && Owns(c, t, y, x) ==>
            DoneB(u', phase, y, x) == DoneB(u, phase, y, x))
  }

  /** A tile moves on without a store. */
  lemma TileMoves<T(!new)>(c: Config<T>, s: State<T>, phase: nat, t: nat, u': Tile<T>)
    requires InvAt(c, s, phase) && t < |s.tiles|
    requires TileValid(c, u') && TileOk(c, t, u', phase) && SameDone(c, t, phase, s.tiles[t], u')
    ensures InvAt(c, s.(tiles := s.tiles[t := u']), phase)
  {
    var s' := s.(tiles := s.tiles[t := u']);
    forall y: nat, k: nat | y < c.h && k < c.bw ensures AOk(c, s', phase, y, k) {
      assert AOk(c, s, phase, y, k);
      assert Owner(c, y, k) == t ==> Owns(c, t, y, k);
    }
    forall k: nat, x: nat | k < c.bw && x < c.w ensures BOk(c, s', phase, k, x) {
      assert BOk(c, s, phase, k, x);
      assert Owner(c, k, x) == t ==> Owns(c, t, k, x);
    }
    forall y: nat, x: nat | y < c.h && x < c.w ensures COk(c, s', phase, y, x) && OutOk(c, s', phase, y, x) {
      assert COk(c, s, phase, y, x);
      assert OutOk(c, s, phase, y, x);
      assert Owner(c, y, x) == t ==> Owns(c, t, y, x);
    }
  }

  lemma RowAdvances<T>(c: Config<T>, t: nat, u: Tile<T>, y: nat, x: nat)
    requires c.tx > 0 && c.ty > 0 && Owns(c, t, y, x)
    requires u.iy % c.ty == By(c, t) && x < u.ix
    ensures Before(u.(iy := u.iy + c.ty, ix := Bx(c, t)), y, x) == Before(u, y, x)
    ensures (u.iy + c.ty) % c.ty == By(c, t) && Bx(c, t) % c.tx == Bx(c, t)
  {
    NextColumn(c.ty, u.iy, y);
    FirstColumn(c.tx, x);
  }

  lemma NothingBefore<T>(c: Config<T>, t: nat, u: Tile<T>, y: nat, x: nat)
    requires c.tx > 0 && c.ty > 0 && Owns(c, t, y, x) && u.iy == By(c, t) && u.ix == Bx(c, t)
    ensures !Before(u, y, x)
  {
    FirstColumn(c.tx, x);
    FirstColumn(c.ty, y);
  }

  lemma OwnRowColumn<T>(c: Config<T>, t: nat)
    requires c.tx > 0 && c.ty > 0 && t < c.ty * c.tx
    ensures By(c, t) % c.ty == By(c, t) && Bx(c, t) % c.tx == Bx(c, t)
  {
    DivMod(t, c.tx);
    assert c.ty * c.tx == c.tx * c.ty;
    QuotientBound(t, c.tx, c.ty);
    DivModIs(By(c, t), c.ty, 0, By(c, t));
    DivModIs(Bx(c, t), c.tx, 0, Bx(c, t));
  }

  predicate Walks<T>(pc: Pc<T>) {
    pc.LoadA? || pc.LoadB? || pc.Mul? || pc.Copy?
  }

  lemma RowKeeps<T(!new)>(c: Config<T>, s: State<T>, phase: nat, t: nat)
    requires InvAt(c, s, phase) && t < |s.tiles| && Walks(s.tiles[t].pc)
    requires s.tiles[t].iy < Rows(c, s.tiles[t].pc) && s.tiles[t].ix >= Cols(c, s.tiles[t].pc)
    ensures InvAt(c, Step(c, s, t), phase)
  {
    var u := s.tiles[t];
    var u' := u.(iy := u.iy + c.ty, ix := Bx(c, t));
    assert TileOk(c, t, u, phase);
    NextColumn(c.ty, u.iy, u.iy);
    OwnRowColumn(c, t);
    forall y: nat, x: nat | x < Cols(c, u.pc) && Owns(c, t, y, x) ensures Before(u', y, x) == Before(u, y, x) {
      RowAdvances(c, t, u, y, x);
    }
    TileMoves(c, s, phase, t, u');
  }

  lemma GridKeeps<T(!new)>(c: Config<T>, s: State<T>, phase: nat, t: nat)
    requires InvAt(c, s, phase) && t < |s.tiles| && Walks(s.tiles[t].pc)
    requires s.tiles[t].iy >= Rows(c, s.tiles[t].pc)
    ensures InvAt(c, Step(c, s, t), phase)
  {
    var u := s.tiles[t];
    var u' := GridDone(c, t, u);
    assert TileOk(c, t, u, phase);
    OwnRowColumn(c, t);
    if u.pc.LoadA? {
      forall k: nat, x: nat | k < c.bw && x < c.w && Owns(c, t, k, x) ensures !Before(u', k, x) {
        NothingBefore(c, t, u', k, x);
      }
    }
    TileMoves(c, s, phase, t, u');
  }

  /** A step of the multiplication that reads, all of it words nobody writes in this phase. */
  lemma ReadKeeps<T(!new)>(c: Config<T>, s: State<T>, phase: nat, t: nat)
    requires InvAt(c, s, phase) && t < |s.tiles|
    requires s.tiles[t].pc.MulA? || (s.tiles[t].pc.Mul? && s.tiles[t].pc.k < c.bw)
    requires s.tiles[t].iy < c.h && s.tiles[t].ix < c.w
    ensures InvAt(c, Step(c, s, t), phase)
  {
    var u := s.tiles[t];
    assert TileOk(c, t, u, phase);
    if u.pc.Mul? {
      assert AOk(c, s, phase, u.iy, u.pc.k);
      TileMoves(c, s, phase, t, Step(c, s, t).tiles[t]);
    } else {
      assert BOk(c, s, phase, u.pc.k, u.ix);
      var u' := Step(c, s, t).tiles[t];
      var term := Term(c, u.iy, u.ix, Cell(c.bw, u.phase / 2, u.pc.k));
      assert u' == u.(pc := Mul(u.pc.k + 1, c.ring.add(u.pc.sum, term)));
      TileMoves(c, s, phase, t, u');
    }
  }

  /** Reading back what the tile itself has summed so far. */
  lemma ReadCKeeps<T(!new)>(c: Config<T>, s: State<T>, phase: nat, t: nat)
    requires InvAt(c, s, phase) && t < |s.tiles|
    requires s.tiles[t].pc.Mul? && s.tiles[t].pc.k == c.bw && s.tiles[t].phase / 2 > 0
    requires s.tiles[t].iy < c.h && s.tiles[t].ix < c.w
    ensures InvAt(c, Step(c, s, t), phase)
  {
    var u := s.tiles[t];
    assert TileOk(c, t, u, phase);
    OwnerIs(c, t, u.iy, u.ix);
    assert COk(c, s, phase, u.iy, u.ix);
    TileMoves(c, s, phase, t, Step(c, s, t).tiles[t]);
  }

  lemma OwnerIs<T>(c: Config<T>, t: nat, y: nat, x: nat)
    requires c.tx > 0 && c.ty > 0 && y % c.ty == By(c, t) && x % c.tx == Bx(c, t)
    ensures Owner(c, y, x) == t
  {
    DivMod(t, c.tx);
  }

  lemma CellsDiffer(n: nat, y: nat, x: nat, v: nat, u: nat)
    requires x < n && u < n
    ensures Cell(n, y, x) == Cell(n, v, u) <==> y == v && x == u
  {
    DivModIs(Cell(n, y, x), n, y, x);
    DivModIs(Cell(n, v, u), n, v, u);
  }

  /** One column on, the walk has done one more of its elements. */
  lemma ColumnAdvances<T>(c: Config<T>, t: nat, u: Tile<T>, u': Tile<T>, y: nat, x: nat)
    requires c.tx > 0 && c.ty > 0 && Owns(c, t, y, x)
    requires u.ix % c.tx == Bx(c, t) && u'.iy == u.iy && u'.ix == u.ix + c.tx
    ensures Before(u', y, x) <==> Before(u, y, x) || (y == u.iy && x == u.ix)
    ensures u'.ix % c.tx == Bx(c, t)
  {
    NextColumn(c.tx, u.ix, x);
  }

  /** Nothing but shared A and the place of tile t in it changes. */
  lemma OthersKept<T(!new)>(c: Config<T>, s: State<T>, s': State<T>, phase: nat, t: nat, u': Tile<T>, y: nat, x: nat)
    requires Valid(c, s) && Valid(c, s') && Blocks(c) > 0 && t < |s.tiles| && s'.tiles == s.tiles[t := u']
    requires s.tiles[t].phase == u'.phase == phase && phase % 2 == 0 && phase / 2 < Blocks(c)
    requires s'.shC == s.shC && s'.C == s.C && y < c.h && x < c.w
    requires COk(c, s, phase, y, x) && OutOk(c, s, phase, y, x)
    ensures COk(c, s', phase, y, x) && OutOk(c, s', phase, y, x)
  {
  }

  lemma StoreAAt<T(!new)>(c: Config<T>, s: State<T>, s': State<T>, phase: nat, t: nat, u': Tile<T>, y: nat, k: nat)
    requires Valid(c, s) && Valid(c, s') && t < |s.tiles| && s'.tiles == s.tiles[t := u']
    requires var u := s.tiles[t];
      && u.pc.LoadA? && u' == u.(ix := u.ix + c.tx) && u.phase == phase && TileOk(c, t, u, phase)
      && u.iy < c.h && u.ix < c.bw && Cell(c.bw, u.iy, u.ix) < |s.shA|
      && s'.shA == s.shA[Cell(c.bw, u.iy, u.ix) := AWord(c, u.iy, Cell(c.bw, phase / 2, u.ix))]
    requires y < c.h && k < c.bw && AOk(c, s, phase, y, k)
    ensures AOk(c, s', phase, y, k)
  {
    var u := s.tiles[t];
    CellsDiffer(c.bw, y, k, u.iy, u.ix);
    CellInside(c.h, c.bw, y, k);
    LoadsOneMore(c, t, u, u', phase, y, k);
  }

  lemma LoadsOneMore<T>(c: Config<T>, t: nat, u: Tile<T>, u': Tile<T>, phase: nat, y: nat, x: nat)
    requires c.tx > 0 && c.ty > 0 && u.phase == phase == u'.phase && u'.iy == u.iy && u'.ix == u.ix + c.tx
    requires u.pc.LoadA? == u'.pc.LoadA? && u.pc.LoadB? == u'.pc.LoadB? && !u.pc.Wait? && !u'.pc.Wait?
    requires u.iy % c.ty == By(c, t) && u.ix % c.tx == Bx(c, t)
    ensures Owner(c, y, x) == t && u.pc.LoadA? ==>
      (DoneA(u', phase, y, x) <==> DoneA(u, phase, y, x) || (y == u.iy && x == u.ix))
    ensures Owner(c, y, x) == t && !u.pc.LoadA? ==>
      (DoneB(u', phase, y, x) <==> DoneB(u, phase, y, x) || (y == u.iy && x == u.ix))
  {
    if Owner(c, y, x) == t {
      assert Owns(c, t, y, x);
      ColumnAdvances(c, t, u, u', y, x);
    }
  }

  lemma StoreAKeeps<T(!new)>(c: Config<T>, s: State<T>, phase: nat, t: nat)
    requires InvAt(c, s, phase) && t < |s.tiles| && s.tiles[t].pc.LoadA?
    requires s.tiles[t].iy < c.h && s.tiles[t].ix < c.bw
    ensures InvAt(c, Step(c, s, t), phase)
  {
    var u, s' := s.tiles[t], Step(c, s, t);
    var u' := u.(ix := u.ix + c.tx);
    assert TileOk(c, t, u, phase);
    NextColumn(c.tx, u.ix, u.ix);
    CellInside(c.h, c.bw, u.iy, u.ix);
    forall y: nat, k: nat | y < c.h && k < c.bw ensures AOk(c, s', phase, y, k) {
      assert AOk(c, s, phase, y, k);
      StoreAAt(c, s, s', phase, t, u', y, k);
    }
    forall k: nat, x: nat | k < c.bw && x < c.w ensures BOk(c, s', phase, k, x) {
      assert BOk(c, s, phase, k, x);
    }
    forall y: nat, x: nat | y < c.h && x < c.w ensures COk(c, s', phase, y, x) && OutOk(c, s', phase, y, x) {
      assert COk(c, s, phase, y, x) && OutOk(c, s, phase, y, x);
      OthersKept(c, s, s', phase, t, u', y, x);
    }
  }

  lemma StoreBAt<T(!new)>(c: Config<T>, s: State<T>, s': State<T>, phase: nat, t: nat, u': Tile<T>, k: nat, x: nat)
    requires Valid(c, s) && Valid(c, s') && t < |s.tiles| && s'.tiles == s.tiles[t := u']
    requires var u := s.tiles[t];
      && u.pc.LoadB? && u' == u.(ix := u.ix + c.tx) && u.phase == phase && TileOk(c, t, u, phase)
      && u.iy < c.bw && u.ix < c.w && Cell(c.bw, u.ix, u.iy) < |s.shB|
      && s'.shB == s.shB[Cell(c.bw, u.ix, u.iy) := BWord(c, Cell(c.bw, phase / 2, u.iy), u.ix)]
    requires k < c.bw && x < c.w && BOk(c, s, phase, k, x)
    ensures BOk(c, s', phase, k, x)
  {
    var u := s.tiles[t];
    CellsDiffer(c.bw, x, k, u.ix, u.iy);
    CellInside(c.w, c.bw, x, k);
    LoadsOneMore(c, t, u, u', phase, k, x);
  }

  lemma StoreBKeeps<T(!new)>(c: Config<T>, s: State<T>, phase: nat, t: nat)
    requires InvAt(c, s, phase) && t < |s.tiles| && s.tiles[t].pc.LoadB?
    requires s.tiles[t].iy < c.bw && s.tiles[t].ix < c.w
    ensures InvAt(c, Step(c, s, t), phase)
  {
    var u, s' := s.tiles[t], Step(c, s, t);
    var u' := u.(ix := u.ix + c.tx);
    assert TileOk(c, t, u, phase);
    NextColumn(c.tx, u.ix, u.ix);
    CellInside(c.w, c.bw, u.ix, u.iy);
    forall y: nat, k: nat | y < c.h && k < c.bw ensures AOk(c, s', phase, y, k) {
      assert AOk(c, s, phase, y, k);
    }
    forall k: nat, x: nat | k < c.bw && x < c.w ensures BOk(c, s', phase, k, x) {
      assert BOk(c, s, phase, k, x);
      StoreBAt(c, s, s', phase, t, u', k, x);
    }
    forall y: nat, x: nat | y < c.h && x < c.w ensures COk(c, s', phase, y, x) && OutOk(c, s', phase, y, x) {
      assert COk(c, s, phase, y, x) && OutOk(c, s, phase, y, x);
      OthersKept(c, s, s', phase, t, u', y, x);
    }
  }

  /** The tile stores the sum over one more block. */
  lemma StoreCAt<T(!new)>(c: Config<T>, s: State<T>, s': State<T>, phase: nat, t: nat, u': Tile<T>, y: nat, x: nat)
    requires Valid(c, s) && Valid(c, s') && t < |s.tiles| && s'.tiles == s.tiles[t := u']
    requires phase % 2 == 1 && phase / 2 < Blocks(c)
    requires var u := s.tiles[t];
      && (u.pc.Mul? || u.pc.AddC?) && u' == u.(ix := u.ix + c.tx, pc := Mul(0, c.ring.zero))
      && u.phase == phase && TileOk(c, t, u, phase)
      && u.iy < c.h && u.ix < c.w && Cell(c.w, u.iy, u.ix) < |s.shC|
      && s'.shC == s.shC[Cell(c.w, u.iy, u.ix) := Acc(c, u.iy, u.ix, phase / 2 + 1)]
    requires y < c.h && x < c.w && COk(c, s, phase, y, x)
    ensures COk(c, s', phase, y, x)
  {
    var u := s.tiles[t];
    CellsDiffer(c.w, y, x, u.iy, u.ix);
    CellInside(c.h, c.w, y, x);
    LoadsOneMore(c, t, u, u', phase, y, x);
    OwnerIs(c, t, u.iy, u.ix);
  }

  lemma StoredC<T(!new)>(c: Config<T>, s: State<T>, s': State<T>, phase: nat, t: nat, u': Tile<T>)
    requires InvAt(c, s, phase) && t < |s.tiles| && Valid(c, s') && phase % 2 == 1 && phase / 2 < Blocks(c)
    requires var u := s.tiles[t];
      && (u.pc.Mul? || u.pc.AddC?) && u' == u.(ix := u.ix + c.tx, pc := Mul(0, c.ring.zero)) && u.phase == phase
      && u.iy < c.h && u.ix < c.w && Cell(c.w, u.iy, u.ix) < |s.shC|
      && s' == s.(shC := s.shC[Cell(c.w, u.iy, u.ix) := Acc(c, u.iy, u.ix, phase / 2 + 1)], tiles := s.tiles[t := u'])
    ensures InvAt(c, s', phase)
  {
    var u := s.tiles[t];
    assert TileOk(c, t, u, phase);
    NextColumn(c.tx, u.ix, u.ix);
    forall y: nat, k: nat | y < c.h && k < c.bw ensures AOk(c, s', phase, y, k) {
      assert AOk(c, s, phase, y, k);
    }
    forall k: nat, x: nat | k < c.bw && x < c.w ensures BOk(c, s', phase, k, x) {
      assert BOk(c, s, phase, k, x);
    }
    forall y: nat, x: nat | y < c.h && x < c.w ensures COk(c, s', phase, y, x) && OutOk(c, s', phase, y, x) {
      assert COk(c, s, phase, y, x) && OutOk(c, s, phase, y, x);
      StoreCAt(c, s, s', phase, t, u', y, x);
    }
  }

  lemma StoreCKeeps<T(!new)>(c: Config<T>, s: State<T>, phase: nat, t: nat)
    requires InvAt(c, s, phase) && t < |s.tiles|
    requires s.tiles[t].pc.AddC? || (s.tiles[t].pc.Mul? && s.tiles[t].pc.k == c.bw && s.tiles[t].phase / 2 == 0)
    requires s.tiles[t].iy < c.h && s.tiles[t].ix < c.w
    ensures InvAt(c, Step(c, s, t), phase)
  {
    var u := s.tiles[t];
    assert TileOk(c, t, u, phase);
    CellInside(c.h, c.w, u.iy, u.ix);
    StoredC(c, s, Step(c, s, t), phase, t, u.(ix := u.ix + c.tx, pc := Mul(0, c.ring.zero)));
  }

  lemma OutCellsDiffer<T(!new)>(c: Config<T>, y: nat, x: nat, v: nat, u: nat)
    requires ConfigOk(c) && y < c.h && x < c.w && v < c.h && u < c.w
    ensures OutCell(c, y, x) == OutCell(c, v, u) <==> y == v && x == u
  {
    OutInside(c, y, x);
    OutInside(c, v, u);
    CellsDiffer(c.P, RowOf(c, y), ColOf(c, x), RowOf(c, v), ColOf(c, u));
  }

  lemma CopyAt<T(!new)>(c: Config<T>, s: State<T>, s': State<T>, phase: nat, t: nat, u': Tile<T>, y: nat, x: nat)
    requires Valid(c, s) && Valid(c, s') && Blocks(c) > 0 && t < |s.tiles| && s'.tiles == s.tiles[t := u']
    requires phase == 2 * Blocks(c)
    requires var u := s.tiles[t];
      && u.pc.Copy? && u' == u.(ix := u.ix + c.tx) && u.phase == phase && TileOk(c, t, u, phase)
      && u.iy < c.h && u.ix < c.w && OutCell(c, u.iy, u.ix) < |s.C|
      && s'.C == s.C[OutCell(c, u.iy, u.ix) := Acc(c, u.iy, u.ix, Blocks(c))]
    requires y < c.h && x < c.w && OutOk(c, s, phase, y, x)
    ensures OutOk(c, s', phase, y, x)
  {
    var u := s.tiles[t];
    OutCellsDiffer(c, y, x, u.iy, u.ix);
    OutInside(c, y, x);
    LoadsOneMore(c, t, u, u', phase, y, x);
  }

  lemma Copied<T(!new)>(c: Config<T>, s: State<T>, s': State<T>, phase: nat, t: nat, u': Tile<T>)
    requires InvAt(c, s, phase) && t < |s.tiles| && Valid(c, s') && phase == 2 * Blocks(c)
    requires var u := s.tiles[t];
      && u.pc.Copy? && u' == u.(ix := u.ix + c.tx) && u.phase == phase
      && u.iy < c.h && u.ix < c.w && OutCell(c, u.iy, u.ix) < |s.C|
      && s' == s.(C := s.C[OutCell(c, u.iy, u.ix) := Acc(c, u.iy, u.ix, Blocks(c))], tiles := s.tiles[t := u'])
    ensures InvAt(c, s', phase)
  {
    assert TileOk(c, t, s.tiles[t], phase);
    NextColumn(c.tx, s.tiles[t].ix, s.tiles[t].ix);
    forall y: nat, x: nat | y < c.h && x < c.w ensures COk(c, s', phase, y, x) && OutOk(c, s', phase, y, x) {
      assert COk(c, s, phase, y, x) && OutOk(c, s, phase, y, x);
      CopyAt(c, s, s', phase, t, u', y, x);
    }
  }

  lemma CopyKeeps<T(!new)>(c: Config<T>, s: State<T>, phase: nat, t: nat)
    requires InvAt(c, s, phase) && t < |s.tiles| && s.tiles[t].pc.Copy?
    requires s.tiles[t].iy < c.h && s.tiles[t].ix < c.w
    ensures InvAt(c, Step(c, s, t), phase)
  {
    var u := s.tiles[t];
    assert TileOk(c, t, u, phase);
    OutInside(c, u.iy, u.ix);
    assert COk(c, s, phase, u.iy, u.ix);
    Copied(c, s, Step(c, s, t), phase, t, u.(ix := u.ix + c.tx));
  }

  // ---- barriers ----

  lemma BeginOk<T>(c: Config<T>, t: nat, phase: nat)
    requires c.tx > 0 && c.ty > 0 && c.bw > 0 && t < c.ty * c.tx && phase <= 2 * Blocks(c) + 1
    ensures TileValid(c, Begin(c, t, phase)) && TileOk(c, t, Begin(c, t, phase), phase)
    ensures forall y: nat, x: nat :: Owns(c, t, y, x) ==> !Before(Begin(c, t, phase), y, x)
  {
    OwnRowColumn(c, t);
    forall y: nat, x: nat | Owns(c, t, y, x) ensures !Before(Begin(c, t, phase), y, x) {
      NothingBefore(c, t, Begin(c, t, phase), y, x);
    }
  }

  /** A tile that was behind and one that begins the phase have both done nothing in it. */
  lemma NothingDone<T>(c: Config<T>, t: nat, phase: nat, u: Tile<T>)
    requires c.tx > 0 && c.ty > 0 && c.bw > 0 && t < c.ty * c.tx && phase <= 2 * Blocks(c) + 1 && u.phase != phase
    ensures SameDone(c, t, phase, u, Begin(c, t, phase))
  {
    BeginOk(c, t, phase);
  }

  lemma CatchUpKeeps<T(!new)>(c: Config<T>, s: State<T>, phase: nat, t: nat)
    requires InvAt(c, s, phase) && t < |s.tiles| && s.tiles[t].phase != phase
    ensures InvAt(c, Step(c, s, t), phase)
  {
    var u := s.tiles[t];
    assert TileOk(c, t, u, phase);
    if forall v :: 0 <= v < |s.tiles| ==> Arrived(s.tiles[v], u.phase) {
      BeginOk(c, t, phase);
      NothingDone(c, t, phase, u);
      TileMoves(c, s, phase, t, Begin(c, t, phase));
    }
  }

  ghost predicate AllWait<T(!new)>(c: Config<T>, s: State<T>, phase: nat) {
    forall v :: 0 <= v < |s.tiles| ==> s.tiles[v].phase == phase && s.tiles[v].pc.Wait?
  }

  /** After the barrier each word of shared memory is what the next phase needs. */
  lemma AReady<T(!new)>(c: Config<T>, s: State<T>, s': State<T>, phase: nat, t: nat, y: nat, k: nat)
    requires Valid(c, s) && Valid(c, s') && Blocks(c) > 0 && t < |s.tiles| && phase <= 2 * Blocks(c)
    requires AllWait(c, s, phase) && s' == s.(tiles := s.tiles[t := Begin(c, t, phase + 1)])
    requires y < c.h && k < c.bw && AOk(c, s, phase, y, k)
    ensures AOk(c, s', phase + 1, y, k)
  {
    BeginOk(c, t, phase + 1);
    assert Owner(c, y, k) == t ==> Owns(c, t, y, k);
  }

  lemma BReady<T(!new)>(c: Config<T>, s: State<T>, s': State<T>, phase: nat, t: nat, k: nat, x: nat)
    requires Valid(c, s) && Valid(c, s') && Blocks(c) > 0 && t < |s.tiles| && phase <= 2 * Blocks(c)
    requires AllWait(c, s, phase) && s' == s.(tiles := s.tiles[t := Begin(c, t, phase + 1)])
    requires k < c.bw && x < c.w && BOk(c, s, phase, k, x)
    ensures BOk(c, s', phase + 1, k, x)
  {
    BeginOk(c, t, phase + 1);
    assert Owner(c, k, x) == t ==> Owns(c, t, k, x);
  }

  lemma CReady<T(!new)>(c: Config<T>, s: State<T>, s': State<T>, phase: nat, t: nat, y: nat, x: nat)
    requires Valid(c, s) && Valid(c, s') && Blocks(c) > 0 && t < |s.tiles| && phase <= 2 * Blocks(c)
    requires AllWait(c, s, phase) && s' == s.(tiles := s.tiles[t := Begin(c, t, phase + 1)])
    requires y < c.h && x < c.w && COk(c, s, phase, y, x)
    ensures COk(c, s', phase + 1, y, x)
  {
    BeginOk(c, t, phase + 1);
    assert Owner(c, y, x) == t ==> Owns(c, t, y, x);
  }

  lemma OutReady<T(!new)>(c: Config<T>, s: State<T>, s': State<T>, phase: nat, t: nat, y: nat, x: nat)
    requires Valid(c, s) && Valid(c, s') && Blocks(c) > 0 && t < |s.tiles| && phase <= 2 * Blocks(c)
    requires AllWait(c, s, phase) && s' == s.(tiles := s.tiles[t := Begin(c, t, phase + 1)])
    requires y < c.h && x < c.w && OutOk(c, s, phase, y, x)
    ensures OutOk(c, s', phase + 1, y, x)
  {
    BeginOk(c, t, phase + 1);
    assert Owner(c, y, x) == t ==> Owns(c, t, y, x);
  }

  lemma WaiterOk<T>(c: Config<T>, t: nat, u: Tile<T>, phase: nat)
    requires c.tx > 0 && c.ty > 0 && c.bw > 0 && u.phase == phase && u.pc.Wait? && TileOk(c, t, u, phase)
    ensures TileOk(c, t, u, phase + 1)
  {
  }

  lemma AllAreWaiting<T(!new)>(c: Config<T>, s: State<T>, phase: nat)
    requires InvAt(c, s, phase) && forall v :: 0 <= v < |s.tiles| ==> Arrived(s.tiles[v], phase)
    ensures AllWait(c, s, phase)
  {
    forall v | 0 <= v < |s.tiles| ensures s.tiles[v].phase == phase && s.tiles[v].pc.Wait? {
      assert TileOk(c, v, s.tiles[v], phase);
    }
  }

  lemma PassBarrier<T(!new)>(c: Config<T>, s: State<T>, s': State<T>, phase: nat, t: nat)
    requires InvAt(c, s, phase) && t < |s.tiles| && AllWait(c, s, phase) && phase <= 2 * Blocks(c)
    requires Valid(c, s') && s' == s.(tiles := s.tiles[t := Begin(c, t, phase + 1)])
    ensures InvAt(c, s', phase + 1)
  {
    var next := phase + 1;
    BeginOk(c, t, next);
    forall v: nat | v < |s.tiles| ensures TileOk(c, v, s'.tiles[v], next) {
      WaiterOk(c, v, s.tiles[v], phase);
    }
    forall y: nat, k: nat | y < c.h && k < c.bw ensures AOk(c, s', next, y, k) {
      AReady(c, s, s', phase, t, y, k);
    }
    forall k: nat, x: nat | k < c.bw && x < c.w ensures BOk(c, s', next, k, x) {
      BReady(c, s, s', phase, t, k, x);
    }
    forall y: nat, x: nat | y < c.h && x < c.w ensures COk(c, s', next, y, x) {
      CReady(c, s, s', phase, t, y, x);
    }
    forall y: nat, x: nat | y < c.h && x < c.w ensures OutOk(c, s', next, y, x) {
      OutReady(c, s, s', phase, t, y, x);
    }
  }

  lemma NextPhaseKeeps<T(!new)>(c: Config<T>, s: State<T>, phase: nat, t: nat)
    requires InvAt(c, s, phase) && t < |s.tiles| && s.tiles[t].phase == phase && s.tiles[t].pc.Wait?
    requires forall v :: 0 <= v < |s.tiles| ==> Arrived(s.tiles[v], phase)
    ensures InvAt(c, Step(c, s, t), phase + 1)
  {
    AllAreWaiting(c, s, phase);
    PassBarrier(c, s, Step(c, s, t), phase, t);
  }

  lemma StepKeeps<T(!new)>(c: Config<T>, s: State<T>, phase: nat, t: nat) returns (phase': nat)
    requires InvAt(c, s, phase)
    ensures InvAt(c, Step(c, s, t), phase')
  {
    phase' := phase;
    if t < |s.tiles| {
      var u := s.tiles[t];
      assert TileOk(c, t, u, phase);
      if u.phase != phase {
        CatchUpKeeps(c, s, phase, t);
      } else if u.pc.Wait? {
        if forall v :: 0 <= v < |s.tiles| ==> Arrived(s.tiles[v], phase) {
          NextPhaseKeeps(c, s, phase, t);
          phase' := phase + 1;
        }
      } else if u.pc.MulA? {
        ReadKeeps(c, s, phase, t);
      } else if u.pc.AddC? {
        StoreCKeeps(c, s, phase, t);
      } else if !u.pc.Finished? {
        WalkKeeps(c, s, phase, t);
      }
    }
  }

  lemma WalkKeeps<T(!new)>(c: Config<T>, s: State<T>, phase: nat, t: nat)
    requires InvAt(c, s, phase) && t < |s.tiles| && Walks(s.tiles[t].pc)
    ensures InvAt(c, Step(c, s, t), phase)
  {
    var u := s.tiles[t];
    if u.iy >= Rows(c, u.pc) {
      GridKeeps(c, s, phase, t);
    } else if u.ix >= Cols(c, u.pc) {
      RowKeeps(c, s, phase, t);
    } else if u.pc.LoadA? {
      StoreAKeeps(c, s, phase, t);
    } else if u.pc.LoadB? {
      StoreBKeeps(c, s, phase, t);
    } else if u.pc.Copy? {
      CopyKeeps(c, s, phase, t);
    } else if u.pc.k < c.bw {
      ReadKeeps(c, s, phase, t);
    } else if u.phase / 2 == 0 {
      StoreCKeeps(c, s, phase, t);
    } else {
      ReadCKeeps(c, s, phase, t);
    }
  }

  lemma BlocksPositive<T(!new)>(c: Config<T>)
    requires ConfigOk(c)
    ensures Blocks(c) > 0 && Cell(c.bw, Blocks(c), 0) == c.N
  {
    DivMod(c.N, c.bw);
  }

  lemma StartInv<T(!new)>(c: Config<T>, s: State<T>)
    requires Start(c, s)
    ensures InvAt(c, s, 0)
  {
    BlocksPositive(c);
    forall t: nat | t < |s.tiles| ensures TileOk(c, t, s.tiles[t], 0) {
      BeginOk(c, t, 0);
    }
    forall y: nat, k: nat | y < c.h && k < c.bw ensures AOk(c, s, 0, y, k) {
      BeginOk(c, Owner(c, y, k), 0);
      assert Owns(c, Owner(c, y, k), y, k);
    }
  }

  // ---- progress ----

  /** A tile that has a word to load, store or copy, or a loop to end, moves. */
  lemma WorkerMoves<T(!new)>(c: Config<T>, s: State<T>, t: nat)
    requires Valid(c, s) && t < |s.tiles| && !s.tiles[t].pc.Wait? && !s.tiles[t].pc.Finished?
    ensures Step(c, s, t) != s
  {
    assert Step(c, s, t).tiles[t] != s.tiles[t];
  }

  ghost predicate AllFinished<T>(s: State<T>) {
    forall t :: 0 <= t < |s.tiles| ==> s.tiles[t].pc.Finished?
  }

  /** Unless all tiles have finished, some tile of the group can move. */
  lemma NeverStuck<T(!new)>(c: Config<T>, s: State<T>, phase: nat)
    requires InvAt(c, s, phase)
    ensures AllFinished(s) || exists t :: 0 <= t < |s.tiles| && Step(c, s, t) != s
  {
    forall t: nat | t < |s.tiles| ensures TileOk(c, t, s.tiles[t], phase) {
    }
    if t: nat :| t < |s.tiles| && !s.tiles[t].pc.Wait? && !s.tiles[t].pc.Finished? {
      WorkerMoves(c, s, t);
    } else if t: nat :| t < |s.tiles| && s.tiles[t].pc.Wait? && s.tiles[t].phase + 1 == phase {
      WaiterMoves(c, s, phase, t);
    } else if t: nat :| t < |s.tiles| && s.tiles[t].pc.Wait? {
      WaiterMoves(c, s, phase, t);
    }
  }

  /** A waiting tile moves if none of its group is busy or further behind. */
  lemma WaiterMoves<T(!new)>(c: Config<T>, s: State<T>, phase: nat, t: nat)
    requires InvAt(c, s, phase) && t < |s.tiles| && s.tiles[t].pc.Wait?
    requires forall v: nat :: v < |s.tiles| ==> s.tiles[v].pc.Wait? || s.tiles[v].pc.Finished?
    requires forall v: nat :: v < |s.tiles| ==> s.tiles[t].phase <= s.tiles[v].phase
    ensures Step(c, s, t) != s
  {
    var u := s.tiles[t];
    forall v | 0 <= v < |s.tiles| ensures Arrived(s.tiles[v], u.phase) {
      assert TileOk(c, v, s.tiles[v], phase) && TileOk(c, t, u, phase);
    }
    assert Step(c, s, t).tiles[t].phase == u.phase + 1;
  }
}
