/** The launch of matrix_mul_shared_mem on a grid of tile groups: every group runs the kernel on
    shared arrays of its own, and all copy their blocks into the same C. The steps of all tiles of
    all groups mix in any order. */
module TiledMatMulGrid {
  import opened Arithmetic
  import opened Ring
  import opened TiledMatMul

  /** kernel: what all groups have in common; down, across: the grid of tile groups. */
  datatype Launch<!T> = Launch(kernel: Config<T>, down: nat, across: nat)

  /** The blocks of the groups tile C. */
  ghost predicate LaunchOk<T(!new)>(l: Launch<T>) {
    && SizesOk(l.kernel)
    && l.across > 0 && l.kernel.rows == l.down * l.kernel.h && l.kernel.P == l.across * l.kernel.w
  }

  /** The kernel as group g runs it. */
  function Group<T>(l: Launch<T>, g: nat): Config<T>
    requires l.across > 0
  {
    l.kernel.(gy := g / l.across, gx := g % l.across)
  }

  lemma InGrid(g: nat, down: nat, across: nat)
    requires across > 0 && g < down * across
    ensures g / across < down && g % across < across
  {
    assert down * across == across * down;
    QuotientBound(g, across, down);
    DivMod(g, across);
  }

  lemma GroupOk<T(!new)>(l: Launch<T>, g: nat)
    requires LaunchOk(l) && g < l.down * l.across
    ensures ConfigOk(Group(l, g)) && g / l.across < l.down && g % l.across < l.across
  {
    InGrid(g, l.down, l.across);
    MultipleAtMost(g / l.across + 1, l.down, l.kernel.h);
    MultipleAtMost(g % l.across + 1, l.across, l.kernel.w);
  }

  lemma MultipleAtMost(a: nat, b: nat, m: nat)
    requires a <= b
    ensures a * m <= b * m
  {
    MulBound(b - a, m);
    assert b * m == a * m + (b - a) * m;
  }

  /** The shared arrays and the tiles of one group. */
  datatype Local<+T> = Local(shA: seq<T>, shB: seq<T>, shC: seq<T>, tiles: seq<Tile<T>>)

  datatype Machine<+T> = Machine(C: seq<T>, groups: seq<Local<T>>)

  /** What group g sees. */
  function View<T>(s: Machine<T>, g: nat): State<T>
    requires g < |s.groups|
  {
    var r := s.groups[g];
    State(r.shA, r.shB, r.shC, s.C, r.tiles)
  }

  ghost predicate GridValid<T(!new)>(l: Launch<T>, s: Machine<T>) {
    && LaunchOk(l) && |s.groups| == l.down * l.across && |s.C| == l.kernel.rows * l.kernel.P
    && forall g: nat :: g < |s.groups| ==> Valid(Group(l, g), View(s, g))
  }

  /** A step of tile t of group g. */
  datatype Turn = Turn(g: nat, t: nat)

  ghost function GridStep<T(!new)>(l: Launch<T>, s: Machine<T>, turn: Turn): (s': Machine<T>)
    requires GridValid(l, s)
    ensures GridValid(l, s') && |s'.C| == |s.C|
  {
    if turn.g >= |s.groups| then s
    else
      var r := Step(Group(l, turn.g), View(s, turn.g), turn.t);
      Machine(r.C, s.groups[turn.g := Local(r.shA, r.shB, r.shC, r.tiles)])
  }

  ghost function Exec<T(!new)>(l: Launch<T>, s: Machine<T>, sched: seq<Turn>): (s': Machine<T>)
    requires GridValid(l, s)
    ensures GridValid(l, s') && |s'.C| == |s.C| && |s'.groups| == |s.groups|
  {
    if sched == [] then s else GridStep(l, Exec(l, s, sched[..|sched| - 1]), sched[|sched| - 1])
  }

  /** All tiles of all groups start; shared memory and C hold anything. */
  ghost predicate GridStart<T(!new)>(l: Launch<T>, s: Machine<T>) {
    GridValid(l, s) && forall g: nat :: g < |s.groups| ==> Start(Group(l, g), View(s, g))
  }

  /** Every group is where the kernel alone would be, in a phase of its own. */
  ghost predicate GridInv<T(!new)>(l: Launch<T>, s: Machine<T>, phases: seq<nat>) {
    && GridValid(l, s) && |phases| == |s.groups|
    && forall g: nat :: g < |s.groups| ==> InvAt(Group(l, g), View(s, g), phases[g])
  }

  // ---- the groups keep out of each other's way ----

  /** No step of a group changes C outside the group's block. */
  lemma OnlyOwnBlock<T(!new)>(c: Config<T>, s: State<T>, t: nat, p: nat)
    requires Valid(c, s) && p < |s.C| && Outside(c, p)
    ensures Step(c, s, t).C[p] == s.C[p]
  {
  }

  lemma PlaceInGrid(y: nat, h: nat, gy: nat, v: nat)
    requires v < h && y == gy * h + v
    ensures gy == y / h
  {
    DivModIs(y, h, gy, v);
  }

  lemma BlocksApart<T(!new)>(l: Launch<T>, g: nat, g': nat, y: nat, x: nat, v: nat, u: nat)
    requires LaunchOk(l) && g < l.down * l.across && g' < l.down * l.across && g != g'
    requires y < l.kernel.h && x < l.kernel.w && v < l.kernel.h && u < l.kernel.w
    ensures OutCell(Group(l, g'), y, x) != OutCell(Group(l, g), v, u)
  {
    var c, c', h, w := Group(l, g), Group(l, g'), l.kernel.h, l.kernel.w;
    GroupOk(l, g);
    GroupOk(l, g');
    OutInside(c', y, x);
    OutInside(c, v, u);
    var row', col', row, col := c'.gy * h + y, c'.gx * w + x, c.gy * h + v, c.gx * w + u;
    CellsDiffer(c.P, row', col', row, col);
    PlaceInGrid(row', h, c'.gy, y);
    PlaceInGrid(col', w, c'.gx, x);
    PlaceInGrid(row, h, c.gy, v);
    PlaceInGrid(col, w, c.gx, u);
    GroupsDiffer(g, g', l.across);
  }

  lemma GroupsDiffer(g: nat, g': nat, across: nat)
    requires across > 0 && g != g'
    ensures g / across != g' / across || g % across != g' % across
  {
    DivMod(g, across);
    DivMod(g', across);
  }

  /** What other groups store into C does not matter to a group. */
  lemma OtherBlocksDoNotMatter<T(!new)>(c: Config<T>, s: State<T>, phase: nat, C': seq<T>)
    requires InvAt(c, s, phase) && |C'| == |s.C|
    requires forall y: nat, x: nat :: y < c.h && x < c.w && OutCell(c, y, x) < |C'| ==>
      C'[OutCell(c, y, x)] == s.C[OutCell(c, y, x)]
    ensures InvAt(c, s.(C := C'), phase)
  {
    var s' := s.(C := C');
    forall y: nat, k: nat | y < c.h && k < c.bw ensures AOk(c, s', phase, y, k) {
      assert AOk(c, s, phase, y, k);
    }
    forall k: nat, x: nat | k < c.bw && x < c.w ensures BOk(c, s', phase, k, x) {
      assert BOk(c, s, phase, k, x);
    }
    forall y: nat, x: nat | y < c.h && x < c.w ensures COk(c, s', phase, y, x) && OutOk(c, s', phase, y, x) {
      assert COk(c, s, phase, y, x) && OutOk(c, s, phase, y, x);
      OutInside(c, y, x);
    }
  }

  lemma OthersKeepInv<T(!new)>(l: Launch<T>, s: Machine<T>, turn: Turn, g: nat, phase: nat)
    requires GridValid(l, s) && turn.g < |s.groups| && g < |s.groups| && g != turn.g
    requires InvAt(Group(l, g), View(s, g), phase)
    ensures InvAt(Group(l, g), View(GridStep(l, s, turn), g), phase)
  {
    var s' := GridStep(l, s, turn);
    var c := Group(l, g);
    forall y: nat, x: nat | y < c.h && x < c.w && OutCell(c, y, x) < |s'.C|
      ensures s'.C[OutCell(c, y, x)] == s.C[OutCell(c, y, x)]
    {
      forall v: nat, u: nat | v < c.h && u < c.w ensures OutCell(c, y, x) != OutCell(Group(l, turn.g), v, u) {
        BlocksApart(l, turn.g, g, y, x, v, u);
      }
      OnlyOwnBlock(Group(l, turn.g), View(s, turn.g), turn.t, OutCell(c, y, x));
    }
    OtherBlocksDoNotMatter(c, View(s, g), phase, s'.C);
  }

  lemma GridStepKeeps<T(!new)>(l: Launch<T>, s: Machine<T>, phases: seq<nat>, turn: Turn) returns (phases': seq<nat>)
    requires GridInv(l, s, phases)
    ensures GridInv(l, GridStep(l, s, turn), phases')
  {
    phases' := phases;
    if turn.g < |s.groups| {
      var s' := GridStep(l, s, turn);
      var phase := StepKeeps(Group(l, turn.g), View(s, turn.g), phases[turn.g], turn.t);
      phases' := phases[turn.g := phase];
      assert View(s', turn.g) == Step(Group(l, turn.g), View(s, turn.g), turn.t);
      forall g: nat | g < |s'.groups| ensures InvAt(Group(l, g), View(s', g), phases'[g]) {
        if g != turn.g {
          OthersKeepInv(l, s, turn, g, phases[g]);
        }
      }
    }
  }

  lemma GridStartInv<T(!new)>(l: Launch<T>, s: Machine<T>)
    requires GridStart(l, s)
    ensures GridInv(l, s, seq(|s.groups|, _ => 0))
  {
    forall g: nat | g < |s.groups| ensures InvAt(Group(l, g), View(s, g), 0) {
      StartInv(Group(l, g), View(s, g));
    }
  }

  lemma {:induction false} ExecKeeps<T(!new)>(l: Launch<T>, s: Machine<T>, sched: seq<Turn>) returns (phases: seq<nat>)
    requires GridStart(l, s)
    ensures GridInv(l, Exec(l, s, sched), phases)
  {
    if sched == [] {
      GridStartInv(l, s);
      phases := seq(|s.groups|, _ => 0);
    } else {
      phases := ExecKeeps(l, s, sched[..|sched| - 1]);
      phases := GridStepKeeps(l, Exec(l, s, sched[..|sched| - 1]), phases, sched[|sched| - 1]);
    }
  }

  lemma GroupKeeps<T(!new)>(l: Launch<T>, s: Machine<T>, sched: seq<Turn>, g: nat) returns (phase: nat)
    requires GridStart(l, s) && g < |s.groups|
    ensures InvAt(Group(l, g), View(Exec(l, s, sched), g), phase)
  {
    var phases := ExecKeeps(l, s, sched);
    phase := phases[g];
  }

  // ---- what the launch computes, over every run ----

  /** n products of row y of A and column x of B, added from the left. */
  function Product<T>(c: Config<T>, y: nat, x: nat, n: nat): T {
    if n == 0 then c.ring.zero
    else c.ring.add(Product(c, y, x, n - 1),
                    c.ring.mul(Get(c, c.a, y * c.N + n - 1), Get(c, c.b, (n - 1) * c.P + x)))
  }

  /** Element (y, x) of C is that of A times B. */
  ghost predicate HoldsProduct<T>(l: Launch<T>, s: Machine<T>, y: nat, x: nat) {
    && y * l.kernel.P + x < |s.C|
    && s.C[y * l.kernel.P + x] == Product(l.kernel, y, x, l.kernel.N)
  }

  lemma {:induction false} SumIsProduct<T(!new)>(l: Launch<T>, g: nat, y: nat, x: nat, n: nat)
    requires l.across > 0
    ensures Sum(Group(l, g), y, x, 0, n) == Product(l.kernel, RowOf(Group(l, g), y), ColOf(Group(l, g), x), n)
  {
    if n > 0 {
      SumIsProduct(l, g, y, x, n - 1);
    }
  }

  ghost predicate SomeFinished<T>(s: Machine<T>, g: nat)
    requires g < |s.groups|
  {
    exists t: nat :: t < |s.groups[g].tiles| && s.groups[g].tiles[t].pc.Finished?
  }

  ghost predicate EachFinished<T>(s: Machine<T>) {
    forall g: nat :: g < |s.groups| ==> SomeFinished(s, g)
  }

  lemma FinishedBlock<T(!new)>(c: Config<T>, e: State<T>, phase: nat, t: nat, y: nat, x: nat)
    requires InvAt(c, e, phase) && t < |e.tiles| && e.tiles[t].pc.Finished? && y < c.h && x < c.w
    ensures OutCell(c, y, x) < |e.C| && e.C[OutCell(c, y, x)] == Sum(c, y, x, 0, c.N)
  {
    assert TileOk(c, t, e.tiles[t], phase);
    BlocksPositive(c);
    OutInside(c, y, x);
    assert OutOk(c, e, phase, y, x);
    AccIsSum(c, y, x, Blocks(c));
  }

  /** Once one of its tiles has finished, a group's block of C is that of A times B, whatever the
      other groups are doing. */
  lemma BlockIsDone<T(!new)>(l: Launch<T>, s: Machine<T>, sched: seq<Turn>, g: nat, y: nat, x: nat)
    requires GridStart(l, s) && g < |s.groups| && y < l.kernel.h && x < l.kernel.w
    requires SomeFinished(Exec(l, s, sched), g)
    ensures HoldsProduct(l, Exec(l, s, sched), RowOf(Group(l, g), y), ColOf(Group(l, g), x))
  {
    var phase := GroupKeeps(l, s, sched, g);
    var e, c := View(Exec(l, s, sched), g), Group(l, g);
    var t: nat :| t < |e.tiles| && e.tiles[t].pc.Finished?;
    FinishedBlock(c, e, phase, t, y, x);
    SumIsProduct(l, g, y, x, c.N);
  }

  /** The group, and the place in its block, of element (y, x) of C. */
  lemma BlockOf<T(!new)>(l: Launch<T>, y: nat, x: nat) returns (g: nat, v: nat, u: nat)
    requires LaunchOk(l) && y < l.kernel.rows && x < l.kernel.P
    ensures g < l.down * l.across && v < l.kernel.h && u < l.kernel.w
    ensures RowOf(Group(l, g), v) == y && ColOf(Group(l, g), u) == x
  {
    var h, w := l.kernel.h, l.kernel.w;
    assert l.down * h == h * l.down && l.across * w == w * l.across;
    MulBound(l.down, h);
    QuotientBound(y, h, l.down);
    QuotientBound(x, w, l.across);
    DivMod(y, h);
    DivMod(x, w);
    g, v, u := Cell(l.across, y / h, x / w), y % h, x % w;
    DivModIs(g, l.across, y / h, x / w);
    CellInside(l.down, l.across, y / h, x / w);
  }

  /** However the steps of all tiles of all groups mix, once every group has a finished tile C is A
      times B. */
  lemma EveryRunMultiplies<T(!new)>(l: Launch<T>, s: Machine<T>, sched: seq<Turn>, y: nat, x: nat)
    requires GridStart(l, s) && y < l.kernel.rows && x < l.kernel.P
    requires EachFinished(Exec(l, s, sched))
    ensures HoldsProduct(l, Exec(l, s, sched), y, x)
  {
    var g, v, u := BlockOf(l, y, x);
    assert SomeFinished(Exec(l, s, sched), g);
    BlockIsDone(l, s, sched, g, v, u);
  }

  /** While a tile multiplies block b, every word of its group's shared A and B is that of block b,
      whatever the other tiles have done. */
  lemma NoRaceOnSharedBlocks<T(!new)>(l: Launch<T>, s: Machine<T>, sched: seq<Turn>,
                                      g: nat, t: nat, y: nat, x: nat, k: nat)
    requires GridStart(l, s) && g < |s.groups| && t < |Exec(l, s, sched).groups[g].tiles|
    requires y < l.kernel.h && x < l.kernel.w && k < l.kernel.bw
    requires var u := Exec(l, s, sched).groups[g].tiles[t];
      u.phase % 2 == 1 && !u.pc.Wait? && !u.pc.Finished?
    ensures
      var c, r := Group(l, g), Exec(l, s, sched).groups[g];
      var b := r.tiles[t].phase / 2;
      && Cell(c.bw, y, k) < |r.shA| && Cell(c.bw, x, k) < |r.shB|
      && r.shA[Cell(c.bw, y, k)] == AWord(c, y, Cell(c.bw, b, k))
      && r.shB[Cell(c.bw, x, k)] == BWord(c, Cell(c.bw, b, k), x)
  {
    var phase := GroupKeeps(l, s, sched, g);
    SharedIsLoaded(Group(l, g), View(Exec(l, s, sched), g), phase, t, y, x, k);
  }

  lemma SharedIsLoaded<T(!new)>(c: Config<T>, e: State<T>, phase: nat, t: nat, y: nat, x: nat, k: nat)
    requires InvAt(c, e, phase) && t < |e.tiles| && y < c.h && x < c.w && k < c.bw
    requires e.tiles[t].phase % 2 == 1 && !e.tiles[t].pc.Wait? && !e.tiles[t].pc.Finished?
    ensures
      var b := e.tiles[t].phase / 2;
      && Cell(c.bw, y, k) < |e.shA| && Cell(c.bw, x, k) < |e.shB|
      && e.shA[Cell(c.bw, y, k)] == AWord(c, y, Cell(c.bw, b, k))
      && e.shB[Cell(c.bw, x, k)] == BWord(c, Cell(c.bw, b, k), x)
  {
    assert TileOk(c, t, e.tiles[t], phase);
    CellInside(c.h, c.bw, y, k);
    CellInside(c.w, c.bw, x, k);
    assert AOk(c, e, phase, y, k);
    assert BOk(c, e, phase, k, x);
  }

  lemma GroupMoves<T(!new)>(l: Launch<T>, s: Machine<T>, g: nat, phase: nat)
    requires GridValid(l, s) && g < |s.groups| && InvAt(Group(l, g), View(s, g), phase) && !AllFinished(View(s, g))
    ensures exists turn :: GridStep(l, s, turn) != s
  {
    TiledMatMul.NeverStuck(Group(l, g), View(s, g), phase);
    var t: nat :| Step(Group(l, g), View(s, g), t) != View(s, g);
    assert View(GridStep(l, s, Turn(g, t)), g) == Step(Group(l, g), View(s, g), t);
  }

  /** Until all tiles of all groups have finished, some tile can move. */
  lemma NeverStuck<T(!new)>(l: Launch<T>, s: Machine<T>, sched: seq<Turn>)
    requires GridStart(l, s)
    ensures
      var e := Exec(l, s, sched);
      || (forall g: nat :: g < |e.groups| ==> AllFinished(View(e, g)))
      || exists turn :: GridStep(l, e, turn) != e
  {
    var e := Exec(l, s, sched);
    if g: nat :| g < |e.groups| && !AllFinished(View(e, g)) {
      var phase := GroupKeeps(l, s, sched, g);
      GroupMoves(l, e, g, phase);
    }
  }
}
