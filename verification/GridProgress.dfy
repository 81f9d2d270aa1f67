/** Every run of the tiled multiply on a grid of tile groups ends: the steps that change something
    are bounded, and when none is left all tiles of all groups have finished. */
module GridProgress {
  import opened Totals
  import opened Arithmetic
  import opened Ring
  import opened TiledMatMul
  import opened TiledMatMulGrid

  /** The block sizes of a kernel, and how many blocks it goes through. */
  datatype Sizes = Sizes(h: nat, w: nat, bw: nat, blocks: nat)

  function SizesOf<T>(c: Config<T>): Sizes
    requires c.bw > 0
  {
    Sizes(c.h, c.w, c.bw, Blocks(c))
  }

  /** At most this many steps at one element of a grid: two for each product, and two to store. */
  function ElementCost(z: Sizes): nat {
    2 * z.bw + 2
  }

  function Ahead(i: nat, n: nat): nat {
    if i < n then n - i else 0
  }

  /** Steps left of a walk over a grid, from row iy and column ix. */
  function Walk(rows: nat, cols: nat, cost: nat, iy: nat, ix: nat): nat {
    Ahead(iy, rows) * (cols * cost + 1) + Ahead(ix, cols) * cost
  }

  function WholeWalk(rows: nat, cols: nat, cost: nat): nat {
    Walk(rows, cols, cost, 0, 0)
  }

  function LoadBCost(z: Sizes): nat {
    WholeWalk(z.bw, z.w, ElementCost(z)) + 2 * z.bw + 4
  }

  /** At most this many steps of a tile between two barriers. */
  function PhaseCost(z: Sizes): nat {
    LoadBCost(z) + WholeWalk(z.h, z.bw, ElementCost(z)) + WholeWalk(z.h, z.w, ElementCost(z)) + 2 * z.bw + 4
  }

  function LeftOfPhase<T>(z: Sizes, u: Tile<T>): int {
    var cost := ElementCost(z);
    match u.pc
    case LoadA => Walk(z.h, z.bw, cost, u.iy, u.ix) + LoadBCost(z)
    case LoadB => Walk(z.bw, z.w, cost, u.iy, u.ix) + 2 * z.bw + 3
    case Mul(k, _) => Walk(z.h, z.w, cost, u.iy, u.ix) + 2 * z.bw + 3 - 2 * k
    case MulA(k, _, _) => Walk(z.h, z.w, cost, u.iy, u.ix) + 2 * z.bw + 2 - 2 * k
    case AddC(_, _) => Walk(z.h, z.w, cost, u.iy, u.ix) + 2
    case Copy => Walk(z.h, z.w, cost, u.iy, u.ix) + 2 * z.bw + 3
    case Wait => 1
    case Finished => 0
  }

  function Left<T>(z: Sizes, u: Tile<T>): int {
    PhaseCost(z) * (2 * z.blocks + 1 - u.phase) + LeftOfPhase(z, u) - (if u.pc.Finished? then 0 else PhaseCost(z))
  }

  // ---- a walk gets shorter ----

  lemma MoreRows(a: nat, b: nat, m: nat)
    requires a < b
    ensures a * m + m <= b * m
  {
    MulBound(b - a - 1, m);
    assert b * m == a * m + m + (b - a - 1) * m;
  }

  lemma NextRowIsCloser(rows: nat, cols: nat, cost: nat, iy: nat, ix: nat, iy': nat, ix': nat)
    requires iy < rows && iy < iy'
    ensures Walk(rows, cols, cost, iy', ix') < Walk(rows, cols, cost, iy, ix)
  {
    MoreRows(Ahead(iy', rows), Ahead(iy, rows), cols * cost + 1);
    AtMostTimes(Ahead(ix', cols), cols, cost);
  }

  lemma AtMostTimes(a: nat, b: nat, m: nat)
    requires a <= b
    ensures a * m <= b * m
  {
    if a < b {
      MoreRows(a, b, m);
    }
  }

  lemma NextElementIsCloser(rows: nat, cols: nat, cost: nat, iy: nat, ix: nat, ix': nat)
    requires ix < cols && ix < ix'
    ensures Walk(rows, cols, cost, iy, ix') + cost <= Walk(rows, cols, cost, iy, ix)
  {
    MoreRows(Ahead(ix', cols), Ahead(ix, cols), cost);
  }

  lemma WholeIsMost(rows: nat, cols: nat, cost: nat, iy: nat, ix: nat)
    ensures Walk(rows, cols, cost, iy, ix) <= WholeWalk(rows, cols, cost)
  {
    AtMostTimes(Ahead(iy, rows), rows, cols * cost + 1);
    AtMostTimes(Ahead(ix, cols), cols, cost);
  }

  // ---- every step lowers what is left ----

  /** u' is u one step on, in the same phase. */
  lemma ElementLowers<T(!new)>(c: Config<T>, s: State<T>, t: nat)
    requires Valid(c, s) && t < |s.tiles|
    requires var u := s.tiles[t]; u.pc.LoadA? || u.pc.LoadB? || u.pc.Mul? || u.pc.Copy?
    requires s.tiles[t].iy < Rows(c, s.tiles[t].pc) && s.tiles[t].ix < Cols(c, s.tiles[t].pc)
    ensures var u, u' := s.tiles[t], AtElement(c, s, t).tiles[t];
      u'.phase == u.phase && LeftOfPhase(SizesOf(c), u') < LeftOfPhase(SizesOf(c), u)
  {
    var u := s.tiles[t];
    NextElementIsCloser(Rows(c, u.pc), Cols(c, u.pc), ElementCost(SizesOf(c)), u.iy, u.ix, u.ix + c.tx);
  }

  lemma RowLowers<T>(c: Config<T>, t: nat, u: Tile<T>)
    requires c.bw > 0 && c.tx > 0 && c.ty > 0
    requires u.pc.LoadA? || u.pc.LoadB? || u.pc.Mul? || u.pc.Copy?
    requires u.iy < Rows(c, u.pc)
    ensures LeftOfPhase(SizesOf(c), u.(iy := u.iy + c.ty, ix := Bx(c, t))) < LeftOfPhase(SizesOf(c), u)
  {
    NextRowIsCloser(Rows(c, u.pc), Cols(c, u.pc), ElementCost(SizesOf(c)), u.iy, u.ix, u.iy + c.ty, Bx(c, t));
  }

  lemma GridLowers<T>(c: Config<T>, t: nat, u: Tile<T>)
    requires c.bw > 0 && c.tx > 0 && TileValid(c, u)
    requires u.pc.LoadA? || u.pc.LoadB? || u.pc.Mul? || u.pc.Copy?
    ensures GridDone(c, t, u).phase == u.phase
    ensures LeftOfPhase(SizesOf(c), GridDone(c, t, u)) < LeftOfPhase(SizesOf(c), u)
  {
    WholeIsMost(c.bw, c.w, ElementCost(SizesOf(c)), By(c, t), Bx(c, t));
  }

  lemma MultiplyLowers<T(!new)>(c: Config<T>, s: State<T>, t: nat)
    requires Valid(c, s) && t < |s.tiles| && (s.tiles[t].pc.MulA? || s.tiles[t].pc.AddC?)
    ensures var u, u' := s.tiles[t], Step(c, s, t).tiles[t];
      u'.phase == u.phase && LeftOfPhase(SizesOf(c), u') < LeftOfPhase(SizesOf(c), u)
  {
    var u := s.tiles[t];
    NextElementIsCloser(c.h, c.w, ElementCost(SizesOf(c)), u.iy, u.ix, u.ix + c.tx);
  }

  lemma BeginIsBelow<T>(c: Config<T>, t: nat, phase: nat)
    requires c.bw > 0 && c.tx > 0 && phase <= 2 * Blocks(c) + 1
    ensures Left(SizesOf(c), Begin(c, t, phase)) <= PhaseCost(SizesOf(c)) * (2 * Blocks(c) + 1 - phase)
  {
    var z := SizesOf(c);
    WholeIsMost(z.h, z.bw, ElementCost(z), By(c, t), Bx(c, t));
    WholeIsMost(z.h, z.w, ElementCost(z), By(c, t), Bx(c, t));
  }

  lemma LessOne(k: int, n: int)
    ensures k * (n - 1) == k * n - k
  {
  }

  lemma BarrierLowers<T>(c: Config<T>, t: nat, u: Tile<T>)
    requires c.bw > 0 && c.tx > 0 && TileValid(c, u) && u.pc.Wait?
    ensures Left(SizesOf(c), Begin(c, t, u.phase + 1)) < Left(SizesOf(c), u)
  {
    BeginIsBelow(c, t, u.phase + 1);
    LessOne(PhaseCost(SizesOf(c)), 2 * Blocks(c) + 1 - u.phase);
  }

  lemma WalkLowers<T(!new)>(c: Config<T>, s: State<T>, t: nat)
    requires Valid(c, s) && t < |s.tiles|
    requires var u := s.tiles[t]; u.pc.LoadA? || u.pc.LoadB? || u.pc.Mul? || u.pc.Copy?
    ensures var u, u' := s.tiles[t], Step(c, s, t).tiles[t];
      u'.phase == u.phase && LeftOfPhase(SizesOf(c), u') < LeftOfPhase(SizesOf(c), u)
  {
    var u := s.tiles[t];
    if u.iy >= Rows(c, u.pc) {
      GridLowers(c, t, u);
    } else if u.ix >= Cols(c, u.pc) {
      RowLowers(c, t, u);
    } else {
      ElementLowers(c, s, t);
    }
  }

  lemma OwnLowers<T(!new)>(c: Config<T>, s: State<T>, t: nat)
    requires Valid(c, s) && t < |s.tiles| && Step(c, s, t) != s
    ensures Left(SizesOf(c), Step(c, s, t).tiles[t]) < Left(SizesOf(c), s.tiles[t])
  {
    var u := s.tiles[t];
    if u.pc.Wait? {
      BarrierLowers(c, t, u);
    } else if u.pc.MulA? || u.pc.AddC? {
      MultiplyLowers(c, s, t);
    } else {
      WalkLowers(c, s, t);
    }
  }

  lemma OthersStay<T(!new)>(c: Config<T>, s: State<T>, t: nat, v: nat)
    requires Valid(c, s) && v < |s.tiles| && v != t
    ensures Step(c, s, t).tiles[v] == s.tiles[v]
  {
  }

  lemma LeftIsPositive<T>(c: Config<T>, u: Tile<T>)
    requires c.bw > 0 && TileValid(c, u)
    ensures Left(SizesOf(c), u) >= 0
  {
    var z := SizesOf(c);
    if u.pc.Finished? {
    } else {
      NotNegative(PhaseCost(z), 2 * z.blocks - u.phase);
      LessOne(PhaseCost(z), 2 * z.blocks + 1 - u.phase);
    }
  }

  lemma NotNegative(a: nat, b: nat)
    ensures 0 <= a * b
  {
  }

  // ---- all tiles of all groups ----

  function LeftOfTiles<T>(z: Sizes, tiles: seq<Tile<T>>): seq<int> {
    seq(|tiles|, t requires 0 <= t < |tiles| => Left(z, tiles[t]))
  }

  function LeftOfGroups<T>(z: Sizes, groups: seq<Local<T>>): seq<int> {
    seq(|groups|, g requires 0 <= g < |groups| => Total(LeftOfTiles(z, groups[g].tiles)))
  }

  lemma GroupLowers<T(!new)>(c: Config<T>, s: State<T>, t: nat)
    requires Valid(c, s) && Step(c, s, t) != s
    ensures Total(LeftOfTiles(SizesOf(c), Step(c, s, t).tiles)) < Total(LeftOfTiles(SizesOf(c), s.tiles))
  {
    var z, s' := SizesOf(c), Step(c, s, t);
    OwnLowers(c, s, t);
    forall v: nat | v < |s.tiles| && v != t ensures s'.tiles[v] == s.tiles[v] {
      OthersStay(c, s, t, v);
    }
    TotalChanges(LeftOfTiles(z, s.tiles), LeftOfTiles(z, s'.tiles), t);
  }

  lemma StepLowers<T(!new)>(l: Launch<T>, s: Machine<T>, turn: Turn)
    requires GridValid(l, s)
    ensures Total(LeftOfGroups(SizesOf(l.kernel), GridStep(l, s, turn).groups))
        + (if GridStep(l, s, turn) != s then 1 else 0) <= Total(LeftOfGroups(SizesOf(l.kernel), s.groups))
  {
    var s', z, g := GridStep(l, s, turn), SizesOf(l.kernel), turn.g;
    if g < |s.groups| {
      if Step(Group(l, g), View(s, g), turn.t) == View(s, g) {
        IdleGroup(l, s, turn);
      } else {
        GroupLowers(Group(l, g), View(s, g), turn.t);
        TotalChanges(LeftOfGroups(z, s.groups), LeftOfGroups(z, s'.groups), g);
      }
    }
  }

  lemma IdleGroup<T(!new)>(l: Launch<T>, s: Machine<T>, turn: Turn)
    requires GridValid(l, s) && turn.g < |s.groups|
    requires Step(Group(l, turn.g), View(s, turn.g), turn.t) == View(s, turn.g)
    ensures GridStep(l, s, turn) == s
  {
    assert s.groups[turn.g := s.groups[turn.g]] == s.groups;
  }

  /** How many steps of the run change something. */
  ghost function Moves<T(!new)>(l: Launch<T>, s: Machine<T>, sched: seq<Turn>): nat
    requires GridValid(l, s)
  {
    if sched == [] then 0
    else
      var most, turn := sched[..|sched| - 1], sched[|sched| - 1];
      Moves(l, s, most) + if GridStep(l, Exec(l, s, most), turn) != Exec(l, s, most) then 1 else 0
  }

  lemma {:induction false} MovesAreLeft<T(!new)>(l: Launch<T>, s: Machine<T>, sched: seq<Turn>)
    requires GridValid(l, s)
    ensures Moves(l, s, sched) + Total(LeftOfGroups(SizesOf(l.kernel), Exec(l, s, sched).groups))
         <= Total(LeftOfGroups(SizesOf(l.kernel), s.groups))
  {
    if sched != [] {
      var most := sched[..|sched| - 1];
      MovesAreLeft(l, s, most);
      StepLowers(l, Exec(l, s, most), sched[|sched| - 1]);
    }
  }

  lemma TotalIsPositive<T(!new)>(l: Launch<T>, s: Machine<T>)
    requires GridValid(l, s)
    ensures Total(LeftOfGroups(SizesOf(l.kernel), s.groups)) >= 0
  {
    var z := SizesOf(l.kernel);
    forall g: nat | g < |s.groups| ensures LeftOfGroups(z, s.groups)[g] >= 0 {
      var w := LeftOfTiles(z, s.groups[g].tiles);
      forall t: nat | t < |w| ensures w[t] >= 0 {
        assert Valid(Group(l, g), View(s, g));
        LeftIsPositive(Group(l, g), View(s, g).tiles[t]);
      }
      TotalNotNegative(w);
    }
    TotalNotNegative(LeftOfGroups(z, s.groups));
  }

  /** At most this many steps of a tile. */
  function TileCost(z: Sizes): nat {
    PhaseCost(z) * (2 * z.blocks + 1)
  }

  lemma StartTotal<T(!new)>(l: Launch<T>, s: Machine<T>)
    requires GridStart(l, s)
    ensures Total(LeftOfGroups(SizesOf(l.kernel), s.groups))
         <= (l.down * l.across) * ((l.kernel.ty * l.kernel.tx) * TileCost(SizesOf(l.kernel)))
  {
    var z := SizesOf(l.kernel);
    forall g: nat | g < |s.groups|
      ensures LeftOfGroups(z, s.groups)[g] <= (l.kernel.ty * l.kernel.tx) * TileCost(z)
    {
      var w := LeftOfTiles(z, s.groups[g].tiles);
      forall t: nat | t < |w| ensures w[t] <= TileCost(z) {
        assert Start(Group(l, g), View(s, g));
        BeginIsBelow(Group(l, g), t, 0);
      }
      TotalIsBelow(w, TileCost(z));
    }
    TotalIsBelow(LeftOfGroups(z, s.groups), (l.kernel.ty * l.kernel.tx) * TileCost(z));
  }

  // ---- the end of a run ----

  ghost predicate AtRest<T(!new)>(l: Launch<T>, s: Machine<T>)
    requires GridValid(l, s)
  {
    forall turn :: GridStep(l, s, turn) == s
  }

  lemma FinishedStays<T(!new)>(l: Launch<T>, s: Machine<T>, turn: Turn)
    requires GridValid(l, s) && forall g: nat :: g < |s.groups| ==> AllFinished(View(s, g))
    ensures GridStep(l, s, turn) == s
  {
    if turn.g < |s.groups| {
      assert AllFinished(View(s, turn.g));
      IdleGroup(l, s, turn);
    }
  }

  /** In every run at most this many steps change something, and none is left exactly when all tiles of
      all groups have finished. */
  lemma EveryRunEnds<T(!new)>(l: Launch<T>, s: Machine<T>, sched: seq<Turn>)
    requires GridStart(l, s)
    ensures Moves(l, s, sched)
         <= (l.down * l.across) * ((l.kernel.ty * l.kernel.tx) * TileCost(SizesOf(l.kernel)))
    ensures AtRest(l, Exec(l, s, sched)) <==>
      forall g: nat :: g < |s.groups| ==> AllFinished(View(Exec(l, s, sched), g))
  {
    MovesAreLeft(l, s, sched);
    StartTotal(l, s);
    TotalIsPositive(l, Exec(l, s, sched));
    TiledMatMulGrid.NeverStuck(l, s, sched);
    if forall g: nat :: g < |s.groups| ==> AllFinished(View(Exec(l, s, sched), g)) {
      forall turn ensures GridStep(l, Exec(l, s, sched), turn) == Exec(l, s, sched) {
        FinishedStays(l, Exec(l, s, sched), turn);
      }
    }
  }

  /** So every run that is carried on while it can be ends with C being A times B. */
  lemma EveryRunEndsMultiplied<T(!new)>(l: Launch<T>, s: Machine<T>, sched: seq<Turn>, y: nat, x: nat)
    requires GridStart(l, s) && y < l.kernel.rows && x < l.kernel.P
    requires AtRest(l, Exec(l, s, sched))
    ensures HoldsProduct(l, Exec(l, s, sched), y, x)
  {
    var e := Exec(l, s, sched);
    EveryRunEnds(l, s, sched);
    forall g: nat | g < |e.groups| ensures SomeFinished(e, g) {
      assert AllFinished(View(e, g));
      GroupHasTile(l, e, g);
      assert View(e, g).tiles[0].pc.Finished?;
    }
    EveryRunMultiplies(l, s, sched, y, x);
  }

  lemma GroupHasTile<T(!new)>(l: Launch<T>, s: Machine<T>, g: nat)
    requires GridValid(l, s) && g < |s.groups|
    ensures |View(s, g).tiles| > 0
  {
    assert Valid(Group(l, g), View(s, g));
    TimesPositive(l.kernel.ty, l.kernel.tx);
  }

  lemma TimesPositive(a: nat, b: nat)
    requires a > 0 && b > 0
    ensures a * b > 0
  {
  }
}
