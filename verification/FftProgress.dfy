/** Every run of the stages of spmd/fft ends: the steps that change something are bounded, and when
    none is left all tiles have finished. */
module FftProgress {
  import opened Totals
  import opened Arithmetic
  import opened Bits
  import opened Ring
  import opened Dft
  import opened Fft
  import opened FftTiles

  /** At most this many steps of a tile in a stage. */
  function StageCost<T>(c: Plan<T>): nat {
    2 * Size(c) + 2
  }

  /** Steps a tile has left in its stage: four for each butterfly, and two at the barrier. */
  function LeftOfStage<T>(c: Plan<T>, u: Tile<T>): int
    requires c.lg >= 1
  {
    match u.pc
    case Work => 4 * (Pairs(c) - u.b) + 2
    case GotOdd(_) => 4 * (Pairs(c) - u.b) + 1
    case GotBoth(_, _) => 4 * (Pairs(c) - u.b)
    case StoredOdd(_, _) => 4 * (Pairs(c) - u.b) - 1
    case Wait => 1
    case Finished => 0
  }

  function Left<T>(c: Plan<T>, u: Tile<T>): int
    requires TileValid(c, u)
  {
    if u.pc.Finished? then 0 else StageCost(c) * (c.lg - u.stage - 1) + LeftOfStage(c, u)
  }

  lemma PairsAreHalf<T>(c: Plan<T>)
    requires c.lg >= 1
    ensures 2 * Pairs(c) == Size(c)
  {
  }

  lemma StageAfter(k: nat, n: int)
    ensures k * (n - 1) == k * n - k
    ensures n >= 0 ==> k * n >= 0
  {
  }

  lemma EntersStage<T>(c: Plan<T>, s: nat)
    requires s <= c.lg
    ensures TileValid(c, EnterStage(c, s)) && Left(c, EnterStage(c, s)) == StageCost(c) * (c.lg - s)
  {
    StageAfter(StageCost(c), c.lg - s);
    if s < c.lg {
      PairsAreHalf(c);
    }
  }

  lemma LeftIsPositive<T>(c: Plan<T>, u: Tile<T>)
    requires TileValid(c, u)
    ensures Left(c, u) >= 0
  {
    if !u.pc.Finished? {
      StageAfter(StageCost(c), c.lg - u.stage - 1);
    }
  }

  function LeftOfEach<T>(c: Plan<T>, st: State<T>): seq<int>
    requires Valid(c, st)
  {
    seq(|st.tiles|, t requires 0 <= t < |st.tiles| => Left(c, st.tiles[t]))
  }

  lemma OwnLowers<T>(c: Plan<T>, st: State<T>, t: nat)
    requires Valid(c, st) && t < |st.tiles| && Step(c, st, t) != st
    ensures Left(c, Step(c, st, t).tiles[t]) < Left(c, st.tiles[t])
  {
    var u, u' := st.tiles[t], Step(c, st, t).tiles[t];
    if u.pc.Wait? {
      EntersStage(c, u.stage + 1);
      assert u' == EnterStage(c, u.stage + 1);
    } else {
      assert u'.stage == u.stage && LeftOfStage(c, u') < LeftOfStage(c, u);
    }
  }

  lemma StepLowers<T>(c: Plan<T>, st: State<T>, t: nat)
    requires Valid(c, st)
    ensures Total(LeftOfEach(c, Step(c, st, t))) + (if Step(c, st, t) != st then 1 else 0) <= Total(LeftOfEach(c, st))
  {
    if Step(c, st, t) != st {
      OwnLowers(c, st, t);
      TotalChanges(LeftOfEach(c, st), LeftOfEach(c, Step(c, st, t)), t);
    }
  }

  /** How many steps of the run change something. */
  ghost function Moves<T>(c: Plan<T>, st: State<T>, sched: seq<nat>): nat
    requires Valid(c, st)
  {
    if sched == [] then 0
    else
      var most, t := sched[..|sched| - 1], sched[|sched| - 1];
      Moves(c, st, most) + if Step(c, Exec(c, st, most), t) != Exec(c, st, most) then 1 else 0
  }

  lemma {:induction false} MovesAreLeft<T>(c: Plan<T>, st: State<T>, sched: seq<nat>)
    requires Valid(c, st)
    ensures Moves(c, st, sched) + Total(LeftOfEach(c, Exec(c, st, sched))) <= Total(LeftOfEach(c, st))
  {
    if sched != [] {
      var most := sched[..|sched| - 1];
      MovesAreLeft(c, st, most);
      StepLowers(c, Exec(c, st, most), sched[|sched| - 1]);
    }
  }

  lemma StartTotal<T>(c: Plan<T>, X: seq<T>, tiles: nat)
    requires |X| == Size(c) && tiles > 0
    ensures Total(LeftOfEach(c, Init(c, X, tiles))) <= tiles * ((2 * Size(c) + 2) * c.lg)
  {
    EntersStage(c, 0);
    TotalIsBelow(LeftOfEach(c, Init(c, X, tiles)), StageCost(c) * c.lg);
  }

  lemma TotalIsPositive<T>(c: Plan<T>, st: State<T>)
    requires Valid(c, st)
    ensures Total(LeftOfEach(c, st)) >= 0
  {
    forall t | 0 <= t < |st.tiles| ensures LeftOfEach(c, st)[t] >= 0 {
      LeftIsPositive(c, st.tiles[t]);
    }
    TotalNotNegative(LeftOfEach(c, st));
  }

  ghost predicate AtRest<T(!new)>(c: Plan<T>, st: State<T>)
    requires Valid(c, st)
  {
    forall t: nat :: Step(c, st, t) == st
  }

  /** In every run at most this many steps change something, and none is left exactly when all tiles
      have finished. */
  lemma EveryRunEnds<T(!new)>(c: Plan<T>, X: seq<T>, tiles: nat, sched: seq<nat>)
    requires PlanOk(c) && |X| == Size(c) && tiles > 0
    requires forall q :: 0 <= q < |X| ==> X[q] == c.x(Rev(c.lg, q))
    ensures Moves(c, Init(c, X, tiles), sched) <= tiles * ((2 * Size(c) + 2) * c.lg)
    ensures
      var st := Exec(c, Init(c, X, tiles), sched);
      AtRest(c, st) <==> forall t :: 0 <= t < tiles ==> st.tiles[t].pc.Finished?
  {
    MovesAreLeft(c, Init(c, X, tiles), sched);
    StartTotal(c, X, tiles);
    TotalIsPositive(c, Exec(c, Init(c, X, tiles), sched));
    NeverStuck(c, X, tiles, sched);
  }

  /** So every run that is carried on while it can be ends with the transform in the array. */
  lemma EveryRunEndsTransformed<T(!new)>(c: Plan<T>, X: seq<T>, tiles: nat, sched: seq<nat>, p: nat)
    requires PlanOk(c) && |X| == Size(c) && tiles > 0 && p < Size(c)
    requires forall q :: 0 <= q < |X| ==> X[q] == c.x(Rev(c.lg, q))
    requires AtRest(c, Exec(c, Init(c, X, tiles), sched))
    ensures Exec(c, Init(c, X, tiles), sched).X[p] == DftSum(c.ring, c.root, c.x, 0, 1, p, Size(c))
  {
    EveryRunEnds(c, X, tiles, sched);
    EveryRunTransforms(c, X, tiles, sched, 0, p);
  }
}
