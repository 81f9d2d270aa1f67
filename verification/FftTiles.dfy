/** The stages of spmd/fft run by all tiles of a group at once. A tile loads the two values of each
    of its butterflies, stores the two results, and waits at the barrier after each stage; between
    barriers the loads and stores of the tiles mix in any order. */
module FftTiles {
  import opened Arithmetic
  import opened Bits
  import opened Ring
  import opened Dft
  import opened Fft

  datatype Pc<+T> =
    | Work
    | GotOdd(odd: T)
    | GotBoth(odd: T, even: T)
    | StoredOdd(odd: T, even: T)
    | Wait
    | Finished

  /** b numbers the pairs (i, k) of the two inner loops. */
  datatype Tile<+T> = Tile(stage: nat, b: nat, pc: Pc<T>)

  datatype State<+T> = State(X: seq<T>, tiles: seq<Tile<T>>)

  /** The number of butterflies in a stage. */
  function Pairs<T>(c: Plan<T>): nat
    requires c.lg >= 1
  {
    Pow2(c.lg - 1)
  }

  function EvenIdx(s: nat, b: nat): nat {
    DivMod(b, Pow2(s));
    At(s, b / Pow2(s), 0, b % Pow2(s))
  }

  function OddIdx(s: nat, b: nat): nat {
    DivMod(b, Pow2(s));
    At(s, b / Pow2(s), 1, b % Pow2(s))
  }

  lemma PairInside(m: nat, g: nat, b: nat)
    requires m > 0 && b < m * g
    ensures (b / m) * (2 * m) + m + b % m < 2 * m * g
  {
    QuotientBound(b, m, g);
    Nested(2 * m, g, m + b % m, b / m);
  }

  lemma IndexInside<T>(c: Plan<T>, s: nat, b: nat)
    requires s < c.lg && b < Pairs(c)
    ensures EvenIdx(s, b) < OddIdx(s, b) < Size(c)
  {
    Pow2Adds(s, c.lg - 1 - s);
    PairInside(Pow2(s), Pow2(c.lg - 1 - s), b);
    Pow2Adds(s + 1, c.lg - 1 - s);
    DivMod(b, Pow2(s));
  }

  lemma OwnerOfIndex(s: nat, p: nat, b: nat)
    ensures Owner(s, p) == b <==> p == EvenIdx(s, b) || p == OddIdx(s, b)
  {
    var m := Pow2(s);
    var h, k := b / m, b % m;
    DivMod(b, m);
    OwnerIsUnique(s, p, h, k);
    assert EvenIdx(s, b) == At(s, h, 0, k);
    assert OddIdx(s, b) == At(s, h, 1, k);
    assert h * Pow2(s) + k == b;
  }

  lemma OwnerInside<T>(c: Plan<T>, s: nat, p: nat)
    requires s < c.lg && p < Size(c)
    ensures Owner(s, p) < Pairs(c)
  {
    Pow2Adds(s + 1, c.lg - s - 1);
    Pow2Adds(s, c.lg - s - 1);
    assert s + (c.lg - s - 1) == c.lg - 1;
    OwnerBound(s, p, Pow2(c.lg - s - 1));
  }

  ghost predicate Valid<T>(c: Plan<T>, st: State<T>) {
    && |st.X| == Size(c) && |st.tiles| > 0
    && (forall t :: 0 <= t < |st.tiles| ==> TileValid(c, st.tiles[t]))
  }

  predicate TileValid<T>(c: Plan<T>, u: Tile<T>) {
    if u.pc.Finished? then u.stage == c.lg
    else u.stage < c.lg && u.b <= Pairs(c) && (u.pc.GotOdd? || u.pc.GotBoth? || u.pc.StoredOdd? ==> u.b < Pairs(c))
  }

  /** Tile u has come to the barrier after stage s. */
  predicate Arrived<T>(u: Tile<T>, s: nat) {
    u.stage > s || (u.stage == s && u.pc.Wait?)
  }

  function EnterStage<T>(c: Plan<T>, s: nat): Tile<T> {
    if s == c.lg then Tile(s, 0, Finished) else Tile(s, 0, Work)
  }

  /** One step of tile t. */
  function Step<T>(c: Plan<T>, st: State<T>, t: nat): (st': State<T>)
    requires Valid(c, st)
    ensures Valid(c, st') && |st'.tiles| == |st.tiles|
  {
    if t >= |st.tiles| then st
    else
      var u := st.tiles[t];
      match u.pc
      case Work =>
        if u.b == Pairs(c) then st.(tiles := st.tiles[t := u.(pc := Wait)])
        else if u.b % |st.tiles| != t then st.(tiles := st.tiles[t := u.(b := u.b + 1)])
        else
          IndexInside(c, u.stage, u.b);
          st.(tiles := st.tiles[t := u.(pc := GotOdd(st.X[OddIdx(u.stage, u.b)]))])
      case GotOdd(odd) =>
        IndexInside(c, u.stage, u.b);
        st.(tiles := st.tiles[t := u.(pc := GotBoth(odd, st.X[EvenIdx(u.stage, u.b)]))])
      case GotBoth(odd, even) =>
        IndexInside(c, u.stage, u.b);
        var tVal := c.ring.mul(Twiddle(c, u.stage, u.b % Pow2(u.stage)), odd);
        State(st.X[OddIdx(u.stage, u.b) := Sub(c.ring, even, tVal)], st.tiles[t := u.(pc := StoredOdd(odd, even))])
      case StoredOdd(odd, even) =>
        IndexInside(c, u.stage, u.b);
        var tVal := c.ring.mul(Twiddle(c, u.stage, u.b % Pow2(u.stage)), odd);
        State(st.X[EvenIdx(u.stage, u.b) := c.ring.add(even, tVal)], st.tiles[t := u.(b := u.b + 1, pc := Work)])
      case Wait =>
        if forall v :: 0 <= v < |st.tiles| ==> Arrived(st.tiles[v], u.stage) then
          st.(tiles := st.tiles[t := EnterStage(c, u.stage + 1)])
        else st
      case Finished => st
  }

  function Exec<T>(c: Plan<T>, st: State<T>, sched: seq<nat>): (st': State<T>)
    requires Valid(c, st)
    ensures Valid(c, st') && |st'.tiles| == |st.tiles|
  {
    if sched == [] then st else Step(c, Exec(c, st, sched[..|sched| - 1]), sched[|sched| - 1])
  }

  /** All tiles leave the barrier that follows the reordering. */
  function Init<T>(c: Plan<T>, X: seq<T>, tiles: nat): (st: State<T>)
    requires |X| == Size(c) && tiles > 0
    ensures Valid(c, st) && |st.tiles| == tiles
  {
    State(X, seq(tiles, _ => EnterStage(c, 0)))
  }

  // ---- the invariant ----

  /** Where tile t is in stage s, which started from W. */
  ghost predicate TileOk<T>(c: Plan<T>, s: nat, W: seq<T>, tiles: nat, t: nat, u: Tile<T>)
    requires s <= c.lg && |W| == Size(c) && TileValid(c, u) && tiles > 0
  {
    if u.stage != s then u.stage + 1 == s && u.pc.Wait?
    else
      && (u.pc.Wait? ==> u.b == Pairs(c))
      && (u.pc.GotOdd? || u.pc.GotBoth? || u.pc.StoredOdd? ==> u.b % tiles == t && Loaded(c, s, W, u))
  }

  ghost predicate Loaded<T>(c: Plan<T>, s: nat, W: seq<T>, u: Tile<T>)
    requires s < c.lg && |W| == Size(c) && TileValid(c, u) && u.b < Pairs(c)
    requires u.pc.GotOdd? || u.pc.GotBoth? || u.pc.StoredOdd?
  {
    IndexInside(c, s, u.b);
    && u.pc.odd == W[OddIdx(s, u.b)]
    && (!u.pc.GotOdd? ==> u.pc.even == W[EvenIdx(s, u.b)])
  }

  /** The owner of place p has stored its result of stage s there. */
  predicate Stored<T>(s: nat, u: Tile<T>, p: nat) {
    u.stage == s && (Owner(s, p) < u.b || (Owner(s, p) == u.b && u.pc.StoredOdd? && p == OddIdx(s, u.b)))
  }

  function Value<T>(c: Plan<T>, s: nat, W: seq<T>, tiles: seq<Tile<T>>, p: nat): T
    requires s <= c.lg && |W| == Size(c) && p < |W| && |tiles| > 0
  {
    if s < c.lg && Stored(s, tiles[Owner(s, p) % |tiles|], p) then StageValue(c, s, W, p) else W[p]
  }

  ghost predicate InvAt<T>(c: Plan<T>, st: State<T>, s: nat, W: seq<T>) {
    && Valid(c, st) && AtStage(c, s, W)
    && (forall t :: 0 <= t < |st.tiles| ==> TileOk(c, s, W, |st.tiles|, t, st.tiles[t]))
    && (forall p :: 0 <= p < |W| ==> st.X[p] == Value(c, s, W, st.tiles, p))
  }

  // ---- every step keeps the invariant ----

  lemma OwnPlaces<T>(c: Plan<T>, st: State<T>, s: nat, W: seq<T>, t: nat)
    requires InvAt(c, st, s, W) && t < |st.tiles| && st.tiles[t].stage == s < c.lg
    requires st.tiles[t].b < Pairs(c) && st.tiles[t].b % |st.tiles| == t
    ensures EvenIdx(s, st.tiles[t].b) < OddIdx(s, st.tiles[t].b) < Size(c)
    ensures st.X[EvenIdx(s, st.tiles[t].b)] == W[EvenIdx(s, st.tiles[t].b)]
    ensures !st.tiles[t].pc.StoredOdd? ==> st.X[OddIdx(s, st.tiles[t].b)] == W[OddIdx(s, st.tiles[t].b)]
  {
    var b := st.tiles[t].b;
    IndexInside(c, s, b);
    OwnerOfIndex(s, EvenIdx(s, b), b);
    OwnerOfIndex(s, OddIdx(s, b), b);
  }

  /** A step within stage s. */
  lemma LoadKeeps<T>(c: Plan<T>, st: State<T>, s: nat, W: seq<T>, t: nat)
    requires InvAt(c, st, s, W) && t < |st.tiles| && st.tiles[t].stage == s
    requires st.tiles[t].pc.Work? || st.tiles[t].pc.GotOdd?
    ensures InvAt(c, Step(c, st, t), s, W)
  {
    var st', u := Step(c, st, t), st.tiles[t];
    if u.b < Pairs(c) && u.b % |st.tiles| == t {
      OwnPlaces(c, st, s, W, t);
    }
    forall p | 0 <= p < |W| ensures st'.X[p] == Value(c, s, W, st'.tiles, p) {
      assert st.X[p] == Value(c, s, W, st.tiles, p);
    }
  }

  lemma PairValues<T>(c: Plan<T>, s: nat, W: seq<T>, b: nat)
    requires s < c.lg && |W| == Size(c) && b < Pairs(c)
    ensures EvenIdx(s, b) < OddIdx(s, b) < Size(c)
    ensures
      var t := c.ring.mul(Twiddle(c, s, b % Pow2(s)), W[OddIdx(s, b)]);
      && StageValue(c, s, W, EvenIdx(s, b)) == c.ring.add(W[EvenIdx(s, b)], t)
      && StageValue(c, s, W, OddIdx(s, b)) == Sub(c.ring, W[EvenIdx(s, b)], t)
  {
    IndexInside(c, s, b);
    IndexFacts(c, s, b);
    EvenValue(c, s, W, EvenIdx(s, b), OddIdx(s, b), b % Pow2(s));
    OddValue(c, s, W, EvenIdx(s, b), OddIdx(s, b), b % Pow2(s));
  }

  lemma IndexFacts<T>(c: Plan<T>, s: nat, b: nat)
    requires s < c.lg
    ensures OddIdx(s, b) == EvenIdx(s, b) + Pow2(s)
    ensures IsEven(s, EvenIdx(s, b)) && EvenIdx(s, b) % Pow2(s + 1) == b % Pow2(s)
    ensures !IsEven(s, OddIdx(s, b)) && OddIdx(s, b) % Pow2(s + 1) == Pow2(s) + b % Pow2(s)
  {
    var m := Pow2(s);
    DivMod(b, m);
    var h, k := b / m, b % m;
    AtFacts(c, s, h, k);
    assert EvenIdx(s, b) == At(s, h, 0, k);
    assert OddIdx(s, b) == At(s, h, 1, k);
  }

  lemma StoreOddKeeps<T>(c: Plan<T>, st: State<T>, s: nat, W: seq<T>, t: nat)
    requires InvAt(c, st, s, W) && t < |st.tiles| && st.tiles[t].stage == s
    requires st.tiles[t].pc.GotBoth?
    ensures InvAt(c, Step(c, st, t), s, W)
  {
    var st', u := Step(c, st, t), st.tiles[t];
    PairValues(c, s, W, u.b);
    forall p | 0 <= p < |W| ensures st'.X[p] == Value(c, s, W, st'.tiles, p) {
      OwnerOfIndex(s, p, u.b);
      assert st.X[p] == Value(c, s, W, st.tiles, p);
    }
  }

  lemma StoreEvenKeeps<T>(c: Plan<T>, st: State<T>, s: nat, W: seq<T>, t: nat)
    requires InvAt(c, st, s, W) && t < |st.tiles| && st.tiles[t].stage == s
    requires st.tiles[t].pc.StoredOdd?
    ensures InvAt(c, Step(c, st, t), s, W)
  {
    var st', u := Step(c, st, t), st.tiles[t];
    PairValues(c, s, W, u.b);
    forall p | 0 <= p < |W| ensures st'.X[p] == Value(c, s, W, st'.tiles, p) {
      OwnerOfIndex(s, p, u.b);
      assert st.X[p] == Value(c, s, W, st.tiles, p);
    }
  }

  /** A tile that is one stage behind enters the stage the others are in. */
  lemma CatchUpKeeps<T>(c: Plan<T>, st: State<T>, s: nat, W: seq<T>, t: nat)
    requires InvAt(c, st, s, W) && t < |st.tiles| && st.tiles[t].stage != s
    ensures InvAt(c, Step(c, st, t), s, W)
  {
    var st' := Step(c, st, t);
    forall p | 0 <= p < |W| ensures st'.X[p] == Value(c, s, W, st'.tiles, p) {
      assert st.X[p] == Value(c, s, W, st.tiles, p);
    }
  }

  /** When all tiles have come to the barrier of stage s, the array is the result of the stage. */
  lemma StageComplete<T>(c: Plan<T>, st: State<T>, s: nat, W: seq<T>)
    requires InvAt(c, st, s, W) && s < c.lg
    requires forall v :: 0 <= v < |st.tiles| ==> Arrived(st.tiles[v], s)
    ensures st.X == Stage(c, s, W)
    ensures forall v :: 0 <= v < |st.tiles| ==> st.tiles[v].stage == s && st.tiles[v].pc.Wait?
  {
    forall v | 0 <= v < |st.tiles| ensures st.tiles[v].stage == s && st.tiles[v].pc.Wait? {
      assert TileOk(c, s, W, |st.tiles|, v, st.tiles[v]);
    }
    forall p | 0 <= p < |W| ensures st.X[p] == StageValue(c, s, W, p) {
      OwnerInside(c, s, p);
      assert st.X[p] == Value(c, s, W, st.tiles, p);
      assert TileOk(c, s, W, |st.tiles|, Owner(s, p) % |st.tiles|, st.tiles[Owner(s, p) % |st.tiles|]);
    }
  }

  lemma NextStageKeeps<T(!new)>(c: Plan<T>, st: State<T>, s: nat, W: seq<T>, t: nat)
    requires PlanOk(c) && InvAt(c, st, s, W) && t < |st.tiles| && st.tiles[t].stage == s && st.tiles[t].pc.Wait?
    requires forall v :: 0 <= v < |st.tiles| ==> Arrived(st.tiles[v], s)
    ensures InvAt(c, Step(c, st, t), s + 1, st.X)
  {
    StageComplete(c, st, s, W);
    StageAdvances(c, s, W);
  }

  lemma StepKeeps<T(!new)>(c: Plan<T>, st: State<T>, s: nat, W: seq<T>, t: nat) returns (s': nat, W': seq<T>)
    requires PlanOk(c) && InvAt(c, st, s, W)
    ensures InvAt(c, Step(c, st, t), s', W')
  {
    s', W' := s, W;
    if t < |st.tiles| {
      var u := st.tiles[t];
      if u.stage != s {
        CatchUpKeeps(c, st, s, W, t);
      } else if u.pc.Work? || u.pc.GotOdd? {
        LoadKeeps(c, st, s, W, t);
      } else if u.pc.GotBoth? {
        StoreOddKeeps(c, st, s, W, t);
      } else if u.pc.StoredOdd? {
        StoreEvenKeeps(c, st, s, W, t);
      } else if u.pc.Wait? && forall v :: 0 <= v < |st.tiles| ==> Arrived(st.tiles[v], s) {
        NextStageKeeps(c, st, s, W, t);
        s', W' := s + 1, st.X;
      }
    }
  }

  lemma {:induction false} ExecKeeps<T(!new)>(c: Plan<T>, X: seq<T>, tiles: nat, sched: seq<nat>)
      returns (s: nat, W: seq<T>)
    requires PlanOk(c) && AtStage(c, 0, X) && tiles > 0
    ensures InvAt(c, Exec(c, Init(c, X, tiles), sched), s, W)
  {
    if sched == [] {
      s, W := 0, X;
    } else {
      s, W := ExecKeeps(c, X, tiles, sched[..|sched| - 1]);
      s, W := StepKeeps(c, Exec(c, Init(c, X, tiles), sched[..|sched| - 1]), s, W, sched[|sched| - 1]);
    }
  }

  // ---- what the tiles compute, over every run ----

  /** From the reordered input, however the tiles' loads and stores mix, once a tile has finished
      place p holds entry p of the transform of the input. */
  lemma EveryRunTransforms<T(!new)>(c: Plan<T>, X: seq<T>, tiles: nat, sched: seq<nat>, t: nat, p: nat)
    requires PlanOk(c) && |X| == Size(c) && t < tiles && p < Size(c)
    requires forall q :: 0 <= q < |X| ==> X[q] == c.x(Rev(c.lg, q))
    requires Exec(c, Init(c, X, tiles), sched).tiles[t].pc.Finished?
    ensures Exec(c, Init(c, X, tiles), sched).X[p] == DftSum(c.ring, c.root, c.x, 0, 1, p, Size(c))
  {
    SwizzledIsStage0(c, X);
    var s, W := ExecKeeps(c, X, tiles, sched);
    var st := Exec(c, Init(c, X, tiles), sched);
    assert TileOk(c, s, W, |st.tiles|, t, st.tiles[t]);
    assert st.X[p] == Value(c, s, W, st.tiles, p);
    LastStageIsTransform(c, W, p);
  }

  // ---- progress ----

  lemma WorkerMoves<T>(c: Plan<T>, st: State<T>, t: nat)
    requires Valid(c, st) && t < |st.tiles| && !st.tiles[t].pc.Wait? && !st.tiles[t].pc.Finished?
    ensures Step(c, st, t) != st
  {
    assert Step(c, st, t).tiles[t] != st.tiles[t];
  }

  /** A waiting tile moves if none is at work or further behind. */
  lemma WaiterMoves<T>(c: Plan<T>, st: State<T>, s: nat, W: seq<T>, t: nat)
    requires InvAt(c, st, s, W) && t < |st.tiles| && st.tiles[t].pc.Wait?
    requires forall v: nat :: v < |st.tiles| ==> st.tiles[v].pc.Wait? || st.tiles[v].pc.Finished?
    requires forall v: nat :: v < |st.tiles| ==> st.tiles[t].stage <= st.tiles[v].stage
    ensures Step(c, st, t) != st
  {
    var u := st.tiles[t];
    forall v | 0 <= v < |st.tiles| ensures Arrived(st.tiles[v], u.stage) {
      assert TileValid(c, st.tiles[v]) && TileValid(c, u);
    }
    assert Step(c, st, t).tiles[t].stage == u.stage + 1;
  }

  lemma SomeTileMoves<T>(c: Plan<T>, st: State<T>, s: nat, W: seq<T>)
    requires InvAt(c, st, s, W)
    ensures (forall t :: 0 <= t < |st.tiles| ==> st.tiles[t].pc.Finished?) || exists t :: Step(c, st, t) != st
  {
    forall t: nat | t < |st.tiles| ensures TileOk(c, s, W, |st.tiles|, t, st.tiles[t]) {
    }
    if t: nat :| t < |st.tiles| && !st.tiles[t].pc.Wait? && !st.tiles[t].pc.Finished? {
      WorkerMoves(c, st, t);
    } else if t: nat :| t < |st.tiles| && st.tiles[t].pc.Wait? && st.tiles[t].stage + 1 == s {
      WaiterMoves(c, st, s, W, t);
    } else if t: nat :| t < |st.tiles| && st.tiles[t].pc.Wait? {
      WaiterMoves(c, st, s, W, t);
    }
  }

  /** Until all tiles have finished, some tile can move. */
  lemma NeverStuck<T(!new)>(c: Plan<T>, X: seq<T>, tiles: nat, sched: seq<nat>)
    requires PlanOk(c) && |X| == Size(c) && tiles > 0
    requires forall q :: 0 <= q < |X| ==> X[q] == c.x(Rev(c.lg, q))
    ensures
      var st := Exec(c, Init(c, X, tiles), sched);
      || (forall t :: 0 <= t < tiles ==> st.tiles[t].pc.Finished?)
      || exists t :: Step(c, st, t) != st
  {
    SwizzledIsStage0(c, X);
    var s, W := ExecKeeps(c, X, tiles, sched);
    SomeTileMoves(c, Exec(c, Init(c, X, tiles), sched), s, W);
  }
}
