/** Every run of the pipeline ends: the steps that change something are bounded, and when none is
    left all tiles are done. */
module PipelineProgress {
  import opened Totals
  import opened Pipeline

  /** Steps a tile has left in its round. Announcing a round counts three: it can end the neighbour's
      wait, which then looks again. */
  function LeftOfRound(q: Config, x: Stage): int {
    match x.pc
    case Start => 0
    case Init0 => 2 * q.words + 24
    case Init1 => 2 * q.words + 20
    case NotifyReady => 2 * q.words + 20
    case ValidLr => 2 * q.words + 15
    case ValidLrAq => if x.res == Held(ValidNum(x.j)) then 2 * q.words + 14 else 2 * q.words + 16
    case ReadyLr => 2 * q.words + 12
    case ReadyLrAq => if x.res == Held(ReadyNum(x.j)) then 2 * q.words + 11 else 2 * q.words + 13
    case Load(i) => 2 * (q.words - i) + 10
    case Store0(i, _, _) => 2 * (q.words - i) + 9
    case Store1(i, _) => 2 * (q.words - i) + 8
    case NotifyValid => 9
    case Last(i) => q.words - i + 6
    case Advance => 5
    case Done => 0
  }

  /** At most this many steps for each round of a tile. */
  function RoundCost(q: Config): nat {
    2 * q.words + 28
  }

  function Left(q: Config, x: Stage): int {
    RoundCost(q) * (q.rounds + 1 - x.round) + LeftOfRound(q, x)
  }

  lemma NextRound(k: int, n: int)
    ensures k * (n - 1) == k * n - k
  {
  }

  predicate Turns(pc: Pc) {
    pc.Start? || pc.Advance?
  }

  /** A step that turns to the next round, and one that does not. */
  lemma TurnsLower(q: Config, id: nat, x: Stage)
    requires StageValid(q, x) && Turns(x.pc)
    ensures var (x', e) := Local(q, id, x);
      x'.round == x.round + 1 && e.Nothing? && LeftOfRound(q, x') < LeftOfRound(q, x) + RoundCost(q)
  {
  }

  lemma StepsLower(q: Config, id: nat, x: Stage)
    requires StageValid(q, x) && !Turns(x.pc) && !Blocked(x) && !x.pc.Done?
    ensures var (x', e) := Local(q, id, x);
      x'.round == x.round
      && LeftOfRound(q, x') + (if e.StoreReady? || e.StoreValid? then 3 else 0) < LeftOfRound(q, x)
  {
  }

  lemma LocalLowers(q: Config, id: nat, x: Stage)
    requires StageValid(q, x) && !Blocked(x) && !x.pc.Done?
    ensures var (x', e) := Local(q, id, x);
      Left(q, x') + (if e.StoreReady? || e.StoreValid? then 3 else 0) < Left(q, x)
  {
    NextRound(RoundCost(q), q.rounds + 1 - x.round);
    if Turns(x.pc) {
      TurnsLower(q, id, x);
    } else {
      StepsLower(q, id, x);
    }
  }

  lemma HitRaises(q: Config, x: Stage, e: Effect)
    requires StageValid(q, x) && EffectValid(q, e)
    ensures Left(q, Hit(q, x, e)) <= Left(q, x) + if e.StoreReady? || e.StoreValid? then 2 else 0
  {
    assert Hit(q, x, e).round == x.round;
  }

  // ---- all tiles together ----

  function LeftOfEach(q: Config, s: State): seq<int>
    requires Valid(q, s)
  {
    seq(|s|, k requires 0 <= k < |s| => Left(q, s[k]))
  }

  lemma MoveLowers(q: Config, s: State, t: nat)
    requires Valid(q, s) && t < |s| && !Blocked(s[t]) && !s[t].pc.Done?
    ensures Total(LeftOfEach(q, Step(q, s, t))) < Total(LeftOfEach(q, s))
  {
    var (x, e) := Local(q, t, s[t]);
    var u := Target(t, e);
    LocalLowers(q, t, s[t]);
    var a, b := LeftOfEach(q, s), LeftOfEach(q, Step(q, s, t));
    TotalChanges(a, a[t := Left(q, x)], t);
    if 0 <= u < |s| {
      HitRaises(q, s[u], e);
      TotalChanges(a[t := Left(q, x)], b, u);
    } else {
      assert b == a[t := Left(q, x)];
    }
  }

  lemma BlockedStays(q: Config, s: State, t: nat)
    requires Valid(q, s) && t < |s| && (Blocked(s[t]) || s[t].pc.Done?)
    ensures Step(q, s, t) == s
  {
    assert s[t := s[t]] == s;
  }

  /** How many steps of the run change something. */
  function Moves(q: Config, sched: seq<nat>): nat
    requires ConfigOk(q)
  {
    if sched == [] then 0
    else
      var most, t := sched[..|sched| - 1], sched[|sched| - 1];
      Moves(q, most) + if Step(q, Exec(q, Init(q), most), t) != Exec(q, Init(q), most) then 1 else 0
  }

  lemma StepLowers(q: Config, s: State, t: nat)
    requires Valid(q, s)
    ensures Total(LeftOfEach(q, Step(q, s, t))) + (if Step(q, s, t) != s then 1 else 0) <= Total(LeftOfEach(q, s))
  {
    if t < |s| {
      if Blocked(s[t]) || s[t].pc.Done? {
        BlockedStays(q, s, t);
      } else {
        MoveLowers(q, s, t);
      }
    }
  }

  lemma {:induction false} MovesAreLeft(q: Config, sched: seq<nat>)
    requires ConfigOk(q)
    ensures Moves(q, sched) + Total(LeftOfEach(q, Exec(q, Init(q), sched))) <= Total(LeftOfEach(q, Init(q)))
  {
    if sched != [] {
      var most := sched[..|sched| - 1];
      MovesAreLeft(q, most);
      StepLowers(q, Exec(q, Init(q), most), sched[|sched| - 1]);
    }
  }

  lemma LeftIsPositive(q: Config, id: nat, x: Stage)
    requires StageValid(q, x) && StageOk(q, id, x)
    ensures Left(q, x) >= 0
  {
    Product(RoundCost(q), q.rounds + 1 - x.round);
  }

  lemma Product(a: int, b: int)
    requires a >= 0 && b >= 0
    ensures a * b >= 0
  {
  }

  // ---- the end of a run ----

  ghost predicate AtRest(q: Config, s: State)
    requires Valid(q, s)
  {
    forall t: nat :: Step(q, s, t) == s
  }

  lemma StartTotal(q: Config)
    requires ConfigOk(q)
    ensures Total(LeftOfEach(q, Init(q))) <= q.tiles * ((2 * q.words + 28) * (q.rounds + 1))
  {
    var w := LeftOfEach(q, Init(q));
    forall k | 0 <= k < |w| ensures w[k] <= RoundCost(q) * (q.rounds + 1) {
      assert Init(q)[k] == InitStage(q, k);
    }
    TotalIsBelow(w, RoundCost(q) * (q.rounds + 1));
  }

  lemma TotalIsPositive(q: Config, s: State)
    requires Inv(q, s)
    ensures Total(LeftOfEach(q, s)) >= 0
  {
    forall k | 0 <= k < |s| ensures LeftOfEach(q, s)[k] >= 0 {
      LeftIsPositive(q, k, s[k]);
    }
    TotalNotNegative(LeftOfEach(q, s));
  }

  lemma DoneIsRest(q: Config, s: State)
    requires Valid(q, s) && forall k :: 0 <= k < q.tiles ==> s[k].pc.Done?
    ensures AtRest(q, s)
  {
    forall t: nat ensures Step(q, s, t) == s {
      if t < |s| {
        BlockedStays(q, s, t);
      }
    }
  }

  lemma RestIsDone(q: Config, sched: seq<nat>, k: nat)
    requires ConfigOk(q) && k < q.tiles && AtRest(q, Exec(q, Init(q), sched))
    ensures Exec(q, Init(q), sched)[k].pc.Done?
  {
    NeverStuck(q, sched, k);
  }

  /** In every run at most this many steps change something, and none is left exactly when all tiles
      are done. */
  lemma EveryRunEnds(q: Config, sched: seq<nat>)
    requires ConfigOk(q)
    ensures Moves(q, sched) <= q.tiles * ((2 * q.words + 28) * (q.rounds + 1))
    ensures AtRest(q, Exec(q, Init(q), sched)) <==>
      forall k :: 0 <= k < q.tiles ==> Exec(q, Init(q), sched)[k].pc.Done?
  {
    ExecKeepsInv(q, sched);
    MovesAreLeft(q, sched);
    StartTotal(q);
    TotalIsPositive(q, Exec(q, Init(q), sched));
    if AtRest(q, Exec(q, Init(q), sched)) {
      forall k: nat | k < q.tiles ensures Exec(q, Init(q), sched)[k].pc.Done? {
        RestIsDone(q, sched, k);
      }
    } else if forall k :: 0 <= k < q.tiles ==> Exec(q, Init(q), sched)[k].pc.Done? {
      DoneIsRest(q, Exec(q, Init(q), sched));
    }
  }

  /** So every run that is carried on while it can be ends with the last tile having printed, for
      every i, the value i with the sum of the ids of all the tiles before it. */
  lemma EveryRunPrints(q: Config, sched: seq<nat>, i: nat)
    requires ConfigOk(q) && q.rounds >= 2 && q.tiles >= 2 && i < q.words
    requires AtRest(q, Exec(q, Init(q), sched))
    ensures |Exec(q, Init(q), sched)[q.tiles - 1].out| == q.words
    ensures Exec(q, Init(q), sched)[q.tiles - 1].out[i]
         == Tag(i % 0x100, (q.rounds - 1) % 0x100, ((q.tiles - 1) * (q.tiles - 2) / 2) % 0x1_0000)
  {
    EveryRunEnds(q, sched);
    LastTilePrints(q, sched, i);
  }
}
