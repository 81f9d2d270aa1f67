/** Every run of the counter barrier gets somewhere: each entry of a tile costs a bounded number of
    steps that change anything, and a run that has come to rest has brought every tile out of every
    round that all tiles have entered. */
module CounterProgress {
  import opened Common
  import opened Totals
  import opened CounterBarrier

  /** Steps a tile has left in its round. Storing the count or an alert counts three: it can end a
      wait, and the waiter then looks again. */
  function Left(q: Config, u: Tile): int {
    match u.pc
    case Out => 0
    case Lock => 4 * q.n + 15
    case Read => 4 * q.n + 14
    case Write(_) => 4 * q.n + 13
    case Unlock => 4 * q.n + 10
    case CountLr => 4 * q.n + 8
    case CountLrAq => if u.res then 4 * q.n + 7 else 4 * q.n + 9
    case ChiefLock => 4 * q.n + 6
    case Alert(i) => if i < q.n then 4 * (q.n - i) + 5 else 5
    case Reset => 4
    case ChiefUnlock => 1
    case AlertLr => 3
    case AlertLrAq => if u.res then 2 else 4
    case Clear => 1
  }

  /** At most this many steps for each entry into the barrier. */
  function EntryCost(q: Config): nat {
    4 * q.n + 16
  }

  function Made(q: Config, u: Tile): int {
    EntryCost(q) * u.round - Left(q, u)
  }

  lemma NextRound(k: int, r: int)
    ensures k * (r + 1) == k * r + k
  {
  }

  /** Whose reservation the step of tile t can clear. */
  function Wakes(q: Config, s: State, t: nat): Option<nat>
    requires Valid(q, s) && t < q.n
  {
    match s.tiles[t].pc
    case Write(_) => Some(q.chief)
    case Reset => Some(q.chief)
    case Alert(i) => if i < q.n then Some(i) else None
    case _ => None
  }

  lemma OwnMakes(q: Config, s: State, t: nat)
    requires Valid(q, s) && t < q.n && Ready(s, s.tiles[t])
    ensures Made(q, Step(q, s, t).tiles[t])
         >= Made(q, s.tiles[t]) + (if Wakes(q, s, t) in {None, Some(t)} then 1 else 3)
  {
    NextRound(EntryCost(q), s.tiles[t].round);
  }

  lemma OthersOnlyWake(q: Config, s: State, t: nat, v: nat)
    requires Valid(q, s) && t < q.n && v < q.n && v != t
    ensures var u, u' := s.tiles[v], Step(q, s, t).tiles[v];
      u'.round == u.round && u'.pc == u.pc && (Wakes(q, s, t) != Some(v) ==> u'.res == u.res)
  {
  }

  lemma WokenMakes(q: Config, s: State, t: nat, v: nat)
    requires Valid(q, s) && t < q.n && v < q.n && v != t
    ensures Made(q, Step(q, s, t).tiles[v]) >= Made(q, s.tiles[v]) - if Wakes(q, s, t) == Some(v) then 2 else 0
  {
    OthersOnlyWake(q, s, t, v);
  }

  // ---- all tiles together ----

  function MadeByEach(q: Config, s: State): seq<int>
    requires Valid(q, s)
  {
    seq(q.n, t requires 0 <= t < q.n => Made(q, s.tiles[t]))
  }

  function EntriesOfEach(q: Config, s: State): seq<int>
    requires Valid(q, s)
  {
    seq(q.n, t requires 0 <= t < q.n => s.tiles[t].round)
  }

  /** How many entries into the barrier there have been, of all tiles together. */
  function Entries(q: Config, s: State): int
    requires Valid(q, s)
  {
    Total(EntriesOfEach(q, s))
  }

  /** Tile t makes its step, and w at most loses two. */
  lemma {:induction false} TwoChange(a: seq<int>, b: seq<int>, t: nat, w: Option<nat>)
    requires t < |a| == |b| && (w.Some? ==> w.value < |a|)
    requires forall v :: 0 <= v < |a| && v != t ==> b[v] >= a[v] - if w == Some(v) then 2 else 0
    requires b[t] >= a[t] + if w in {None, Some(t)} then 1 else 3
    ensures Total(b) >= Total(a) + 1
  {
    var c := a[t := b[t]];
    TotalChanges(a, c, t);
    if w.Some? && w.value != t {
      var d := c[w.value := b[w.value]];
      TotalChanges(c, d, w.value);
      TotalGrows(d, b);
    } else {
      TotalGrows(c, b);
    }
  }

  lemma NotReadyStays(q: Config, s: State, t: nat)
    requires Valid(q, s) && t < q.n && !Ready(s, s.tiles[t])
    ensures Step(q, s, t) == s
  {
  }

  lemma WakesInside(q: Config, s: State, t: nat)
    requires Valid(q, s) && t < q.n
    ensures Wakes(q, s, t).Some? ==> Wakes(q, s, t).value < q.n
  {
  }

  lemma StepMakes(q: Config, s: State, t: nat)
    requires Valid(q, s)
    ensures Total(MadeByEach(q, Step(q, s, t)))
         >= Total(MadeByEach(q, s)) + if Step(q, s, t) != s then 1 else 0
  {
    if t < q.n {
      if Ready(s, s.tiles[t]) {
        var a, b, w := MadeByEach(q, s), MadeByEach(q, Step(q, s, t)), Wakes(q, s, t);
        OwnMakes(q, s, t);
        WakesInside(q, s, t);
        forall v | 0 <= v < q.n && v != t ensures b[v] >= a[v] - if w == Some(v) then 2 else 0 {
          WokenMakes(q, s, t, v);
        }
        TwoChange(a, b, t, w);
      } else {
        NotReadyStays(q, s, t);
      }
    }
  }

  /** How many steps of the run change something. */
  function Moves(q: Config, sched: seq<nat>): nat
    requires ConfigOk(q)
  {
    if sched == [] then 0
    else
      var most, t := sched[..|sched| - 1], sched[|sched| - 1];
      Moves(q, most) + if Step(q, Exec(q, Init(q), most), t) != Exec(q, Init(q), most) then 1 else 0
  }

  lemma {:induction false} MovesAreMade(q: Config, sched: seq<nat>)
    requires ConfigOk(q)
    ensures Moves(q, sched) <= Total(MadeByEach(q, Exec(q, Init(q), sched)))
  {
    if sched == [] {
      TotalNotNegative(MadeByEach(q, Init(q)));
    } else {
      var most := sched[..|sched| - 1];
      MovesAreMade(q, most);
      StepMakes(q, Exec(q, Init(q), most), sched[|sched| - 1]);
    }
  }

  lemma MadeByEntries(q: Config, s: State)
    requires Valid(q, s)
    ensures Total(MadeByEach(q, s)) <= EntryCost(q) * Entries(q, s)
  {
    TotalAtMost(MadeByEach(q, s), EntriesOfEach(q, s), EntryCost(q));
  }

  // ---- a run that has come to rest ----

  /** No step of a tile inside changes anything. */
  ghost predicate AtRest(q: Config, s: State)
    requires Valid(q, s)
  {
    forall t: nat :: t < q.n && !s.tiles[t].pc.Out? ==> Step(q, s, t) == s
  }

  lemma RestedWaits(q: Config, s: State, h: Option<nat>, t: nat)
    requires InvWith(q, s, h) && AtRest(q, s) && t < q.n
    ensures h.None? && (s.tiles[t].pc.Out? || !Ready(s, s.tiles[t]))
  {
    if h.Some? {
      assert TileOk(q, s, h, h.value);
      ReadyMoves(q, s, h.value);
    }
    if Ready(s, s.tiles[t]) {
      ReadyMoves(q, s, t);
    }
  }

  /** At rest, a tile other than the chief is out of each round that the chief has closed. */
  lemma RestedFollowsChief(q: Config, s: State, h: Option<nat>, t: nat)
    requires InvWith(q, s, h) && AtRest(q, s) && t < q.n
    ensures Returned(s.tiles[t]) >= Resets(s.tiles[q.chief])
  {
    RestedWaits(q, s, h, t);
    RestedWaits(q, s, h, q.chief);
    assert TileOk(q, s, h, t);
  }

  lemma RestedIsBack(q: Config, s: State, h: Option<nat>, m: nat, t: nat)
    requires InvWith(q, s, h) && AtRest(q, s) && t < q.n
    requires forall u :: 0 <= u < q.n ==> s.tiles[u].round >= m
    ensures Returned(s.tiles[t]) >= m
  {
    var e := Resets(s.tiles[q.chief]);
    RestedFollowsChief(q, s, h, t);
    RestedWaits(q, s, h, q.chief);
    if e < m {
      AllJoined(s.tiles, e + 1, q.n);
      var u :| 0 <= u < q.n && Joins(s.tiles[u]) != e + 1;
      assert TileOk(q, s, h, u);
      RestedWaits(q, s, h, u);
      assert false;
    }
  }

  /** In every run each entry costs at most 4 n + 16 steps that change anything; and when no tile
      inside can change anything, every tile has returned from each of the first m rounds as soon as
      all tiles have entered those. */
  lemma EveryTileReturns(q: Config, sched: seq<nat>, m: nat, t: nat)
    requires ConfigOk(q) && t < q.n
    ensures var s := Exec(q, Init(q), sched);
      && Moves(q, sched) <= (4 * q.n + 16) * Entries(q, s)
      && (AtRest(q, s) && (forall u :: 0 <= u < q.n ==> s.tiles[u].round >= m) ==> Returned(s.tiles[t]) >= m)
  {
    var s := Exec(q, Init(q), sched);
    var h := ExecKeeps(q, sched);
    MovesAreMade(q, sched);
    MadeByEntries(q, s);
    if AtRest(q, s) && forall u :: 0 <= u < q.n ==> s.tiles[u].round >= m {
      RestedIsBack(q, s, h, m, t);
    }
  }
}
