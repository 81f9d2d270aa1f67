/** The counter barrier (bsg_barrier.h) on the swap lock and the LR wait of bsg_mutex.h: every tile
    counts itself in under a lock; one fixed tile, the chief, waits for the full count, alerts
    all tiles and resets the count, still under the lock. Steps are atomic, in any order. */
module CounterBarrier {
  import opened Common

  /** n: the tiles that take part; chief: the one whose barrier struct all of them use. */
  datatype Config = Config(n: nat, chief: nat)

  predicate ConfigOk(q: Config) {
    q.chief < q.n
  }

  datatype Pc =
    | Out
    // bsg_atomic_inc
    | Lock
    | Read
    | Write(value: nat)
    | Unlock
    // the chief
    | CountLr
    | CountLrAq
    | ChiefLock
    | Alert(i: nat)
    | Reset
    | ChiefUnlock
    // the others
    | AlertLr
    | AlertLrAq
    | Clear

  /** round: how often the tile has entered the barrier; alert: its _local_alert; res: whether its
      reservation, on the word it waits on, is set. */
  datatype Tile = Tile(pc: Pc, round: nat, alert: bool, res: bool)

  datatype State = State(tiles: seq<Tile>, mutex: bool, count: nat)

  predicate Valid(q: Config, s: State) {
    ConfigOk(q) && |s.tiles| == q.n
  }

  function Init(q: Config): (s: State)
    requires ConfigOk(q)
    ensures Valid(q, s)
  {
    State(seq(q.n, _ => Tile(Out, 0, false, false)), false, 0)
  }

  function SetPc(s: State, t: nat, pc: Pc): State
    requires t < |s.tiles|
  {
    s.(tiles := s.tiles[t := s.tiles[t].(pc := pc)])
  }

  /** A store to the chief's count: it clears a reservation there. */
  function StoreCount(q: Config, s: State, value: nat): State
    requires Valid(q, s)
  {
    s.(count := value, tiles := s.tiles[q.chief := s.tiles[q.chief].(res := false)])
  }

  /** A store to the alert word of tile i: it clears a reservation there. The chief reserves its count. */
  function StoreAlert(q: Config, s: State, i: nat, value: bool): State
    requires Valid(q, s) && i < q.n
  {
    var u := s.tiles[i];
    s.(tiles := s.tiles[i := u.(alert := value, res := if i == q.chief then u.res else false)])
  }

  function Arrive(q: Config, t: nat): Pc {
    if t == q.chief then CountLr else AlertLr
  }

  /** One step of tile t. */
  function Step(q: Config, s: State, t: nat): (s': State)
    requires Valid(q, s)
    ensures Valid(q, s')
  {
    if t >= q.n then s
    else
      var u := s.tiles[t];
      match u.pc
      case Out => s.(tiles := s.tiles[t := u.(pc := Lock, round := u.round + 1)])
      case Lock => if s.mutex then s else SetPc(s.(mutex := true), t, Read)
      case Read => SetPc(s, t, Write(s.count))
      case Write(value) => SetPc(StoreCount(q, s, value + 1), t, Unlock)
      case Unlock => SetPc(s.(mutex := false), t, Arrive(q, t))
      case CountLr =>
        s.(tiles := s.tiles[t := u.(res := true, pc := if s.count == q.n then ChiefLock else CountLrAq)])
      case CountLrAq => if u.res then s else SetPc(s, t, if s.count == q.n then ChiefLock else CountLr)
      case ChiefLock => if s.mutex then s else SetPc(s.(mutex := true), t, Alert(0))
      case Alert(i) => if i < q.n then SetPc(StoreAlert(q, s, i, true), t, Alert(i + 1)) else SetPc(s, t, Reset)
      case Reset => SetPc(StoreCount(q, s, 0), t, ChiefUnlock)
      case ChiefUnlock => SetPc(s.(mutex := false), t, Out)
      case AlertLr => s.(tiles := s.tiles[t := u.(res := true, pc := if u.alert then Clear else AlertLrAq)])
      case AlertLrAq => if u.res then s else SetPc(s, t, if u.alert then Clear else AlertLr)
      case Clear => SetPc(StoreAlert(q, s, t, false), t, Out)
  }

  function Exec(q: Config, s: State, sched: seq<nat>): (s': State)
    requires Valid(q, s)
    ensures Valid(q, s')
  {
    if sched == [] then s else Step(q, Exec(q, s, sched[..|sched| - 1]), sched[|sched| - 1])
  }

  // ---- the invariant ----

  /** How often the tile has counted itself in. */
  function Joins(u: Tile): int {
    match u.pc
    case Lock => u.round - 1
    case Read => u.round - 1
    case Write(_) => u.round - 1
    case _ => u.round
  }

  /** How many alerts a tile other than the chief has taken. */
  function Taken(u: Tile): int {
    if u.pc.Out? then u.round else u.round - 1
  }

  /** How often the chief has reset the count. */
  function Resets(c: Tile): int {
    if c.pc.Out? || c.pc.ChiefUnlock? then c.round else c.round - 1
  }

  /** How many alerts the chief c has given to tile t. */
  function Given(c: Tile, t: nat): int {
    if c.pc.Reset? || (c.pc.Alert? && t < c.pc.i) then Resets(c) + 1 else Resets(c)
  }

  predicate Holds(u: Tile) {
    match u.pc
    case Read => true
    case Write(_) => true
    case Unlock => true
    case Alert(_) => true
    case Reset => true
    case ChiefUnlock => true
    case _ => false
  }

  predicate Closing(c: Tile) {
    c.pc.ChiefLock? || c.pc.Alert? || c.pc.Reset?
  }

  predicate ChiefOnly(pc: Pc) {
    match pc
    case CountLr => true
    case CountLrAq => true
    case ChiefLock => true
    case Alert(_) => true
    case Reset => true
    case ChiefUnlock => true
    case _ => false
  }

  /** How many of the first n tiles have joined the round under way, the e-th. */
  function Joined(tiles: seq<Tile>, e: int, n: nat): (k: nat)
    requires n <= |tiles|
    ensures k <= n
  {
    if n == 0 then 0 else Joined(tiles, e, n - 1) + if Joins(tiles[n - 1]) == e then 1 else 0
  }

  ghost predicate WorkerOk(c: Tile, t: nat, u: Tile, count: nat) {
    && (Joins(u) == Resets(c) || Joins(u) == Resets(c) + 1)
    && !ChiefOnly(u.pc)
    && Taken(u) <= Given(c, t) <= Taken(u) + 1 && Given(c, t) <= Joins(u)
    && (u.alert <==> Given(c, t) == Taken(u) + 1)
    && (u.pc.Clear? ==> u.alert)
    && (u.pc.AlertLrAq? && u.res ==> !u.alert)
    && (u.pc.Write? ==> u.pc.value == count)
    && (!u.pc.Out? ==> u.round >= 1)
  }

  ghost predicate ChiefOk(q: Config, c: Tile, count: nat) {
    && (c.pc.ChiefLock? || c.pc.Alert? || c.pc.Reset? ==> count == q.n)
    && (c.pc.Alert? ==> c.pc.i <= q.n)
    && (c.pc.CountLrAq? && c.res ==> count != q.n)
    && (c.pc.Write? ==> c.pc.value == count)
    && !c.pc.AlertLr? && !c.pc.AlertLrAq? && !c.pc.Clear?
    && (!c.pc.Out? ==> c.round >= 1)
  }

  ghost predicate TileOk(q: Config, s: State, holder: Option<nat>, t: nat)
    requires Valid(q, s) && t < q.n
  {
    && (Holds(s.tiles[t]) <==> holder == Some(t))
    && (t != q.chief ==> WorkerOk(s.tiles[q.chief], t, s.tiles[t], s.count))
  }

  ghost predicate InvWith(q: Config, s: State, holder: Option<nat>) {
    && Valid(q, s)
    && (s.mutex <==> holder.Some?) && (holder.Some? ==> holder.value < q.n)
    && ChiefOk(q, s.tiles[q.chief], s.count)
    && s.count == Joined(s.tiles, Resets(s.tiles[q.chief]) + 1, q.n)
    && (forall t :: 0 <= t < q.n ==> TileOk(q, s, holder, t))
  }

  lemma InitInv(q: Config)
    requires ConfigOk(q)
    ensures InvWith(q, Init(q), None)
  {
    NobodyJoined(Init(q).tiles, 1, q.n);
  }

  lemma {:induction false} NobodyJoined(tiles: seq<Tile>, e: int, n: nat)
    requires n <= |tiles| && forall t :: 0 <= t < n ==> Joins(tiles[t]) != e
    ensures Joined(tiles, e, n) == 0
  {
    if n > 0 {
      NobodyJoined(tiles, e, n - 1);
    }
  }

  /** The count is full exactly when all have joined. */
  lemma {:induction false} AllJoined(tiles: seq<Tile>, e: int, n: nat)
    requires n <= |tiles|
    ensures Joined(tiles, e, n) == n <==> forall t :: 0 <= t < n ==> Joins(tiles[t]) == e
  {
    if n > 0 {
      AllJoined(tiles, e, n - 1);
    }
  }

  /** One tile's record changes. */
  lemma {:induction false} JoinedChanges(tiles: seq<Tile>, tiles': seq<Tile>, e: int, n: nat, t: nat)
    requires n <= |tiles| == |tiles'| && t < |tiles|
    requires forall v :: 0 <= v < |tiles| && v != t ==> Joins(tiles'[v]) == Joins(tiles[v])
    ensures Joined(tiles', e, n) == Joined(tiles, e, n)
      + (if t < n && Joins(tiles'[t]) == e then 1 else 0) - (if t < n && Joins(tiles[t]) == e then 1 else 0)
  {
    if n > 0 {
      JoinedChanges(tiles, tiles', e, n - 1, t);
    }
  }

  // ---- every step keeps the invariant ----

  /** A tile changes only itself, and neither what it counts as nor whether it holds the lock. */
  lemma OwnStepKeeps(q: Config, s: State, h: Option<nat>, t: nat, u: Tile)
    requires InvWith(q, s, h) && t < q.n
    requires Joins(u) == Joins(s.tiles[t]) && Holds(u) == Holds(s.tiles[t])
    requires t == q.chief ==> ChiefOk(q, u, s.count) && Resets(u) == Resets(s.tiles[t])
    requires t == q.chief ==> forall v: nat :: v < q.n ==> Given(u, v) == Given(s.tiles[t], v)
    requires t != q.chief ==> WorkerOk(s.tiles[q.chief], t, u, s.count)
    ensures InvWith(q, s.(tiles := s.tiles[t := u]), h)
  {
    var s' := s.(tiles := s.tiles[t := u]);
    JoinedChanges(s.tiles, s'.tiles, Resets(s.tiles[q.chief]) + 1, q.n, t);
    forall v | 0 <= v < q.n ensures TileOk(q, s', h, v) {
      assert TileOk(q, s, h, v);
    }
  }

  lemma EnterKeeps(q: Config, s: State, h: Option<nat>, t: nat)
    requires InvWith(q, s, h) && t < q.n && s.tiles[t].pc.Out?
    ensures InvWith(q, Step(q, s, t), h)
  {
    assert TileOk(q, s, h, t);
    OwnStepKeeps(q, s, h, t, s.tiles[t].(pc := Lock, round := s.tiles[t].round + 1));
  }

  lemma WaitKeeps(q: Config, s: State, h: Option<nat>, t: nat)
    requires InvWith(q, s, h) && t < q.n
    requires s.tiles[t].pc.CountLr? || s.tiles[t].pc.CountLrAq? || s.tiles[t].pc.AlertLr? || s.tiles[t].pc.AlertLrAq?
    ensures InvWith(q, Step(q, s, t), h)
  {
    assert TileOk(q, s, h, t);
    OwnStepKeeps(q, s, h, t, Step(q, s, t).tiles[t]);
  }

  /** Taking the lock. */
  lemma LockKeeps(q: Config, s: State, h: Option<nat>, t: nat)
    requires InvWith(q, s, h) && t < q.n && !s.mutex && (s.tiles[t].pc.Lock? || s.tiles[t].pc.ChiefLock?)
    ensures InvWith(q, Step(q, s, t), Some(t))
  {
    var s' := Step(q, s, t);
    assert TileOk(q, s, h, t);
    JoinedChanges(s.tiles, s'.tiles, Resets(s.tiles[q.chief]) + 1, q.n, t);
    forall v | 0 <= v < q.n ensures TileOk(q, s', Some(t), v) {
      assert TileOk(q, s, h, v);
    }
  }

  lemma UnlockTile(q: Config, s: State, h: Option<nat>, t: nat, v: nat)
    requires Valid(q, s) && t < q.n && v < q.n && TileOk(q, s, h, t) && TileOk(q, s, h, v)
    requires s.tiles[t].pc.Unlock? || (s.tiles[t].pc.ChiefUnlock? && t == q.chief)
    ensures TileOk(q, Step(q, s, t), None, v)
  {
  }

  /** Giving the lock back. */
  lemma UnlockKeeps(q: Config, s: State, h: Option<nat>, t: nat)
    requires InvWith(q, s, h) && t < q.n && (s.tiles[t].pc.Unlock? || s.tiles[t].pc.ChiefUnlock?)
    requires s.tiles[t].pc.ChiefUnlock? ==> t == q.chief
    ensures InvWith(q, Step(q, s, t), None)
  {
    var s' := Step(q, s, t);
    assert TileOk(q, s, h, t);
    JoinedChanges(s.tiles, s'.tiles, Resets(s.tiles[q.chief]) + 1, q.n, t);
    forall v | 0 <= v < q.n ensures TileOk(q, s', None, v) {
      assert TileOk(q, s, h, v);
      UnlockTile(q, s, h, t, v);
    }
  }

  lemma ReadKeeps(q: Config, s: State, h: Option<nat>, t: nat)
    requires InvWith(q, s, h) && t < q.n && s.tiles[t].pc.Read?
    ensures InvWith(q, Step(q, s, t), h)
  {
    assert TileOk(q, s, h, t);
    OwnStepKeeps(q, s, h, t, s.tiles[t].(pc := Write(s.count)));
  }

  /** A tile about to count itself in has not joined, so the chief is not closing the round. */
  lemma WriterNotJoined(q: Config, s: State, h: Option<nat>, t: nat)
    requires InvWith(q, s, h) && t < q.n && s.tiles[t].pc.Write?
    ensures Joins(s.tiles[t]) == Resets(s.tiles[q.chief]) && !Closing(s.tiles[q.chief])
    ensures s.count < q.n && s.tiles[t].pc.value == s.count
  {
    assert TileOk(q, s, h, t);
    assert TileOk(q, s, h, q.chief);
    AllJoined(s.tiles, Resets(s.tiles[q.chief]) + 1, q.n);
  }

  lemma WriteKeeps(q: Config, s: State, h: Option<nat>, t: nat)
    requires InvWith(q, s, h) && t < q.n && s.tiles[t].pc.Write?
    ensures InvWith(q, Step(q, s, t), h)
  {
    var s' := Step(q, s, t);
    var e := Resets(s.tiles[q.chief]) + 1;
    WriterNotJoined(q, s, h, t);
    assert TileOk(q, s, h, t);
    assert TileOk(q, s, h, q.chief);
    assert Joins(s'.tiles[t]) == e && Resets(s'.tiles[q.chief]) + 1 == e;
    forall v | 0 <= v < q.n && v != t ensures Joins(s'.tiles[v]) == Joins(s.tiles[v]) {
    }
    JoinedChanges(s.tiles, s'.tiles, e, q.n, t);
    forall v | 0 <= v < q.n ensures TileOk(q, s', h, v) {
      assert TileOk(q, s, h, v);
    }
  }

  /** Storing the alert of tile i: its previous alert has been taken. */
  lemma AlertKeeps(q: Config, s: State, h: Option<nat>, t: nat)
    requires InvWith(q, s, h) && t == q.chief && s.tiles[t].pc.Alert? && s.tiles[t].pc.i < q.n
    ensures InvWith(q, Step(q, s, t), h)
  {
    var s' := Step(q, s, t);
    var e := Resets(s.tiles[t]) + 1;
    AllJoined(s.tiles, e, q.n);
    forall v | 0 <= v < q.n ensures Joins(s'.tiles[v]) == Joins(s.tiles[v]) {
    }
    AllJoined(s'.tiles, e, q.n);
    forall v | 0 <= v < q.n ensures TileOk(q, s', h, v) {
      assert TileOk(q, s, h, v);
    }
  }

  lemma AlertsDoneKeeps(q: Config, s: State, h: Option<nat>, t: nat)
    requires InvWith(q, s, h) && t == q.chief && s.tiles[t].pc.Alert? && s.tiles[t].pc.i == q.n
    ensures InvWith(q, Step(q, s, t), h)
  {
    OwnStepKeeps(q, s, h, t, s.tiles[t].(pc := Reset));
  }

  lemma ResetKeeps(q: Config, s: State, h: Option<nat>, t: nat)
    requires InvWith(q, s, h) && t == q.chief && s.tiles[t].pc.Reset?
    ensures InvWith(q, Step(q, s, t), h)
  {
    var s' := Step(q, s, t);
    var e := Resets(s.tiles[t]) + 1;
    AllJoined(s.tiles, e, q.n);
    forall v | 0 <= v < q.n ensures Joins(s'.tiles[v]) == e {
    }
    NobodyJoined(s'.tiles, e + 1, q.n);
    forall v | 0 <= v < q.n ensures TileOk(q, s', h, v) {
      assert TileOk(q, s, h, v);
      assert TileOk(q, s, h, q.chief);
    }
  }

  lemma ClearKeeps(q: Config, s: State, h: Option<nat>, t: nat)
    requires InvWith(q, s, h) && t < q.n && s.tiles[t].pc.Clear?
    ensures InvWith(q, Step(q, s, t), h)
  {
    assert TileOk(q, s, h, t);
    assert t != q.chief;
    var u := s.tiles[t].(alert := false, res := false, pc := Out);
    OwnStepKeeps(q, s, h, t, u);
    assert Step(q, s, t) == s.(tiles := s.tiles[t := u]) by {
      assert s.tiles[t := s.tiles[t].(alert := false, res := false)][t := u] == s.tiles[t := u];
    }
  }

  lemma StepKeeps(q: Config, s: State, h: Option<nat>, t: nat) returns (h': Option<nat>)
    requires InvWith(q, s, h)
    ensures InvWith(q, Step(q, s, t), h')
  {
    h' := h;
    if t < q.n {
      assert TileOk(q, s, h, t);
      match s.tiles[t].pc
      case Out => EnterKeeps(q, s, h, t);
      case Lock => if !s.mutex { LockKeeps(q, s, h, t); h' := Some(t); }
      case Read => ReadKeeps(q, s, h, t);
      case Write(_) => WriteKeeps(q, s, h, t);
      case Unlock => UnlockKeeps(q, s, h, t); h' := None;
      case ChiefLock => if !s.mutex { LockKeeps(q, s, h, t); h' := Some(t); }
      case Alert(i) => if i < q.n { AlertKeeps(q, s, h, t); } else { AlertsDoneKeeps(q, s, h, t); }
      case Reset => ResetKeeps(q, s, h, t);
      case ChiefUnlock => UnlockKeeps(q, s, h, t); h' := None;
      case Clear => ClearKeeps(q, s, h, t);
      case _ => WaitKeeps(q, s, h, t);
    }
  }

  lemma {:induction false} ExecKeeps(q: Config, sched: seq<nat>) returns (h: Option<nat>)
    requires ConfigOk(q)
    ensures InvWith(q, Exec(q, Init(q), sched), h)
  {
    if sched == [] {
      InitInv(q);
      h := None;
    } else {
      h := ExecKeeps(q, sched[..|sched| - 1]);
      h := StepKeeps(q, Exec(q, Init(q), sched[..|sched| - 1]), h, sched[|sched| - 1]);
    }
  }

  // ---- what the barrier promises, over every run ----

  /** How many rounds of the barrier the tile has returned from. */
  function Returned(u: Tile): int {
    if u.pc.Out? then u.round else u.round - 1
  }

  /** No tile returns from a round before every tile has entered it. */
  lemma NoEarlyRelease(q: Config, sched: seq<nat>, t: nat, u: nat)
    requires ConfigOk(q) && t < q.n && u < q.n
    ensures
      var s := Exec(q, Init(q), sched);
      Returned(s.tiles[t]) <= s.tiles[u].round
  {
    var h := ExecKeeps(q, sched);
    ReturnedAfterEntered(q, Exec(q, Init(q), sched), h, t, u);
  }

  lemma ReturnedAfterEntered(q: Config, s: State, h: Option<nat>, t: nat, u: nat)
    requires InvWith(q, s, h) && t < q.n && u < q.n
    ensures Returned(s.tiles[t]) <= s.tiles[u].round
  {
    var e := Resets(s.tiles[q.chief]);
    ReturnedBound(q, s, h, t);
    assert TileOk(q, s, h, u);
    AllJoined(s.tiles, e + 1, q.n);
    assert Joins(s.tiles[u]) >= e;
  }

  /** A tile is back from the round under way only if the chief is alerting. */
  lemma ReturnedBound(q: Config, s: State, h: Option<nat>, t: nat)
    requires InvWith(q, s, h) && t < q.n
    ensures var e := Resets(s.tiles[q.chief]);
      Returned(s.tiles[t]) <= e || (Returned(s.tiles[t]) == e + 1 && s.count == q.n)
  {
    assert TileOk(q, s, h, t);
  }

  /** The count is never off: it is the number of tiles that have counted themselves in since the
      last reset, so no increment is lost, neither to another increment nor to the reset. */
  lemma NoIncrementLost(q: Config, sched: seq<nat>)
    requires ConfigOk(q)
    ensures
      var s := Exec(q, Init(q), sched);
      && s.count == Joined(s.tiles, Resets(s.tiles[q.chief]) + 1, q.n)
      && (forall t :: 0 <= t < q.n ==>
            Joins(s.tiles[t]) == Resets(s.tiles[q.chief]) || Joins(s.tiles[t]) == Resets(s.tiles[q.chief]) + 1)
  {
    var s := Exec(q, Init(q), sched);
    var h := ExecKeeps(q, sched);
    forall t | 0 <= t < q.n
      ensures Joins(s.tiles[t]) == Resets(s.tiles[q.chief]) || Joins(s.tiles[t]) == Resets(s.tiles[q.chief]) + 1
    {
      assert TileOk(q, s, h, t);
    }
  }

  /** A tile asleep in LR.AQ never sits on a word that already has the value it waits for. */
  lemma NoSleepOnReadyWord(q: Config, sched: seq<nat>, t: nat)
    requires ConfigOk(q) && t < q.n
    ensures
      var s := Exec(q, Init(q), sched);
      var u := s.tiles[t];
      && (u.pc.CountLrAq? && u.res ==> s.count != q.n)
      && (u.pc.AlertLrAq? && u.res ==> !u.alert)
  {
    var s := Exec(q, Init(q), sched);
    var h := ExecKeeps(q, sched);
    assert TileOk(q, s, h, t);
  }

  predicate Moves(q: Config, s: State, t: nat)
    requires Valid(q, s)
  {
    t < q.n && Step(q, s, t) != s
  }

  ghost predicate CanMove(q: Config, s: State)
    requires Valid(q, s)
  {
    exists t :: Moves(q, s, t)
  }

  /** When all tiles are in the barrier, some tile can move. */
  lemma NeverStuck(q: Config, sched: seq<nat>)
    requires ConfigOk(q)
    requires forall t :: 0 <= t < q.n ==> !Exec(q, Init(q), sched).tiles[t].pc.Out?
    ensures CanMove(q, Exec(q, Init(q), sched))
  {
    var h := ExecKeeps(q, sched);
    SomeoneMoves(q, Exec(q, Init(q), sched), h);
  }

  lemma SomeoneMoves(q: Config, s: State, h: Option<nat>)
    requires InvWith(q, s, h) && forall v :: 0 <= v < q.n ==> !s.tiles[v].pc.Out?
    ensures CanMove(q, s)
  {
    var t := Mover(q, s, h);
    ReadyMoves(q, s, t);
    assert Moves(q, s, t);
  }

  /** The tile's step changes its pc. */
  predicate Ready(s: State, u: Tile) {
    match u.pc
    case Lock => !s.mutex
    case ChiefLock => !s.mutex
    case CountLrAq => !u.res
    case AlertLrAq => !u.res
    case _ => true
  }

  lemma ReadyMoves(q: Config, s: State, t: nat)
    requires Valid(q, s) && t < q.n && Ready(s, s.tiles[t])
    ensures Step(q, s, t) != s
  {
    assert Step(q, s, t).tiles[t].pc != s.tiles[t].pc;
  }

  lemma Mover(q: Config, s: State, h: Option<nat>) returns (t: nat)
    requires InvWith(q, s, h) && forall v :: 0 <= v < q.n ==> !s.tiles[v].pc.Out?
    ensures t < q.n && Ready(s, s.tiles[t])
  {
    if h.Some? {
      t := h.value;
      assert TileOk(q, s, h, t);
    } else if Ready(s, s.tiles[q.chief]) {
      t := q.chief;
    } else {
      // The chief waits for the count, so some tile has not joined; it cannot be asleep.
      var e := Resets(s.tiles[q.chief]) + 1;
      AllJoined(s.tiles, e, q.n);
      t :| 0 <= t < q.n && Joins(s.tiles[t]) != e;
      assert TileOk(q, s, h, t);
    }
  }
}
