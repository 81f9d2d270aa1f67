/** A run in which the pod barrier releases a tile early.

    The center stalls after its first notification. Row 0 completes the barrier through column 7
    and the buddies (tile (8,0) is released by (9,0)), enters the next barrier, and (8,0) goes to
    sleep there. The center's first-barrier notification then wakes it. */
module PodBarrierFailure {
  import opened PodBarrier

  ghost predicate Reach(s: State) {
    exists sched: seq<PodTile> :: Exec(Init(), sched) == s
  }

  lemma Go(s: State, t: PodTile)
    requires Valid(s) && Reach(s)
    ensures Reach(Step(s, t))
  {
    var sched: seq<PodTile> :| Exec(Init(), sched) == s;
    assert (sched + [t])[..|sched + [t]| - 1] == sched;
    assert Exec(Init(), sched + [t]) == Step(s, t);
  }

  /** The head of a complete row y reads one more word. */
  lemma HeadReads(s: State, h: PodTile, k: nat, ok: bool) returns (s': State)
    requires Valid(s) && Reach(s) && h.x == 8 && k < 4 && s[h].pc == Join(k, ok) && RowComplete(s, h)
    ensures Valid(s') && Reach(s') && s' == Goto(s, h, AfterRead(k, ok, true)) && RowComplete(s', h)
  {
    Go(s, h);
    HeadSees(s, h);
    s' := Step(s, h);
  }

  /** The cell of the head, and of the center, after the head of row y has relayed v. */
  function Relaid(c: Cell, h: PodTile, u: PodTile, v: bool): Cell
    requires |c.col| == 8
  {
    var c1 := if u == CENTER then c.(col := c.col[h.y := v]) else c;
    if u == h then c1.(pc := if h == CENTER then JoinCol(0, false) else WaitLr) else c1
  }

  lemma HeadStores(s: State, h: PodTile) returns (s': State)
    requires Valid(s) && Reach(s) && h.x == 8 && s[h].pc == Relay
    ensures Valid(s') && Reach(s')
    ensures forall u: PodTile :: s'[u] == Relaid(s[u], h, u, s[h].sense)
  {
    Go(s, h);
    s' := Step(s, h);
  }

  /** With a complete row its head relays it. */
  lemma HeadRelays(s: State, h: PodTile) returns (s': State)
    requires Valid(s) && Reach(s) && h.x == 8 && s[h].pc == Join(0, false) && RowComplete(s, h)
    ensures Valid(s') && Reach(s')
    ensures forall u: PodTile :: s'[u] == Relaid(s[u], h, u, s[h].sense)
  {
    var s1 := HeadReads(s, h, 0, false);
    var s2 := HeadReads(s1, h, 1, true);
    var s3 := HeadReads(s2, h, 2, false);
    var s4 := HeadReads(s3, h, 3, true);
    s' := HeadStores(s4, h);
  }

  /** The cell of u after t, in its round with sense v, has told its buddy and returned. */
  function Returned(c: Cell, t: PodTile, u: PodTile, v: bool): Cell {
    var c1 := if u == BuddyOf(t) then c.(notify := v, reserved := false) else c;
    if u == t then c1.(pc := Out, sense := !v, round := c.round + 1) else c1
  }

  lemma FlipReturns(s: State, t: PodTile) returns (s': State)
    requires Valid(s) && Reach(s) && s[t].pc == Flip
    ensures Valid(s') && Reach(s') && s'[t] == Flipped(s[t])
    ensures forall u: PodTile :: u != t ==> s'[u] == s[u]
  {
    Go(s, t);
    s' := Step(s, t);
  }

  lemma BuddyStores(s: State, t: PodTile) returns (s': State)
    requires Valid(s) && Reach(s) && s[t].pc == Buddy
    ensures Valid(s') && Reach(s')
    ensures forall u: PodTile ::
      s'[u] == (var c := if u == BuddyOf(t) then s[u].(notify := s[t].sense, reserved := false) else s[u];
                if u == t then c.(pc := Flip) else c)
  {
    Go(s, t);
    s' := Step(s, t);
  }

  /** A tile that has passed its wait tells its buddy and returns. */
  lemma BuddyThenFlip(s: State, t: PodTile) returns (s': State)
    requires Valid(s) && Reach(s) && s[t].pc == Buddy
    ensures Valid(s') && Reach(s')
    ensures forall u: PodTile :: s'[u] == Returned(s[u], t, u, s[t].sense)
  {
    var s1 := BuddyStores(s, t);
    s' := FlipReturns(s1, t);
  }

  /** A tile whose notification is there passes its wait and returns. */
  lemma TileReturns(s: State, t: PodTile) returns (s': State)
    requires Valid(s) && Reach(s) && t.x != 7 && s[t].pc == WaitLr && s[t].notify == s[t].sense
    ensures Valid(s') && Reach(s')
    ensures forall u: PodTile :: u != t ==> s'[u] == Returned(s[u], t, u, s[t].sense)
    ensures s'[t].pc == Out && s'[t].round == s[t].round + 1 && s'[t].sense == !s[t].sense
    ensures s'[t].notify == s[t].notify && s'[t].row == s[t].row && s'[t].col == s[t].col
  {
    Go(s, t);
    var s1 := Step(s, t);
    s' := BuddyThenFlip(s1, t);
  }

  lemma TileArrives(s: State, t: PodTile) returns (s': State)
    requires Valid(s) && Reach(s) && s[t].pc == Out
    ensures Valid(s') && Reach(s')
    ensures forall u: PodTile :: RowFlag(s', u) == (if u == t then s[t].sense else RowFlag(s, u))
    ensures forall u: PodTile :: s'[u] == s[u].(row := s'[u].row, pc := if u == t then Waiting(t) else s[u].pc)
  {
    Go(s, t);
    s' := Step(s, t);
    var s1 := StoreRow(s, t, s[t].sense);
    forall u: PodTile ensures RowFlag(s', u) == RowFlag(s1, u) {
    }
  }

  /** Tile u in the first barrier, before or after its arrival. */
  predicate FirstRound(s: State, u: PodTile, arrived: bool)
    requires Valid(s)
  {
    && s[u].round == 0 && s[u].sense && !s[u].notify
    && (if arrived then s[u].pc == Waiting(u) && RowFlag(s, u) else s[u].pc == Out)
  }

  lemma AllArrive() returns (s: State)
    ensures Valid(s) && Reach(s)
    ensures forall u: PodTile :: FirstRound(s, u, true)
  {
    s := Init();
    assert Exec(Init(), []) == s;
    for y := 0 to 8
      invariant Valid(s) && Reach(s)
      invariant forall u: PodTile :: FirstRound(s, u, u.y < y)
    {
      for x := 0 to 16
        invariant Valid(s) && Reach(s)
        invariant forall u: PodTile :: FirstRound(s, u, u.y < y || (u.y == y && u.x < x))
      {
        assert FirstRound(s, Tile(x, y), false);
        s := TileArrives(s, Tile(x, y));
      }
    }
  }

  predicate Relayed1(s: State, u: PodTile, relayed: bool)
    requires Valid(s)
  {
    && s[u].round == 0 && s[u].sense && !s[u].notify && RowFlag(s, u)
    && s[u].pc == (if !relayed then Waiting(u) else if u == CENTER then JoinCol(0, false) else WaitLr)
    && (relayed ==> s[CENTER].col[u.y])
  }

  lemma StillRelayed(s: State, s': State, h: PodTile, u: PodTile)
    requires Valid(s) && Valid(s') && h.x == 8 && Relayed1(s, u, u.y < h.y)
    requires s[h].sense && s'[u] == Relaid(s[u], h, u, true)
    requires s'[CENTER] == Relaid(s[CENTER], h, CENTER, true)
    requires s'[Tile(8, u.y)].row == s[Tile(8, u.y)].row
    ensures Relayed1(s', u, u.y < h.y + 1)
  {
  }

  lemma RelayedRowIsComplete(s: State, h: PodTile)
    requires Valid(s) && h.x == 8 && forall u: PodTile :: Relayed1(s, u, u.y < h.y)
    ensures RowComplete(s, h) && s[h].pc == Join(0, false) && s[h].sense
  {
    assert Relayed1(s, h, false);
    forall u: PodTile | u.y == h.y ensures RowFlag(s, u) == s[h].sense {
      assert Relayed1(s, u, false);
    }
  }

  lemma RelayedByHead(s: State, s': State, h: PodTile, u: PodTile)
    requires Valid(s) && Valid(s') && h.x == 8 && s[h].sense && Relayed1(s, u, u.y < h.y)
    requires forall v: PodTile :: s'[v] == Relaid(s[v], h, v, true)
    ensures Relayed1(s', u, u.y < h.y + 1)
  {
    var g: PodTile := Tile(8, u.y);
    assert s'[g] == Relaid(s[g], h, g, true) && s'[CENTER] == Relaid(s[CENTER], h, CENTER, true);
    StillRelayed(s, s', h, u);
  }

  lemma RowRelays(s: State, y: nat) returns (s': State)
    requires Valid(s) && Reach(s) && y < 8
    requires forall u: PodTile :: Relayed1(s, u, u.y < y)
    ensures Valid(s') && Reach(s')
    ensures forall u: PodTile :: Relayed1(s', u, u.y < y + 1)
  {
    var h: PodTile := Tile(8, y);
    RelayedRowIsComplete(s, h);
    s' := HeadRelays(s, h);
    forall u: PodTile ensures Relayed1(s', u, u.y < y + 1) {
      RelayedByHead(s, s', h, u);
    }
  }

  lemma AllRelay() returns (s: State)
    ensures Valid(s) && Reach(s)
    ensures forall u: PodTile :: Relayed1(s, u, true)
  {
    s := AllArrive();
    forall u: PodTile ensures Relayed1(s, u, false) {
      assert FirstRound(s, u, true);
    }
    for y := 0 to 8
      invariant Valid(s) && Reach(s)
      invariant forall u: PodTile :: Relayed1(s, u, u.y < y)
    {
      s := RowRelays(s, y);
    }
  }

  /** Everybody sleeps or is about to; the center has notified (7,0) and stalls. */
  ghost predicate CenterStalls(s: State)
    requires Valid(s)
  {
    && s[CENTER].pc == Wake(1) && s[CENTER].round == 0 && s[CENTER].sense
    && (forall u: PodTile :: u != CENTER ==> s[u].pc == WaitLr && s[u].round == 0 && s[u].sense)
    && s[Tile(7, 0)].notify
  }

  lemma CenterReads(s: State) returns (s': State)
    requires Valid(s) && Reach(s) && s[CENTER].pc == JoinCol(0, false)
    requires forall y: nat :: y < 8 ==> s[CENTER].col[y] == s[CENTER].sense
    ensures Valid(s') && Reach(s') && s'[CENTER] == s[CENTER].(pc := Wake(0))
    ensures forall u: PodTile :: u != CENTER ==> s'[u] == s[u]
  {
    Go(s, CENTER);
    var s1 := Step(s, CENTER);
    assert s1[CENTER] == s[CENTER].(pc := JoinCol(1, true));
    Go(s1, CENTER);
    s' := Step(s1, CENTER);
  }

  lemma CenterStores(s: State, i: nat) returns (s': State)
    requires Valid(s) && Reach(s) && i < 15 && s[CENTER].pc == Wake(i)
    ensures Valid(s') && Reach(s')
    ensures forall u: PodTile :: u != CENTER ==>
      s'[u] == (if u == WakeTarget(i) then s[u].(notify := s[CENTER].sense, reserved := false) else s[u])
    ensures s'[CENTER].pc == Wake(i + 1) && s'[CENTER].round == s[CENTER].round && s'[CENTER].sense == s[CENTER].sense
  {
    Go(s, CENTER);
    s' := Step(s, CENTER);
  }

  /** The center has seen every row arrive and has notified nobody yet. */
  lemma CenterCompletes() returns (s: State)
    ensures Valid(s) && Reach(s)
    ensures s[CENTER].pc == Wake(0) && s[CENTER].round == 0 && s[CENTER].sense
    ensures forall u: PodTile :: u != CENTER ==> s[u].pc == WaitLr && s[u].round == 0 && s[u].sense
  {
    s := AllRelay();
    assert Relayed1(s, CENTER, true);
    forall y: nat | y < 8 ensures s[CENTER].col[y] {
      assert Relayed1(s, Tile(8, y), true);
    }
    var s0 := s;
    s := CenterReads(s);
    forall u: PodTile | u != CENTER ensures s[u].pc == WaitLr && s[u].round == 0 && s[u].sense {
      assert Relayed1(s0, u, true);
    }
  }

  lemma CenterNotifiesOne() returns (s: State)
    ensures Valid(s) && Reach(s) && CenterStalls(s)
  {
    var s1 := CenterCompletes();
    s := CenterStores(s1, 0);
    assert s[Tile(7, 0)] == s1[Tile(7, 0)].(notify := true, reserved := false);
  }

  predicate DoneOnce(c: Cell) {
    c.pc == Out && c.round == 1 && !c.sense && c.notify
  }

  predicate AboutToLook(c: Cell) {
    c.pc == WaitLr && c.round == 0 && c.sense
  }

  lemma FanStores(s: State, t: PodTile, i: nat) returns (s': State)
    requires Valid(s) && Reach(s) && i < 3 && s[t].pc == Fan(i)
    ensures Valid(s') && Reach(s')
    ensures forall u: PodTile :: u != t ==>
      s'[u] == (if u == FanTarget(i, t.y) then s[u].(notify := s[t].sense, reserved := false) else s[u])
    ensures t.x == 7 ==> s'[t] == s[t].(pc := if i == 2 then Buddy else Fan(i + 1))
  {
    Go(s, t);
    s' := Step(s, t);
    FanEffect(s, t, i);
  }

  lemma FanEffect(s: State, t: PodTile, i: nat)
    requires Valid(s) && i < 3 && s[t].pc == Fan(i)
    ensures
      var s', w := Step(s, t), FanTarget(i, t.y);
      && (forall u: PodTile :: u != t ==>
            s'[u] == (if u == w then s[u].(notify := s[t].sense, reserved := false) else s[u]))
      && (w != t ==> s'[t] == s[t].(pc := if i == 2 then Buddy else Fan(i + 1)))
  {
    var s', w := Step(s, t), FanTarget(i, t.y);
    assert s' == Goto(StoreNotify(s, w, s[t].sense), t, if i == 2 then Buddy else Fan(i + 1));
  }

  /** The cell may have been notified, and nothing else. */
  predicate MayBeNotified(c: Cell, c': Cell) {
    c' == c.(notify := c'.notify, reserved := c'.reserved) && (c.notify ==> c'.notify)
  }

  /** Column 7 of row 0 makes its stores from number i on. */
  lemma FansOnce(s: State, t: PodTile, i: nat) returns (s': State)
    requires Valid(s) && Reach(s) && i < 3 && t == Tile(7, 0) && s[t].pc == Fan(i) && s[t].sense
    ensures Valid(s') && Reach(s') && s'[t] == s[t].(pc := if i == 2 then Buddy else Fan(i + 1))
    ensures forall u: PodTile :: u != t ==> MayBeNotified(s[u], s'[u])
    ensures s'[FanTarget(i, 0)].notify
  {
    s' := FanStores(s, t, i);
    forall u: PodTile | u != t ensures MayBeNotified(s[u], s'[u]) {
    }
  }

  /** The place of column x when row 0 returns quad by quad, each from the right. */
  function Place(x: nat): nat
    requires x < 16
  {
    if x < 8 then 7 - x else if x < 12 then 19 - x else 27 - x
  }

  /** Tile u after the first k tiles of row 0 have returned: whoever is next has been notified. */
  predicate StageTile(c: Cell, u: PodTile, k: nat) {
    u.y == 0 ==>
      if Place(u.x) < k then DoneOnce(c)
      else AboutToLook(c) && (u.x in {3, 11, 15} || Place(u.x) == k ==> c.notify)
  }

  ghost predicate Stage(s: State, k: nat)
    requires Valid(s)
  {
    && s[CENTER].pc == Wake(1) && s[CENTER].round == 0 && s[CENTER].sense
    && AboutToLook(s[Tile(0, 1)])
    && forall u: PodTile :: StageTile(s[u], u, k)
  }

  /** Column 7 of row 0 has passed its wait. */
  lemma SevenPasses() returns (s: State)
    ensures Valid(s) && Reach(s) && Asleep(s)
    ensures Fanning(s[Tile(7, 0)], Fan(0))
  {
    var s0 := CenterNotifiesOne();
    Go(s0, Tile(7, 0));
    s := Step(s0, Tile(7, 0));
  }

  /** The center stalls, and all but tile (7,0) are about to look for their notification. */
  ghost predicate Asleep(s: State)
    requires Valid(s)
  {
    && s[CENTER].pc == Wake(1) && s[CENTER].round == 0 && s[CENTER].sense
    && forall u: PodTile :: u != CENTER && u != Tile(7, 0) ==> AboutToLook(s[u])
  }

  lemma StillAsleep(s: State, s': State)
    requires Valid(s) && Valid(s') && Asleep(s)
    requires forall u: PodTile :: u != Tile(7, 0) ==> MayBeNotified(s[u], s'[u])
    ensures Asleep(s')
  {
    assert MayBeNotified(s[CENTER], s'[CENTER]);
  }

  lemma FansAsleep(s: State, i: nat) returns (s': State)
    requires Valid(s) && Reach(s) && Asleep(s) && i < 3 && Fanning(s[Tile(7, 0)], Fan(i))
    ensures Valid(s') && Reach(s') && Asleep(s') && Fanning(s'[Tile(7, 0)], if i == 2 then Buddy else Fan(i + 1))
    ensures i == 0 || s[Tile(3, 0)].notify ==> s'[Tile(3, 0)].notify
    ensures i == 1 || s[Tile(11, 0)].notify ==> s'[Tile(11, 0)].notify
    ensures i == 2 || s[Tile(15, 0)].notify ==> s'[Tile(15, 0)].notify
  {
    s' := FansOnce(s, Tile(7, 0), i);
    StillAsleep(s, s');
    assert MayBeNotified(s[Tile(3, 0)], s'[Tile(3, 0)]);
    assert MayBeNotified(s[Tile(11, 0)], s'[Tile(11, 0)]);
    assert MayBeNotified(s[Tile(15, 0)], s'[Tile(15, 0)]);
  }

  /** Tile (7,0) in its first round, past its wait. */
  predicate Fanning(c: Cell, pc: Pc) {
    c.pc == pc && c.round == 0 && c.sense && c.notify
  }

  /** And has notified the three other quads. */
  lemma SevenFans() returns (s: State)
    ensures Valid(s) && Reach(s) && Asleep(s) && Fanning(s[Tile(7, 0)], Buddy)
    ensures s[Tile(3, 0)].notify && s[Tile(11, 0)].notify && s[Tile(15, 0)].notify
  {
    s := SevenPasses();
    s := FansAsleep(s, 0);
    s := FansAsleep(s, 1);
    s := FansAsleep(s, 2);
  }

  lemma BeginStages() returns (s': State)
    ensures Valid(s') && Reach(s') && Stage(s', 1)
  {
    var s := SevenFans();
    var t: PodTile := Tile(7, 0);
    s' := BuddyThenFlip(s, t);
    assert s'[CENTER] == s[CENTER] && s'[Tile(0, 1)] == s[Tile(0, 1)];
    forall u: PodTile ensures StageTile(s'[u], u, 1) {
      BegunTile(s[u], s'[u], u);
    }
  }

  lemma BegunTile(c: Cell, c': Cell, u: PodTile)
    requires c' == Returned(c, Tile(7, 0), u, true)
    requires if u == Tile(7, 0) then Fanning(c, Buddy) else u != CENTER ==> AboutToLook(c)
    requires u.x in {3, 11, 15} && u.y == 0 ==> c.notify
    ensures StageTile(c', u, 1)
  {
  }

  lemma StageReturned(c: Cell, c': Cell, t: PodTile, u: PodTile, k: nat)
    requires 1 <= k < 16 && t.y == 0 && Place(t.x) == k && u != t
    requires StageTile(c, u, k) && c' == Returned(c, t, u, true)
    ensures StageTile(c', u, k + 1)
  {
  }

  lemma NextStage(s: State, t: PodTile, k: nat) returns (s': State)
    requires Valid(s) && Reach(s) && 1 <= k < 16 && Stage(s, k) && t.y == 0 && Place(t.x) == k
    ensures Valid(s') && Reach(s') && Stage(s', k + 1)
  {
    assert StageTile(s[t], t, k);
    s' := TileReturns(s, t);
    forall u: PodTile ensures StageTile(s'[u], u, k + 1) {
      assert StageTile(s[u], u, k);
      if u != t {
        StageReturned(s[u], s'[u], t, u, k);
      }
    }
  }

  /** Row 0 completes the first barrier; the other rows still wait and the center stalls. */
  lemma RowZeroReturns() returns (s: State)
    ensures Valid(s) && Reach(s) && Stage(s, 16)
  {
    s := BeginStages();
    for k := 1 to 16
      invariant Valid(s) && Reach(s) && Stage(s, k)
    {
      s := NextStage(s, Tile(if k < 8 then 7 - k else if k < 12 then 19 - k else 27 - k, 0), k);
    }
  }

  predicate Again(s: State, u: PodTile, arrived: bool)
    requires Valid(s)
  {
    if arrived
    then s[u].pc == Waiting(u) && s[u].round == 1 && !s[u].sense && s[u].notify && !RowFlag(s, u)
    else DoneOnce(s[u])
  }

  /** Row 0 enters the second barrier and its head relays the row. */
  lemma RowZeroEntersAgain() returns (s: State)
    ensures Valid(s) && Reach(s)
    ensures s[CENTER].pc == Wake(1) && s[CENTER].round == 0 && s[CENTER].sense && AboutToLook(s[Tile(0, 1)])
    ensures s[Tile(8, 0)].pc == WaitLr && s[Tile(8, 0)].round == 1 && !s[Tile(8, 0)].sense && s[Tile(8, 0)].notify
  {
    s := RowZeroReturns();
    forall u: PodTile | u.y == 0 ensures Again(s, u, false) {
      assert StageTile(s[u], u, 16);
    }
    for x := 0 to 16
      invariant Valid(s) && Reach(s)
      invariant s[CENTER].pc == Wake(1) && s[CENTER].round == 0 && s[CENTER].sense && AboutToLook(s[Tile(0, 1)])
      invariant forall u: PodTile :: u.y == 0 ==> Again(s, u, u.x < x)
    {
      assert Again(s, Tile(x, 0), false);
      var s1 := TileArrives(s, Tile(x, 0));
      forall u: PodTile | u.y == 0 ensures Again(s1, u, u.x < x + 1) {
        assert Again(s, u, u.x < x);
      }
      s := s1;
    }
    var h: PodTile := Tile(8, 0);
    assert Again(s, h, true);
    forall u: PodTile | u.y == h.y ensures RowFlag(s, u) == s[h].sense {
      assert Again(s, u, true);
    }
    s := HeadRelays(s, h);
  }

  lemma CenterResumesOnce(s: State, i: nat) returns (s': State)
    requires Valid(s) && Reach(s) && 1 <= i < 9 && s[CENTER].pc == Wake(i) && AboutToLook(s[Tile(0, 1)])
    ensures Valid(s') && Reach(s') && s'[CENTER].pc == Wake(i + 1) && s'[CENTER].round == s[CENTER].round
    ensures s'[Tile(0, 1)] == s[Tile(0, 1)]
    ensures
      var c, c' := s[Tile(8, 0)], s'[Tile(8, 0)];
      c'.pc == c.pc && c'.round == c.round && (i == 8 ==> !c'.reserved)
  {
    s' := CenterStores(s, i);
    assert WakeTarget(8) == Tile(8, 0) && WakeTarget(i) != Tile(0, 1);
  }

  /** The center resumes: its stores to the rest of column 7 and to (8,0). */
  lemma CenterResumes(s: State) returns (s': State)
    requires Valid(s) && Reach(s) && s[CENTER].pc == Wake(1) && AboutToLook(s[Tile(0, 1)])
    requires s[CENTER].round == 0 && s[Tile(8, 0)].pc == WaitLrAq && s[Tile(8, 0)].round == 1
    ensures Valid(s') && Reach(s') && s'[CENTER].pc == Wake(9) && s'[CENTER].round == 0 && AboutToLook(s'[Tile(0, 1)])
    ensures s'[Tile(8, 0)].pc == WaitLrAq && s'[Tile(8, 0)].round == 1 && !s'[Tile(8, 0)].reserved
  {
    s' := s;
    for i := 1 to 9
      invariant Valid(s') && Reach(s') && s'[CENTER].pc == Wake(i) && s'[CENTER].round == 0
      invariant AboutToLook(s'[Tile(0, 1)])
      invariant s'[Tile(8, 0)].pc == WaitLrAq && s'[Tile(8, 0)].round == 1 && (i == 9 ==> !s'[Tile(8, 0)].reserved)
    {
      s' := CenterResumesOnce(s', i);
    }
  }

  lemma SleepsAgain(s: State, h: PodTile) returns (s': State)
    requires Valid(s) && Reach(s) && s[h].pc == WaitLr && s[h].notify != s[h].sense
    ensures Valid(s') && Reach(s') && s'[h].pc == WaitLrAq && s'[h].round == s[h].round
    ensures forall u: PodTile :: u != h ==> s'[u] == s[u]
  {
    Go(s, h);
    s' := Step(s, h);
  }

  lemma WokenReturns(s: State, h: PodTile) returns (s': State)
    requires Valid(s) && Reach(s) && h.x == 8 && s[h].pc == WaitLrAq && !s[h].reserved
    ensures Valid(s') && Reach(s') && s'[h].round == s[h].round + 1
    ensures forall u: PodTile :: u != h ==> s'[u] == s[u]
  {
    Go(s, h);
    var s1 := Step(s, h);
    assert s1[h] == s[h].(pc := Buddy);
    s' := BuddyThenFlip(s1, h);
  }

  /** With a stray wake-up the barrier can release a tile early: in some run tile (8,0) has
      returned from its second barrier while tile (0,1) and the center are still in their
      first. */
  lemma EarlyReleaseHappens() returns (sched: seq<PodTile>)
    ensures var s := Exec(Init(), sched);
      && s[Tile(8, 0)].round == 2
      && Entered(s, Tile(0, 1)) == 1
      && Entered(s, CENTER) == 1
  {
    var s0 := RowZeroEntersAgain();
    var s1 := SleepsAgain(s0, Tile(8, 0));
    var s2 := CenterResumes(s1);
    var s := WokenReturns(s2, Tile(8, 0));
    assert s[CENTER] == s2[CENTER] && s[Tile(0, 1)] == s2[Tile(0, 1)];
    sched :| Exec(Init(), sched) == s;
  }
}
