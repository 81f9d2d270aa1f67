/** Every clean run of the pod barrier gets somewhere: each entry of a tile costs a bounded number of
    steps that are not waiting, and a run that has come to rest has brought every tile out of every
    barrier that all tiles have entered. */
module PodProgress {
  import opened Totals
  import opened PodBarrier

  predicate AllAre(flags: seq<bool>, v: bool) {
    forall i :: 0 <= i < |flags| ==> flags[i] == v
  }

  /** The tile waits: it polls flags that are not complete, or sleeps. */
  predicate Waits(c: Cell) {
    match c.pc
    case Join(_, _) => !AllAre(c.row, c.sense)
    case JoinCol(_, _) => !AllAre(c.col, c.sense)
    case WaitLrAq => c.reserved
    case _ => false
  }

  /** How many steps of the run are not waiting. */
  ghost function Worked(sched: seq<PodTile>): nat {
    if sched == [] then 0
    else
      var most, t := sched[..|sched| - 1], sched[|sched| - 1];
      Worked(most) + if Waits(Exec(Init(), most)[t]) then 0 else 1
  }

  /** Steps left in the barrier; one that polls has all its polling to do until the flags are complete. */
  function Left(c: Cell): int {
    match c.pc
    case Out => 29
    case Join(_, _) => if AllAre(c.row, c.sense) then 22 + Polls(c.pc) else 28
    case Relay => 22
    case JoinCol(_, _) => if AllAre(c.col, c.sense) then 17 + Polls(c.pc) else 21
    case Wake(i) => 17 - i
    case WaitLr => 7
    case WaitLrAq => 6
    case Fan(i) => 5 - i
    case Buddy => 2
    case Flip => 1
  }

  function Done(c: Cell): int {
    29 * (c.round + 1) - Left(c)
  }

  lemma FullWord(flags: seq<bool>, k: nat, v: bool)
    requires AllAre(flags, v) && 4 * k + 4 <= |flags|
    ensures WordIs(flags, k, v)
  {
  }

  /** A head at its polling, or the center at its. */
  lemma PollMoves(s: State, t: PodTile)
    requires Valid(s) && (s[t].pc.Join? || s[t].pc.JoinCol?)
    ensures var c, c' := s[t], Step(s, t)[t];
      c' == c.(pc := c'.pc) && Left(c') + (if Waits(c) then 0 else 1) <= Left(c)
  {
    var c := s[t];
    if c.pc.Join? {
      if AllAre(c.row, c.sense) {
        FullWord(c.row, c.pc.k, c.sense);
      }
    } else {
      if AllAre(c.col, c.sense) {
        FullWord(c.col, c.pc.k, c.sense);
      }
    }
  }

  lemma LeftIs(c: Cell)
    requires PcOk(c.pc)
    ensures (c.pc.Join? ==> Left(c) <= 28) && (c.pc.JoinCol? ==> Left(c) <= 21)
    ensures 0 <= Left(c)
  {
  }

  lemma FlagMoves(s: State, t: PodTile)
    requires Valid(s) && (s[t].pc.Out? || s[t].pc.Relay?)
    ensures var c, c' := s[t], Step(s, t)[t];
      c'.round == c.round && Left(c') + 1 <= Left(c)
  {
    var s' := Step(s, t);
    LeftIs(s'[t]);
    assert s'[t].pc == if s[t].pc.Out? then Waiting(t) else AfterRelay(t);
  }

  lemma WaitMoves(s: State, t: PodTile)
    requires Valid(s) && (s[t].pc.WaitLr? || s[t].pc.WaitLrAq? || s[t].pc.Flip?)
    ensures var c, c' := s[t], Step(s, t)[t];
      Done(c') >= Done(c) + if Waits(c) then 0 else 1
  {
  }

  lemma NotifyMoves(s: State, t: PodTile)
    requires Valid(s) && (s[t].pc.Wake? || s[t].pc.Fan? || s[t].pc.Buddy?)
    ensures var c, c' := s[t], Step(s, t)[t];
      c'.round == c.round && Left(c') + 1 <= Left(c)
  {
    var s' := Step(s, t);
    match s[t].pc
    case Wake(i) => assert s'[t].pc == if i == 15 then Flip else Wake(i + 1);
    case Fan(i) => assert s'[t].pc == if i == 2 then Buddy else Fan(i + 1);
    case Buddy => assert s'[t].pc == Flip;
  }

  lemma OwnMoves(s: State, t: PodTile)
    requires Valid(s)
    ensures Done(Step(s, t)[t]) >= Done(s[t]) + if Waits(s[t]) then 0 else 1
  {
    match s[t].pc
    case Join(_, _) => PollMoves(s, t);
    case JoinCol(_, _) => PollMoves(s, t);
    case Out => FlagMoves(s, t);
    case Relay => FlagMoves(s, t);
    case Wake(_) => NotifyMoves(s, t);
    case Fan(_) => NotifyMoves(s, t);
    case Buddy => NotifyMoves(s, t);
    case _ => WaitMoves(s, t);
  }

  // ---- the other tiles ----

  /** A tile that has yet to arrive has its byte down, so the head's flags are not complete. */
  lemma ArrivalIsAwaited(s: State, t: PodTile, h: PodTile)
    requires Inv(s) && s[t].pc.Out? && h == Tile(8, t.y) && s[h].pc.Join?
    ensures !AllAre(s[h].row, s[h].sense)
  {
    assert TileOk(s, t) && TileOk(s, h);
    assert RowFlag(s, t) == s[h].row[Offset(t.x)];
  }

  /** And so for the head of a row and the center. */
  lemma RelayIsAwaited(s: State, t: PodTile)
    requires Inv(s) && s[t].pc.Relay? && s[CENTER].pc.JoinCol?
    ensures !AllAre(s[CENTER].col, s[CENTER].sense)
  {
    assert TileOk(s, t) && TileOk(s, CENTER);
  }

  lemma FlagKeepsOthers(s: State, t: PodTile, u: PodTile)
    requires Inv(s) && u != t && (s[t].pc.Out? || s[t].pc.Relay?)
    ensures Left(Step(s, t)[u]) <= Left(s[u]) && Step(s, t)[u].round == s[u].round
  {
    var c, c' := s[u], Step(s, t)[u];
    LeftIs(c);
    LeftIs(c');
    if s[t].pc.Out? {
      assert c' == c.(row := c'.row);
      if u == Tile(8, t.y) && c.pc.Join? {
        ArrivalIsAwaited(s, t, u);
      } else {
        assert u != Tile(8, t.y) ==> c' == c;
      }
    } else {
      assert c' == c.(col := c'.col);
      if u == CENTER && c.pc.JoinCol? {
        RelayIsAwaited(s, t);
      } else {
        assert u != CENTER ==> c' == c;
      }
    }
  }

  lemma OtherStepsKeepOthers(s: State, t: PodTile, u: PodTile)
    requires Valid(s) && u != t && !s[t].pc.Out? && !s[t].pc.Relay?
    ensures Left(Step(s, t)[u]) <= Left(s[u]) && Step(s, t)[u].round == s[u].round
  {
    var c, c' := s[u], Step(s, t)[u];
    assert c' == c.(notify := c'.notify, reserved := c'.reserved);
  }

  // ---- all tiles together ----

  function DoneInRow(s: State, y: nat): seq<int>
    requires Valid(s) && y < 8
  {
    seq(16, x requires 0 <= x < 16 => (var t: PodTile := Tile(x, y); Done(s[t])))
  }

  function DoneInAll(s: State): seq<int>
    requires Valid(s)
  {
    seq(8, y requires 0 <= y < 8 => Total(DoneInRow(s, y)))
  }

  function EnteredInRow(s: State, y: nat): seq<int>
    requires Valid(s) && y < 8
  {
    seq(16, x requires 0 <= x < 16 => (var t: PodTile := Tile(x, y); Entered(s, t)))
  }

  /** How many entries into the barrier there have been, of all tiles together. */
  function Entries(s: State): int
    requires Valid(s)
  {
    Total(seq(8, y requires 0 <= y < 8 => Total(EnteredInRow(s, y))))
  }

  lemma TileGains(s: State, t: PodTile, u: PodTile)
    requires Inv(s)
    ensures Done(Step(s, t)[u]) >= Done(s[u]) + if u == t && !Waits(s[t]) then 1 else 0
  {
    if u == t {
      OwnMoves(s, t);
    } else if s[t].pc.Out? || s[t].pc.Relay? {
      FlagKeepsOthers(s, t, u);
    } else {
      OtherStepsKeepOthers(s, t, u);
    }
  }

  lemma RowGains(s: State, t: PodTile, y: nat)
    requires Inv(s) && y < 8
    ensures Total(DoneInRow(Step(s, t), y)) >= Total(DoneInRow(s, y)) + if y == t.y && !Waits(s[t]) then 1 else 0
  {
    var a, b := DoneInRow(s, y), DoneInRow(Step(s, t), y);
    forall x | 0 <= x < 16 ensures a[x] <= b[x] && (Tile(x, y) == t && !Waits(s[t]) ==> a[x] + 1 <= b[x]) {
      TileGains(s, t, Tile(x, y));
    }
    if y == t.y && !Waits(s[t]) {
      TotalGrowsAt(a, b, t.x, 1);
    } else {
      TotalGrows(a, b);
    }
  }

  lemma StepGains(s: State, t: PodTile)
    requires Inv(s)
    ensures Total(DoneInAll(Step(s, t))) >= Total(DoneInAll(s)) + if Waits(s[t]) then 0 else 1
  {
    var a, b := DoneInAll(s), DoneInAll(Step(s, t));
    forall y | 0 <= y < 8 ensures a[y] + (if y == t.y && !Waits(s[t]) then 1 else 0) <= b[y] {
      RowGains(s, t, y);
    }
    if !Waits(s[t]) {
      TotalGrowsAt(a, b, t.y, 1);
    } else {
      TotalGrows(a, b);
    }
  }

  lemma StartTotal()
    ensures Total(DoneInAll(Init())) >= 0
  {
    forall y | 0 <= y < 8 ensures DoneInAll(Init())[y] >= 0 {
      TotalNotNegative(DoneInRow(Init(), y));
    }
    TotalNotNegative(DoneInAll(Init()));
  }

  lemma {:induction false} WorkedIsDone(sched: seq<PodTile>)
    requires Clean(sched)
    ensures Worked(sched) <= Total(DoneInAll(Exec(Init(), sched)))
    decreases |sched|
  {
    if sched == [] {
      StartTotal();
    } else {
      var most := sched[..|sched| - 1];
      WorkedIsDone(most);
      CleanKeepsInv(most);
      StepGains(Exec(Init(), most), sched[|sched| - 1]);
    }
  }

  lemma DoneByEntries(s: State)
    requires Valid(s)
    ensures Total(DoneInAll(s)) <= 29 * Entries(s)
  {
    var e := seq(8, y requires 0 <= y < 8 => Total(EnteredInRow(s, y)));
    forall y | 0 <= y < 8 ensures DoneInAll(s)[y] <= 29 * e[y] {
      forall x | 0 <= x < 16 ensures DoneInRow(s, y)[x] <= 29 * EnteredInRow(s, y)[x] {
        var t: PodTile := Tile(x, y);
        LeftIs(s[t]);
      }
      TotalAtMost(DoneInRow(s, y), EnteredInRow(s, y), 29);
    }
    TotalAtMost(DoneInAll(s), e, 29);
  }

  // ---- a run that has come to rest ----

  predicate Rests(c: Cell) {
    c.pc.Out? || Waits(c)
  }

  /** No tile inside does anything but wait. */
  ghost predicate AtRest(s: State)
    requires Valid(s)
  {
    forall t: PodTile :: Rests(s[t])
  }

  lemma RestIsRound(c: Cell)
    requires Rests(c)
    ensures PassedBy(c) == c.round && forall k: nat :: Made(c, k) == c.round
  {
  }

  /** At rest, a tile behind the center still waits for its waker, which is behind it too. */
  lemma RestingWakerIsBehind(s: State, t: PodTile)
    requires Inv(s) && AtRest(s) && s[t].round < s[CENTER].round
    ensures WakerOf(t) != CENTER && s[WakerOf(t)].round < s[CENTER].round
  {
    var w := WakerOf(t);
    assert TileOk(s, t);
    RestIsRound(s[t]);
    RestIsRound(s[w]);
    RestIsRound(s[CENTER]);
    assert Rests(s[t]);
  }

  lemma {:induction false} NoneRestsBehind(s: State, t: PodTile)
    requires Inv(s) && AtRest(s)
    ensures s[t].round == s[CENTER].round
    decreases Hops(t)
  {
    assert TileOk(s, t);
    RestIsRound(s[t]);
    RestIsRound(s[CENTER]);
    if s[t].round < s[CENTER].round {
      RestingWakerIsBehind(s, t);
      WakerIsNearer(t);
      NoneRestsBehind(s, WakerOf(t));
    }
  }

  /** At rest and with all tiles inside, no head polls .. */
  lemma RowsAreSeen(s: State, h: PodTile)
    requires Inv(s) && AtRest(s) && forall u: PodTile :: !s[u].pc.Out?
    ensures !s[h].pc.Join?
  {
    var c := s[h];
    assert TileOk(s, h) && Rests(c);
    if c.pc.Join? {
      forall o | 0 <= o < 16 ensures c.row[o] == c.sense {
        var u: PodTile := Tile(4 * (o % 4) + o / 4, h.y);
        OffsetIs(u.x, o % 4, o / 4);
        assert TileOk(s, u);
        NoneRestsBehind(s, u);
        NoneRestsBehind(s, h);
        assert c.row[o] == RowFlag(s, u);
      }
      assert false;
    }
  }

  /** .. and neither does the center. */
  lemma ColumnIsSeen(s: State)
    requires Inv(s) && AtRest(s) && forall u: PodTile :: !s[u].pc.Out?
    ensures !s[CENTER].pc.JoinCol?
  {
    var c := s[CENTER];
    assert TileOk(s, CENTER) && Rests(c);
    if c.pc.JoinCol? {
      forall y | 0 <= y < 8 ensures c.col[y] == c.sense {
        var h: PodTile := Tile(8, y);
        assert TileOk(s, h);
        NoneRestsBehind(s, h);
        RowsAreSeen(s, h);
        assert Rests(s[h]);
      }
      assert false;
    }
  }

  lemma RestedIsBack(s: State, n: nat, t: PodTile)
    requires Inv(s) && AtRest(s) && forall u: PodTile :: Entered(s, u) >= n
    ensures s[t].round >= n
  {
    NoneRestsBehind(s, t);
    if s[t].round < n {
      forall u: PodTile ensures !s[u].pc.Out? {
        NoneRestsBehind(s, u);
        assert Entered(s, u) >= n;
      }
      assert TileOk(s, CENTER) && Rests(s[CENTER]);
      RowsAreSeen(s, CENTER);
      ColumnIsSeen(s);
      assert false;
    }
  }

  /** In every run without a stray wake-up each entry costs at most 29 steps that are not waiting; and
      when only waiting is left, every tile has returned from each of the first n barriers as soon as
      all tiles have entered those. */
  lemma EveryTileReturns(sched: seq<PodTile>, n: nat, t: PodTile)
    requires Clean(sched)
    ensures var s := Exec(Init(), sched);
      && Worked(sched) <= 29 * Entries(s)
      && (AtRest(s) && (forall u: PodTile :: Entered(s, u) >= n) ==> s[t].round >= n)
  {
    var s := Exec(Init(), sched);
    CleanKeepsInv(sched);
    WorkedIsDone(sched);
    DoneByEntries(s);
    if AtRest(s) && forall u: PodTile :: Entered(s, u) >= n {
      RestedIsBack(s, n, t);
    }
  }
}
