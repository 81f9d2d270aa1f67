/** Every run of the row/column barrier gets somewhere: each entry of a tile costs a bounded number
    of steps that are not waiting, and a run that has come to rest has brought every tile out of
    every barrier that all tiles have entered. */
module RowColProgress {
  import opened Common
  import opened Totals
  import opened RowColBarrier

  predicate AllSet(flags: seq<bool>) {
    forall i :: 0 <= i < |flags| ==> flags[i]
  }

  /** The tile waits: it polls a list that is not yet complete, or sleeps. */
  predicate Waits(c: Cell) {
    match c.pc
    case PollRow(_) => !AllSet(c.rowDone)
    case PollCol(_) => !AllSet(c.colDone)
    case WaitColAq => c.colRes
    case WaitRowAq => c.rowRes
    case _ => false
  }

  /** The step is an instruction other than waiting, or a delivery. */
  predicate Working(g: Group, s: State, a: Act)
    requires Valid(g, s)
  {
    match a
    case Run(t) => InGroup(g, t) && !Waits(s.cell[t])
    case Deliver(m) => m in s.net
  }

  /** How many steps of the run are working steps. */
  function Worked(g: Group, sched: seq<Act>): nat
    requires GroupOk(g)
  {
    if sched == [] then 0
    else
      var most, a := sched[..|sched| - 1], sched[|sched| - 1];
      Worked(g, most) + if Working(g, Exec(g, Init(g), most), a) then 1 else 0
  }

  // ---- how far a tile has come ----

  /** Steps still to go in a barrier, from the row alert on; after the column alert; in all. A store
      sent counts three steps: one to deliver it, two for the wait it may end. */
  function LeftOfRow(g: Group, c: Cell): int {
    match c.pc
    case ClearRow => 1
    case WaitRowAq => if c.rowRes then 3 else 5
    case WaitRow => 4
    case AlertRow(i) => 6 + 4 * (g.X - i)
    case ResetRowAlert => 4 * g.X + 7
    case ResetRow(i) => 5 * g.X + 8 - i
    case ClearCol => if g.cpp then 5 * g.X + 9 else 4 * g.X + 7
    case _ => 0
  }

  function LeftOfColumn(g: Group, c: Cell): int {
    match c.pc
    case WaitColAq => if c.colRes then 5 * g.X + 10 else 5 * g.X + 12
    case WaitCol => 5 * g.X + 11
    case AlertCol(i) => 5 * g.X + 13 + 4 * (g.Y - i)
    case ResetColAlert => 5 * g.X + 4 * g.Y + 14
    case ResetCol(i) => 5 * g.X + 5 * g.Y + 15 - i
    case _ => LeftOfRow(g, c)
  }

  function Left(g: Group, c: Cell): int {
    match c.pc
    case Out => EntryCost(g)
    case PollRow(i) => 6 * g.X + 6 * g.Y + 22 - if AllSet(c.rowDone) then i + 1 else 0
    case SendCol => 5 * g.X + 6 * g.Y + 21
    case PollCol(i) => 5 * g.X + 6 * g.Y + 17 - if AllSet(c.colDone) then i + 1 else 0
    case _ => LeftOfColumn(g, c)
  }

  /** At most this many working steps for each entry into the barrier. */
  function EntryCost(g: Group): nat {
    6 * g.X + 6 * g.Y + 26
  }

  function Made(g: Group, c: Cell): int {
    EntryCost(g) * (c.round + 1) - Left(g, c)
  }

  lemma NextRound(k: int, r: int)
    ensures k * (r + 2) == k * (r + 1) + k
  {
  }

  lemma GatherMakes(g: Group, t: Tile, c: Cell)
    requires GroupOk(g) && InGroup(g, t) && CellOk(g, t, c) && Gathering(c.pc) && !AtOnce(g, c)
    requires c.pc.PollRow? ==> forall x :: 0 <= x < c.pc.i ==> c.rowDone[x]
    requires c.pc.PollCol? ==> forall y :: 0 <= y < c.pc.i ==> c.colDone[y]
    ensures var (c', out) := Gather(g, t, c);
      && c'.round == c.round
      && Left(g, c') + (if out.Some? then 3 else 0) + (if Waits(c) then 0 else 1) <= Left(g, c)
  {
  }

  lemma ColumnMakes(g: Group, t: Tile, c: Cell)
    requires GroupOk(g) && InGroup(g, t) && CellOk(g, t, c) && InColumn(c.pc)
    ensures var (c', out) := Column(g, t, c);
      && c'.round == c.round
      && Left(g, c') + (if out.Some? then 3 else 0) + (if Waits(c) then 0 else 1) <= Left(g, c)
  {
  }

  lemma WaitsMake(g: Group, t: Tile, c: Cell)
    requires GroupOk(g) && CellOk(g, t, c) && (c.pc.WaitRow? || c.pc.WaitRowAq? || c.pc.ClearRow?)
    ensures var c' := WaitOnRow(g, t, c);
      && c'.round == (if c.pc.ClearRow? then c.round + 1 else c.round)
      && Left(g, c') + (if Waits(c) then 0 else 1) <= Left(g, c) + (if c.pc.ClearRow? then EntryCost(g) else 0)
  {
  }

  lemma RowMakes(g: Group, t: Tile, c: Cell)
    requires GroupOk(g) && InGroup(g, t) && CellOk(g, t, c) && !Gathering(c.pc) && !InColumn(c.pc)
    requires !c.pc.WaitRow? && !c.pc.WaitRowAq? && !c.pc.ClearRow?
    ensures var (c', out) := Row(g, t, c);
      && c'.round == c.round
      && Left(g, c') + (if out.Some? then 3 else 0) + 1 <= Left(g, c)
  {
  }

  /** What a tile has seen of a list while polling it stays set. */
  predicate PolledSet(c: Cell) {
    && (c.pc.PollRow? ==> forall x :: 0 <= x < c.pc.i && x < |c.rowDone| ==> c.rowDone[x])
    && (c.pc.PollCol? ==> forall y :: 0 <= y < c.pc.i && y < |c.colDone| ==> c.colDone[y])
  }

  lemma PolledIsSet(g: Group, s: State, t: Tile)
    requires Inv(g, s) && InGroup(g, t)
    ensures PolledSet(s.cell[t])
  {
    var c := s.cell[t];
    if c.pc.PollRow? {
      forall x | 0 <= x < c.pc.i ensures c.rowDone[x] {
        assert RowInv(g, s, Tile(x, t.y));
      }
    }
    if c.pc.PollCol? {
      forall y | 0 <= y < c.pc.i ensures c.colDone[y] {
        assert ColInv(g, s, y);
      }
    }
  }

  lemma LocalMakes(g: Group, t: Tile, c: Cell)
    requires GroupOk(g) && InGroup(g, t) && CellOk(g, t, c) && PolledSet(c)
    ensures var (c', out) := Local(g, t, c);
      Made(g, c') >= Made(g, c) + (if out.Some? then 3 else 0) + (if Waits(c) then 0 else 1)
  {
    NextRound(EntryCost(g), c.round);
    if AtOnce(g, c) {
    } else if Gathering(c.pc) {
      GatherMakes(g, t, c);
    } else if InColumn(c.pc) {
      ColumnMakes(g, t, c);
    } else if c.pc.WaitRow? || c.pc.WaitRowAq? || c.pc.ClearRow? {
      WaitsMake(g, t, c);
    } else {
      RowMakes(g, t, c);
    }
  }

  /** A delivery ends a wait at most. */
  lemma FlagMakes(g: Group, m: Msg, c: Cell)
    requires GroupOk(g) && MsgOk(g, m) && CellOk(g, Target(g, m), c) && (m.RowDone? || m.ColDone?)
    ensures Left(g, Receive(g, m, c)) <= Left(g, c) && Receive(g, m, c).round == c.round
  {
  }

  lemma AlertMakes(g: Group, m: Msg, c: Cell)
    requires GroupOk(g) && MsgOk(g, m) && CellOk(g, Target(g, m), c) && (m.RowAlert? || m.ColAlert?)
    ensures Left(g, Receive(g, m, c)) <= Left(g, c) + 2 && Receive(g, m, c).round == c.round
  {
  }

  lemma ReceiveMakes(g: Group, m: Msg, c: Cell)
    requires GroupOk(g) && MsgOk(g, m) && CellOk(g, Target(g, m), c)
    ensures Made(g, Receive(g, m, c)) >= Made(g, c) - 2
  {
    if m.RowDone? || m.ColDone? {
      FlagMakes(g, m, c);
    } else {
      AlertMakes(g, m, c);
    }
  }

  // ---- all tiles together ----

  function MadeInRow(g: Group, s: State, y: nat): seq<int>
    requires Valid(g, s) && y < g.Y
  {
    seq(g.X, x requires 0 <= x < g.X => Made(g, s.cell[Tile(x, y)]))
  }

  function MadeInAll(g: Group, s: State): seq<int>
    requires Valid(g, s)
  {
    seq(g.Y, y requires 0 <= y < g.Y => Total(MadeInRow(g, s, y)))
  }

  function EnteredInRow(g: Group, s: State, y: nat): seq<int>
    requires Valid(g, s) && y < g.Y
  {
    seq(g.X, x requires 0 <= x < g.X => Entered(s.cell[Tile(x, y)]))
  }

  /** How many entries into the barrier there have been, of all tiles together. */
  function Entries(g: Group, s: State): int
    requires Valid(g, s)
  {
    Total(seq(g.Y, y requires 0 <= y < g.Y => Total(EnteredInRow(g, s, y))))
  }

  /** One cell changes. */
  lemma MadeChanges(g: Group, s: State, s': State, t: Tile)
    requires Valid(g, s) && Valid(g, s') && InGroup(g, t)
    requires forall u :: InGroup(g, u) && u != t ==> s'.cell[u] == s.cell[u]
    ensures Total(MadeInAll(g, s')) == Total(MadeInAll(g, s)) - Made(g, s.cell[t]) + Made(g, s'.cell[t])
  {
    TotalChanges(MadeInRow(g, s, t.y), MadeInRow(g, s', t.y), t.x);
    forall y | 0 <= y < g.Y && y != t.y ensures MadeInRow(g, s', y) == MadeInRow(g, s, y) {
    }
    TotalChanges(MadeInAll(g, s), MadeInAll(g, s'), t.y);
  }

  lemma RunMakes(g: Group, s: State, t: Tile)
    requires Inv(g, s) && InGroup(g, t)
    ensures var s' := Step(g, s, Run(t));
      Total(MadeInAll(g, s')) - 3 * |s'.net|
        >= Total(MadeInAll(g, s)) - 3 * |s.net| + (if Waits(s.cell[t]) then 0 else 1)
  {
    PolledIsSet(g, s, t);
    LocalMakes(g, t, s.cell[t]);
    MadeChanges(g, s, Step(g, s, Run(t)), t);
  }

  lemma DeliverMakes(g: Group, s: State, m: Msg)
    requires Valid(g, s) && m in s.net
    ensures var s' := Step(g, s, Deliver(m));
      Total(MadeInAll(g, s')) - 3 * |s'.net| >= Total(MadeInAll(g, s)) - 3 * |s.net| + 1
  {
    ReceiveMakes(g, m, s.cell[Target(g, m)]);
    MadeChanges(g, s, Step(g, s, Deliver(m)), Target(g, m));
  }

  lemma StepMakes(g: Group, s: State, a: Act)
    requires Inv(g, s)
    ensures var s' := Step(g, s, a);
      Total(MadeInAll(g, s')) - 3 * |s'.net|
        >= Total(MadeInAll(g, s)) - 3 * |s.net| + (if Working(g, s, a) then 1 else 0)
  {
    match a
    case Run(t) => if InGroup(g, t) { RunMakes(g, s, t); }
    case Deliver(m) => if m in s.net { DeliverMakes(g, s, m); }
  }

  lemma {:induction false} WorkedIsMade(g: Group, sched: seq<Act>)
    requires GroupOk(g)
    ensures var s := Exec(g, Init(g), sched);
      Worked(g, sched) <= Total(MadeInAll(g, s)) - 3 * |s.net|
    decreases |sched|
  {
    if sched == [] {
      forall y | 0 <= y < g.Y ensures Total(MadeInRow(g, Init(g), y)) == 0 {
        AllZero(MadeInRow(g, Init(g), y));
      }
      AllZero(MadeInAll(g, Init(g)));
    } else {
      var most := sched[..|sched| - 1];
      WorkedIsMade(g, most);
      ExecKeepsInv(g, most);
      StepMakes(g, Exec(g, Init(g), most), sched[|sched| - 1]);
    }
  }

  lemma {:induction false} AllZero(w: seq<int>)
    requires forall i :: 0 <= i < |w| ==> w[i] == 0
    ensures Total(w) == 0
  {
    if w != [] {
      AllZero(w[..|w| - 1]);
    }
  }

  lemma LeftIsPositive(g: Group, t: Tile, c: Cell)
    requires GroupOk(g) && CellOk(g, t, c)
    ensures 0 <= Left(g, c)
    ensures c.pc.Out? ==> Left(g, c) == EntryCost(g)
  {
  }

  lemma MadeByEntries(g: Group, t: Tile, c: Cell)
    requires GroupOk(g) && CellOk(g, t, c)
    ensures Made(g, c) <= EntryCost(g) * Entered(c)
  {
    LeftIsPositive(g, t, c);
    OneMore(c.round, EntryCost(g));
  }

  lemma AllMadeByEntries(g: Group, s: State)
    requires Valid(g, s)
    ensures Total(MadeInAll(g, s)) <= EntryCost(g) * Entries(g, s)
  {
    var e := seq(g.Y, y requires 0 <= y < g.Y => Total(EnteredInRow(g, s, y)));
    forall y | 0 <= y < g.Y ensures MadeInAll(g, s)[y] <= EntryCost(g) * e[y] {
      forall x | 0 <= x < g.X ensures MadeInRow(g, s, y)[x] <= EntryCost(g) * EnteredInRow(g, s, y)[x] {
        MadeByEntries(g, Tile(x, y), s.cell[Tile(x, y)]);
      }
      TotalAtMost(MadeInRow(g, s, y), EnteredInRow(g, s, y), EntryCost(g));
    }
    TotalAtMost(MadeInAll(g, s), e, EntryCost(g));
  }

  // ---- a run that has come to rest ----

  /** No store is in flight and no tile inside does anything but wait. */
  ghost predicate AtRest(g: Group, s: State)
    requires Valid(g, s)
  {
    s.net == multiset{} && forall t :: InGroup(g, t) ==> s.cell[t].pc.Out? || Waits(s.cell[t])
  }

  /** At rest, every head is out of each barrier that the center has seen complete. */
  lemma HeadsFollowCenter(g: Group, s: State, h: Tile)
    requires Inv(g, s) && AtRest(g, s) && InGroup(g, h) && h.x == g.cx
    ensures s.cell[h].round >= ColSeen(s.cell[Center(g)])
  {
    assert ColInv(g, s, h.y) && ColInv(g, s, g.cy) && RowInv(g, s, h);
    assert s.cell[Center(g)].pc.Out? || Waits(s.cell[Center(g)]);
    assert s.cell[h].pc.Out? || Waits(s.cell[h]);
  }

  /** So is every other tile. */
  lemma TilesFollowCenter(g: Group, s: State, t: Tile)
    requires Inv(g, s) && AtRest(g, s) && InGroup(g, t)
    ensures s.cell[t].round >= ColSeen(s.cell[Center(g)])
  {
    var h := Head(g, t.y);
    HeadsFollowCenter(g, s, h);
    assert RowInv(g, s, t) && ColInv(g, s, t.y);
    assert s.cell[t].pc.Out? || Waits(s.cell[t]);
    assert s.cell[h].pc.Out? || Waits(s.cell[h]);
  }

  /** At rest, a head whose row has entered does not poll for it. */
  lemma RowIsSeen(g: Group, s: State, h: Tile)
    requires Inv(g, s) && AtRest(g, s) && InGroup(g, h) && h.x == g.cx
    requires forall t :: InGroup(g, t) ==> Entered(s.cell[t]) > s.cell[h].round
    ensures !s.cell[h].pc.PollRow?
  {
    var c := s.cell[h];
    if c.pc.PollRow? {
      forall x | 0 <= x < |c.rowDone| ensures c.rowDone[x] {
        assert RowInv(g, s, Tile(x, h.y));
      }
      assert AllSet(c.rowDone) && Waits(c);
      assert false;
    }
  }

  /** At rest, the center does not poll for a column whose rows have all entered. */
  lemma ColumnIsSeen(g: Group, s: State)
    requires Inv(g, s) && AtRest(g, s)
    requires forall t :: InGroup(g, t) ==> Entered(s.cell[t]) > s.cell[Center(g)].round
    requires forall t :: InGroup(g, t) ==> s.cell[t].round == s.cell[Center(g)].round
    ensures !s.cell[Center(g)].pc.PollCol?
  {
    var c := s.cell[Center(g)];
    if c.pc.PollCol? {
      forall y | 0 <= y < |c.colDone| ensures c.colDone[y] {
        var h := Head(g, y);
        RowIsSeen(g, s, h);
        assert ColInv(g, s, y);
        assert s.cell[h].pc.Out? || Waits(s.cell[h]);
      }
      assert AllSet(c.colDone) && Waits(c);
      assert false;
    }
  }

  lemma RestedIsBack(g: Group, s: State, n: nat, t: Tile)
    requires Inv(g, s) && AtRest(g, s) && InGroup(g, t)
    requires forall u :: InGroup(g, u) ==> Entered(s.cell[u]) >= n
    ensures s.cell[t].round >= n
  {
    var k := Center(g);
    TilesFollowCenter(g, s, t);
    if ColSeen(s.cell[k]) < n {
      forall u | InGroup(g, u) ensures s.cell[u].round == ColSeen(s.cell[k]) {
        TilesFollowCenter(g, s, u);
        ReleasedAfterCenter(g, s, u);
      }
      RowIsSeen(g, s, k);
      ColumnIsSeen(g, s);
      assert false;
    }
  }

  /** In every run each entry costs at most EntryCost(g) working steps, whatever is in flight and
      however much is polled in vain; and when only waiting is left, every tile has returned from
      each of the first n barriers as soon as all tiles have entered those. */
  lemma EveryTileReturns(g: Group, sched: seq<Act>, n: nat, t: Tile)
    requires GroupOk(g) && InGroup(g, t)
    ensures var s := Exec(g, Init(g), sched);
      && Worked(g, sched) <= EntryCost(g) * Entries(g, s)
      && (AtRest(g, s) && (forall u :: InGroup(g, u) ==> Entered(s.cell[u]) >= n) ==> s.cell[t].round >= n)
  {
    var s := Exec(g, Init(g), sched);
    ExecKeepsInv(g, sched);
    WorkedIsMade(g, sched);
    AllMadeByEntries(g, s);
    if AtRest(g, s) && forall u :: InGroup(g, u) ==> Entered(s.cell[u]) >= n {
      RestedIsBack(g, s, n, t);
    }
  }

  lemma ColumnEnters(g: Group, t: Tile, c: Cell)
    requires GroupOk(g) && InGroup(g, t) && CellOk(g, t, c) && InColumn(c.pc)
    ensures Entered(Column(g, t, c).0) == Entered(c)
  {
  }

  lemma LocalEnters(g: Group, t: Tile, c: Cell)
    requires GroupOk(g) && InGroup(g, t) && CellOk(g, t, c) && !c.pc.Out?
    ensures Entered(Local(g, t, c).0) == Entered(c)
  {
    if InColumn(c.pc) {
      ColumnEnters(g, t, c);
    }
  }

  lemma StepEnters(g: Group, s: State, a: Act, u: Tile)
    requires Valid(g, s) && InGroup(g, u)
    requires a.Run? && InGroup(g, a.t) ==> !s.cell[a.t].pc.Out?
    ensures Entered(Step(g, s, a).cell[u]) == Entered(s.cell[u])
  {
    if a.Run? && InGroup(g, a.t) {
      LocalEnters(g, a.t, s.cell[a.t]);
    }
  }

  lemma EntriesSame(g: Group, s: State, s': State)
    requires Valid(g, s) && Valid(g, s')
    requires forall u :: InGroup(g, u) ==> Entered(s'.cell[u]) == Entered(s.cell[u])
    ensures Entries(g, s') == Entries(g, s)
  {
    forall y | 0 <= y < g.Y ensures EnteredInRow(g, s', y) == EnteredInRow(g, s, y) {
    }
    assert seq(g.Y, y requires 0 <= y < g.Y => Total(EnteredInRow(g, s, y)))
        == seq(g.Y, y requires 0 <= y < g.Y => Total(EnteredInRow(g, s', y)));
  }

  lemma NextWork(g: Group, s: State) returns (a: Act)
    requires Valid(g, s) && !AtRest(g, s)
    ensures Working(g, s, a) && (a.Run? ==> !s.cell[a.t].pc.Out?)
  {
    if s.net == multiset{} {
      var t :| InGroup(g, t) && !s.cell[t].pc.Out? && !Waits(s.cell[t]);
      a := Run(t);
    } else {
      var m :| m in s.net;
      a := Deliver(m);
    }
  }

  /** Working steps that the entries so far still allow. */
  function Budget(g: Group, s: State): int
    requires Valid(g, s)
  {
    EntryCost(g) * Entries(g, s) - Total(MadeInAll(g, s)) + 3 * |s.net|
  }

  ghost predicate SameEntries(g: Group, s: State, s': State)
    requires Valid(g, s) && Valid(g, s')
  {
    forall u :: InGroup(g, u) ==> Entered(s'.cell[u]) == Entered(s.cell[u])
  }

  /** One more working step, which is no entry. */
  lemma Continue(g: Group, s: State, a: Act)
    requires Inv(g, s) && Working(g, s, a) && (a.Run? ==> !s.cell[a.t].pc.Out?)
    ensures SameEntries(g, s, Step(g, s, a))
    ensures 0 <= Budget(g, Step(g, s, a)) < Budget(g, s)
  {
    forall u | InGroup(g, u) ensures Entered(Step(g, s, a).cell[u]) == Entered(s.cell[u]) {
      StepEnters(g, s, a, u);
    }
    EntriesSame(g, s, Step(g, s, a));
    StepMakes(g, s, a);
    AllMadeByEntries(g, Step(g, s, a));
  }

  lemma {:induction false} StepFirst(g: Group, s: State, a: Act, rest: seq<Act>)
    requires Valid(g, s)
    ensures Exec(g, s, [a] + rest) == Exec(g, Step(g, s, a), rest)
  {
    if rest != [] {
      StepFirst(g, s, a, rest[..|rest| - 1]);
      assert ([a] + rest)[..|[a] + rest| - 1] == [a] + rest[..|rest| - 1];
    }
  }

  /** From every state that a run can reach, steps other than entries can bring the barrier to rest. */
  lemma {:induction false} CanComplete(g: Group, s: State) returns (more: seq<Act>)
    requires Inv(g, s)
    ensures AtRest(g, Exec(g, s, more)) && SameEntries(g, s, Exec(g, s, more)) && Inv(g, Exec(g, s, more))
    decreases Budget(g, s)
  {
    if AtRest(g, s) {
      more := [];
    } else {
      var a := NextWork(g, s);
      Continue(g, s, a);
      StepKeepsInv(g, s, a);
      var rest := CanComplete(g, Step(g, s, a));
      more := [a] + rest;
      StepFirst(g, s, a, rest);
    }
  }

  /** Every run can be carried on, without a new entry, until every tile is back from the first n
      barriers, if all tiles have entered those. */
  lemma CanReturn(g: Group, sched: seq<Act>, n: nat) returns (more: seq<Act>)
    requires GroupOk(g)
    requires forall u :: InGroup(g, u) ==> Entered(Exec(g, Init(g), sched).cell[u]) >= n
    ensures var s := Exec(g, Init(g), sched);
      SameEntries(g, s, Exec(g, s, more)) && forall t :: InGroup(g, t) ==> Exec(g, s, more).cell[t].round >= n
  {
    var s := Exec(g, Init(g), sched);
    ExecKeepsInv(g, sched);
    more := CanComplete(g, s);
    forall t | InGroup(g, t) ensures Exec(g, s, more).cell[t].round >= n {
      RestedIsBack(g, Exec(g, s, more), n, t);
    }
  }
}
