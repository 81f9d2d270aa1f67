/** The two-level row/column tile-group barrier (bsg_tile_group_barrier.hpp and .h).

    A remote store is a message in flight; messages are delivered in any order and with any
    delay. Loads, and stores to a tile's own memory, take effect at once. The group has any
    dimensions, and the barrier is reused without bound. `cpp` selects the C++ version, whose
    resets also clear the alert words and which clears the column alert before, not after,
    resetting the row list. */
module RowColBarrier {
  import opened Common

  datatype Group = Group(X: nat, Y: nat, cx: nat, cy: nat, cpp: bool)

  predicate GroupOk(g: Group) {
    g.cx < g.X && g.cy < g.Y
  }

  datatype Tile = Tile(x: nat, y: nat)

  predicate InGroup(g: Group, t: Tile) {
    t.x < g.X && t.y < g.Y
  }

  function Head(g: Group, y: nat): Tile {
    Tile(g.cx, y)
  }

  function Center(g: Group): Tile {
    Tile(g.cx, g.cy)
  }

  /** Remote stores: a flag in a done list set, or an alert word set. */
  datatype Msg =
    | RowDone(x: nat, y: nat)
    | ColDone(y: nat)
    | ColAlert(y: nat)
    | RowAlert(x: nat, y: nat)

  predicate MsgOk(g: Group, m: Msg) {
    match m
    case RowDone(x, y) => x < g.X && y < g.Y
    case ColDone(y) => y < g.Y
    case ColAlert(y) => y < g.Y
    case RowAlert(x, y) => x < g.X && y < g.Y
  }

  datatype Pc =
    | Out
    | PollRow(i: nat)
    | SendCol
    | PollCol(i: nat)
    | ResetCol(i: nat)
    | ResetColAlert
    | AlertCol(i: nat)
    | WaitCol
    | WaitColAq
    | ClearCol
    | ResetRow(i: nat)
    | ResetRowAlert
    | AlertRow(i: nat)
    | WaitRow
    | WaitRowAq
    | ClearRow

  predicate PcOk(g: Group, pc: Pc) {
    match pc
    case PollRow(i) => i < g.X
    case ResetRow(i) => i < g.X
    case AlertRow(i) => i < g.X
    case PollCol(i) => i < g.Y
    case ResetCol(i) => i < g.Y
    case AlertCol(i) => i < g.Y
    case _ => true
  }

  /** Which tiles reach which program points. */
  predicate Shape(g: Group, t: Tile, pc: Pc) {
    && PcOk(g, pc)
    && (pc.Out? || pc.WaitRow? || pc.WaitRowAq? || pc.ClearRow? || t.x == g.cx)
    && (pc.PollCol? || pc.ResetCol? || pc.ResetColAlert? || pc.AlertCol? ==> t == Center(g))
    && (pc.ResetRowAlert? || pc.ResetColAlert? ==> g.cpp)
  }

  /** A tile's own memory and program counter, and how many barriers it has returned from. */
  datatype Cell = Cell(
    pc: Pc,
    round: nat,
    rowDone: seq<bool>,
    rowAlert: bool,
    rowRes: bool,
    colDone: seq<bool>,
    colAlert: bool,
    colRes: bool)

  predicate CellOk(g: Group, t: Tile, c: Cell) {
    |c.rowDone| == g.X && |c.colDone| == g.Y && Shape(g, t, c.pc)
  }

  datatype State = State(cell: map<Tile, Cell>, net: multiset<Msg>)

  ghost predicate Valid(g: Group, s: State) {
    && GroupOk(g)
    && (forall t :: InGroup(g, t) ==> t in s.cell && CellOk(g, t, s.cell[t]))
    && (forall m :: m in s.net ==> MsgOk(g, m))
  }

  function Init(g: Group): (s: State)
    requires GroupOk(g)
    ensures Valid(g, s)
  {
    var c := Cell(Out, 0, seq(g.X, _ => false), false, false, seq(g.Y, _ => false), false, false);
    State(map x: nat, y: nat | x < g.X && y < g.Y :: Tile(x, y) := c, multiset{})
  }

  function AfterColWait(g: Group): Pc {
    if g.cpp then ClearCol else ResetRow(0)
  }

  /** Gathering: the row, then (at the center) the column. */
  predicate Gathering(pc: Pc) {
    pc.Out? || pc.PollRow? || pc.SendCol? || pc.PollCol?
  }

  function Arrive(g: Group, t: Tile, c: Cell): (r: (Cell, Option<Msg>))
    requires GroupOk(g) && InGroup(g, t) && CellOk(g, t, c) && c.pc.Out?
    ensures CellOk(g, t, r.0)
    ensures r.1.Some? ==> MsgOk(g, r.1.value)
  {
    if g.cpp && g.X == 1 && g.Y == 1 then (c.(round := c.round + 1), None)
    else (c.(pc := if t.x == g.cx then PollRow(0) else WaitRow), Some(RowDone(t.x, t.y)))
  }

  function Gather(g: Group, t: Tile, c: Cell): (r: (Cell, Option<Msg>))
    requires GroupOk(g) && InGroup(g, t) && CellOk(g, t, c) && Gathering(c.pc)
    ensures CellOk(g, t, r.0)
    ensures r.1.Some? ==> MsgOk(g, r.1.value)
  {
    match c.pc
    case Out => Arrive(g, t, c)
    case PollRow(i) =>
      (c.(pc := if !c.rowDone[i] then PollRow(0) else if i + 1 < g.X then PollRow(i + 1) else SendCol), None)
    case SendCol =>
      (c.(pc := if t.y == g.cy then PollCol(0) else WaitCol), Some(ColDone(t.y)))
    case PollCol(i) =>
      (c.(pc := if !c.colDone[i] then PollCol(0) else if i + 1 < g.Y then PollCol(i + 1) else ResetCol(0)), None)
  }

  /** The column level: the center resets its list and alerts, the heads wait. */
  predicate InColumn(pc: Pc) {
    pc.ResetCol? || pc.ResetColAlert? || pc.AlertCol? || pc.WaitCol? || pc.WaitColAq?
  }

  function Column(g: Group, t: Tile, c: Cell): (r: (Cell, Option<Msg>))
    requires GroupOk(g) && InGroup(g, t) && CellOk(g, t, c) && InColumn(c.pc)
    ensures CellOk(g, t, r.0)
    ensures r.1.Some? ==> MsgOk(g, r.1.value)
  {
    match c.pc
    case ResetCol(i) =>
      (c.(colDone := c.colDone[i := false],
          pc := if i + 1 < g.Y then ResetCol(i + 1) else if g.cpp then ResetColAlert else AlertCol(0)), None)
    case ResetColAlert => (c.(colAlert := false, colRes := false, pc := AlertCol(0)), None)
    case AlertCol(i) =>
      (c.(pc := if i + 1 < g.Y then AlertCol(i + 1) else WaitCol), Some(ColAlert(i)))
    case WaitCol =>
      (c.(colRes := true, pc := if c.colAlert then AfterColWait(g) else WaitColAq), None)
    case WaitColAq =>
      if c.colRes then (c, None)
      else (c.(pc := if c.colAlert then AfterColWait(g) else WaitCol), None)
  }

  function WaitOnRow(g: Group, t: Tile, c: Cell): (c': Cell)
    requires CellOk(g, t, c) && (c.pc.WaitRow? || c.pc.WaitRowAq? || c.pc.ClearRow?)
    ensures CellOk(g, t, c')
  {
    match c.pc
    case WaitRow => c.(rowRes := true, pc := if c.rowAlert then ClearRow else WaitRowAq)
    case WaitRowAq => if c.rowRes then c else c.(pc := if c.rowAlert then ClearRow else WaitRow)
    case ClearRow => c.(rowAlert := false, rowRes := false, pc := Out, round := c.round + 1)
  }

  /** The row level: the heads reset their list and alert, everybody waits. */
  function Row(g: Group, t: Tile, c: Cell): (r: (Cell, Option<Msg>))
    requires GroupOk(g) && InGroup(g, t) && CellOk(g, t, c) && !Gathering(c.pc) && !InColumn(c.pc)
    ensures CellOk(g, t, r.0)
    ensures r.1.Some? ==> MsgOk(g, r.1.value)
  {
    match c.pc
    case ClearCol =>
      (c.(colAlert := false, colRes := false, pc := if g.cpp then ResetRow(0) else AlertRow(0)), None)
    case ResetRow(i) =>
      (c.(rowDone := c.rowDone[i := false],
          pc := if i + 1 < g.X then ResetRow(i + 1) else if g.cpp then ResetRowAlert else ClearCol), None)
    case ResetRowAlert => (c.(rowAlert := false, rowRes := false, pc := AlertRow(0)), None)
    case AlertRow(i) =>
      (c.(pc := if i + 1 < g.X then AlertRow(i + 1) else WaitRow), Some(RowAlert(i, t.y)))
    case WaitRow => (WaitOnRow(g, t, c), None)
    case WaitRowAq => (WaitOnRow(g, t, c), None)
    case ClearRow => (WaitOnRow(g, t, c), None)
  }

  /** One step of tile t on its own memory, and the remote store it makes, if any. */
  function Local(g: Group, t: Tile, c: Cell): (r: (Cell, Option<Msg>))
    requires GroupOk(g) && InGroup(g, t) && CellOk(g, t, c)
    ensures CellOk(g, t, r.0)
    ensures r.1.Some? ==> MsgOk(g, r.1.value)
  {
    if Gathering(c.pc) then Gather(g, t, c)
    else if InColumn(c.pc) then Column(g, t, c)
    else Row(g, t, c)
  }

  function Target(g: Group, m: Msg): Tile {
    match m
    case RowDone(_, y) => Head(g, y)
    case ColDone(_) => Center(g)
    case ColAlert(y) => Head(g, y)
    case RowAlert(x, y) => Tile(x, y)
  }

  /** What a delivered store does to the cell it reaches. */
  function Receive(g: Group, m: Msg, c: Cell): (c': Cell)
    requires MsgOk(g, m) && CellOk(g, Target(g, m), c)
    ensures CellOk(g, Target(g, m), c')
  {
    match m
    case RowDone(x, _) => c.(rowDone := c.rowDone[x := true])
    case ColDone(y) => c.(colDone := c.colDone[y := true])
    case ColAlert(_) => c.(colAlert := true, colRes := false)
    case RowAlert(_, _) => c.(rowAlert := true, rowRes := false)
  }

  /** A step is a tile's next instruction or the delivery of a store in flight. */
  datatype Act = Run(t: Tile) | Deliver(m: Msg)

  function Step(g: Group, s: State, a: Act): (s': State)
    requires Valid(g, s)
    ensures Valid(g, s')
  {
    match a
    case Run(t) =>
      if !InGroup(g, t) then s else
      var (c, out) := Local(g, t, s.cell[t]);
      State(s.cell[t := c], if out.Some? then s.net[out.value := s.net[out.value] + 1] else s.net)
    case Deliver(m) =>
      if m !in s.net then s else
      var t := Target(g, m);
      State(s.cell[t := Receive(g, m, s.cell[t])], s.net[m := s.net[m] - 1])
  }

  function Exec(g: Group, s: State, sched: seq<Act>): (s': State)
    requires Valid(g, s)
    ensures Valid(g, s')
  {
    if sched == [] then s else Step(g, Exec(g, s, sched[..|sched| - 1]), sched[|sched| - 1])
  }

  // ---------------------------------------------------------------------------------------
  // Counting, from a tile's own cell, how often it has passed each point.

  function Count(c: Cell, past: bool): nat {
    c.round + (if past then 1 else 0)
  }

  function Entered(c: Cell): nat {
    Count(c, !c.pc.Out?)
  }

  predicate BeforeColSync(pc: Pc) {
    pc.Out? || pc.PollRow? || pc.SendCol?
  }

  predicate PastColWait(pc: Pc) {
    pc.ClearCol? || pc.ResetRow? || pc.ResetRowAlert? || pc.AlertRow? || pc.WaitRow? || pc.WaitRowAq? || pc.ClearRow?
  }

  /** Row lists seen complete; flag x of the list reset; alert x of the row sent. */
  function RowSeen(c: Cell): nat {
    Count(c, !c.pc.Out? && !c.pc.PollRow?)
  }

  function RowResets(g: Group, c: Cell, x: nat): nat {
    Count(c, PastColWait(c.pc) && !(c.pc.ClearCol? && g.cpp) && !(c.pc.ResetRow? && c.pc.i <= x))
  }

  function RowAlerts(c: Cell, x: nat): nat {
    Count(c, (c.pc.AlertRow? && x < c.pc.i) || c.pc.WaitRow? || c.pc.WaitRowAq? || c.pc.ClearRow?)
  }

  /** Row alerts seen by the tile itself: from here it is released. */
  function Released(c: Cell): nat {
    Count(c, c.pc.ClearRow?)
  }

  /** Column flags sent; column lists seen complete; flag y of the list reset; column alert y
      sent, seen and cleared. */
  function ColSent(c: Cell): nat {
    Count(c, !BeforeColSync(c.pc))
  }

  function ColSeen(c: Cell): nat {
    Count(c, !BeforeColSync(c.pc) && !c.pc.PollCol?)
  }

  function ColResets(c: Cell, y: nat): nat {
    Count(c, !BeforeColSync(c.pc) && !c.pc.PollCol? && !(c.pc.ResetCol? && c.pc.i <= y))
  }

  function ColAlerts(c: Cell, y: nat): nat {
    Count(c, !BeforeColSync(c.pc) && !c.pc.PollCol? && !c.pc.ResetCol? && !c.pc.ResetColAlert?
             && !(c.pc.AlertCol? && c.pc.i <= y))
  }

  function ColPassed(c: Cell): nat {
    Count(c, PastColWait(c.pc))
  }

  function ColCleared(g: Group, c: Cell): nat {
    Count(c, PastColWait(c.pc) && !c.pc.ClearCol? && (g.cpp || !c.pc.ResetRow?))
  }

  function Num(b: bool): nat {
    if b then 1 else 0
  }

  // Both levels work alike: a collector (the head of a row, or the center) gathers the flags of its
  // members (the tiles of the row, or the heads), resets them, and alerts the members.

  /** A member: how often it has raised its flag, seen its alert, and cleared it. */
  datatype Member = Member(entered: nat, released: nat, cleared: nat, alert: bool, asleep: bool, reserved: bool)

  /** A collector and the flag of one member: how often it has seen all flags up, reset this one, and
      sent the alert; the flag, and whether the polling under way has passed it. */
  datatype Collector = Collector(seen: nat, resets: nat, alerts: nat, done: bool, polled: bool)

  function RowMember(c: Cell): Member {
    Member(Entered(c), Released(c), c.round, c.rowAlert, c.pc.WaitRowAq?, c.rowRes)
  }

  function RowCollector(g: Group, h: Cell, x: nat): Collector
    requires x < |h.rowDone|
  {
    Collector(RowSeen(h), RowResets(g, h, x), RowAlerts(h, x), h.rowDone[x], h.pc.PollRow? && x < h.pc.i)
  }

  function ColMember(g: Group, h: Cell): Member {
    Member(ColSent(h), ColPassed(h), ColCleared(g, h), h.colAlert, h.pc.WaitColAq?, h.colRes)
  }

  function ColCollector(m: Cell, y: nat): Collector
    requires y < |m.colDone|
  {
    Collector(ColSeen(m), ColResets(m, y), ColAlerts(m, y), m.colDone[y], m.pc.PollCol? && y < m.pc.i)
  }

  /** nDone and nAlert are the stores in flight between the two. */
  predicate LinkOk(k: Member, h: Collector, nDone: nat, nAlert: nat) {
    && h.seen <= k.entered
    && k.released <= h.alerts
    && Num(h.done) + nDone == k.entered - h.resets
    && Num(k.alert) + nAlert == h.alerts - k.cleared
    && (h.seen > h.resets ==> h.done)
    && (k.released > k.cleared ==> k.alert)
    && (h.polled ==> h.done)
    && (k.asleep ==> (k.reserved <==> !k.alert))
  }

  ghost predicate RowInv(g: Group, s: State, t: Tile)
    requires Valid(g, s) && InGroup(g, t)
  {
    LinkOk(RowMember(s.cell[t]), RowCollector(g, s.cell[Head(g, t.y)], t.x),
           s.net[RowDone(t.x, t.y)], s.net[RowAlert(t.x, t.y)])
  }

  ghost predicate ColInv(g: Group, s: State, y: nat)
    requires Valid(g, s) && y < g.Y
  {
    LinkOk(ColMember(g, s.cell[Head(g, y)]), ColCollector(s.cell[Center(g)], y), s.net[ColDone(y)], s.net[ColAlert(y)])
  }

  ghost predicate Inv(g: Group, s: State) {
    && Valid(g, s)
    && (forall t :: InGroup(g, t) ==> RowInv(g, s, t))
    && (forall y :: 0 <= y < g.Y ==> ColInv(g, s, y))
  }

  lemma InitInv(g: Group)
    requires GroupOk(g)
    ensures Inv(g, Init(g))
  {
    forall t | InGroup(g, t) ensures RowInv(g, Init(g), t) {
      InitRow(g, t);
    }
    forall y | 0 <= y < g.Y ensures ColInv(g, Init(g), y) {
      InitCol(g, y);
    }
  }

  lemma InitRow(g: Group, t: Tile)
    requires GroupOk(g) && InGroup(g, t)
    ensures RowInv(g, Init(g), t)
  {
    assert Init(g).cell[t].pc == Out && Init(g).cell[Head(g, t.y)].pc == Out;
  }

  lemma InitCol(g: Group, y: nat)
    requires GroupOk(g) && y < g.Y
    ensures ColInv(g, Init(g), y)
  {
    assert Init(g).cell[Head(g, y)].pc == Out && Init(g).cell[Center(g)].pc == Out;
  }

  // ---------------------------------------------------------------------------------------
  // What a member or a collector can do, and that it keeps the link.

  /** A look at the alert word: asleep if it is not set, else released or back to looking. */
  predicate Looks(k: Member, k': Member) {
    && k.released == k.cleared && k' == k.(released := k'.released, asleep := k'.asleep, reserved := k'.reserved)
    && if k'.asleep then !k.alert && k'.reserved && k'.released == k.released
       else k'.released == k.released || (k.alert && k'.released == k.released + 1)
  }

  predicate Clears(k: Member, k': Member) {
    k.released == k.cleared + 1 && !k.asleep && k' == k.(cleared := k.released, alert := false, reserved := false)
  }

  /** sent is how many flags it sends. */
  predicate MemberMoves(k: Member, k': Member, sent: nat) {
    || (sent == 0 && (k' == k || Looks(k, k') || Clears(k, k')))
    || (sent == 1 && k' == k.(entered := k.entered + 1))
  }

  /** The extra resets of the C++ version. */
  predicate Wipes(k: Member, k': Member) {
    !k.asleep && k' == k.(alert := false, reserved := false)
  }

  predicate Polls(h: Collector, h': Collector) {
    h' == h.(polled := h'.polled) && (h'.polled ==> h.polled || h.done)
  }

  predicate Sees(h: Collector, h': Collector) {
    h.seen == h.resets && (h.polled || h.done) && h' == h.(seen := h.seen + 1, polled := false)
  }

  predicate Resets(h: Collector, h': Collector) {
    h.seen == h.resets + 1 && !h.polled && h' == h.(resets := h.resets + 1, done := false)
  }

  /** sent is how many alerts it sends. */
  predicate CollectorMoves(h: Collector, h': Collector, sent: nat) {
    || (sent == 0 && (h' == h || Polls(h, h') || Sees(h, h') || Resets(h, h')))
    || (sent == 1 && h' == h.(alerts := h.alerts + 1))
  }

  lemma MemberKeeps(k: Member, k': Member, h: Collector, nDone: nat, nAlert: nat, sent: nat)
    requires LinkOk(k, h, nDone, nAlert) && MemberMoves(k, k', sent)
    ensures LinkOk(k', h, nDone + sent, nAlert)
  {
  }

  lemma WipeKeeps(k: Member, k': Member, h: Collector, nDone: nat, nAlert: nat)
    requires LinkOk(k, h, nDone, nAlert) && Wipes(k, k') && h.alerts == k.cleared
    ensures LinkOk(k', h, nDone, nAlert)
  {
  }

  lemma CollectorKeeps(k: Member, h: Collector, h': Collector, nDone: nat, nAlert: nat, sent: nat)
    requires LinkOk(k, h, nDone, nAlert) && CollectorMoves(h, h', sent)
    ensures LinkOk(k, h', nDone, nAlert + sent)
  {
  }

  /** A whole round in one step, as in a group of one tile. */
  lemma RoundKeeps(k: Member, h: Collector, nDone: nat, nAlert: nat)
    requires LinkOk(k, h, nDone, nAlert)
    ensures LinkOk(k.(entered := k.entered + 1, released := k.released + 1, cleared := k.cleared + 1),
                   h.(seen := h.seen + 1, resets := h.resets + 1, alerts := h.alerts + 1), nDone, nAlert)
  {
  }

  /** Within a round the counts go up in turn. */
  predicate InTurn(k: Member, h: Collector) {
    k.cleared <= k.released <= k.entered <= k.cleared + 1 && h.alerts <= h.resets <= h.seen <= h.alerts + 1
  }

  lemma DoneArrives(k: Member, h: Collector, nDone: nat, nAlert: nat)
    requires LinkOk(k, h, nDone, nAlert) && InTurn(k, h) && nDone >= 1
    ensures LinkOk(k, h.(done := true), nDone - 1, nAlert)
  {
  }

  lemma AlertArrives(k: Member, h: Collector, nDone: nat, nAlert: nat)
    requires LinkOk(k, h, nDone, nAlert) && InTurn(k, h) && nAlert >= 1
    ensures LinkOk(k.(alert := true, reserved := false), h, nDone, nAlert - 1)
  {
  }

  // ---------------------------------------------------------------------------------------
  // Every instruction is such a move on each level.

  /** How many stores m the step sends. */
  function Sends(out: Option<Msg>, m: Msg): nat {
    if out == Some(m) then 1 else 0
  }

  /** A C++ group of one tile goes through the barrier in one step. */
  predicate AtOnce(g: Group, c: Cell) {
    c.pc.Out? && g.cpp && g.X == 1 && g.Y == 1
  }

  predicate RunOk(g: Group, t: Tile, c: Cell) {
    GroupOk(g) && InGroup(g, t) && CellOk(g, t, c) && !AtOnce(g, c)
  }

  /** Where tiles act as members of their rows, and where heads act as collectors. */
  predicate AtRowMember(pc: Pc) {
    pc.Out? || pc.WaitRow? || pc.WaitRowAq? || pc.ClearRow?
  }

  predicate AtRowCollector(pc: Pc) {
    pc.PollRow? || pc.ResetRow? || pc.AlertRow?
  }

  lemma RowMemberRuns(g: Group, t: Tile, c: Cell)
    requires RunOk(g, t, c) && AtRowMember(c.pc)
    ensures var (c', out) := Local(g, t, c);
      MemberMoves(RowMember(c), RowMember(c'), Sends(out, RowDone(t.x, t.y)))
  {
  }

  predicate RowMemberSame(t: Tile, c: Cell, r: (Cell, Option<Msg>))
  {
    RowMember(r.0) == RowMember(c) && Sends(r.1, RowDone(t.x, t.y)) == 0
  }

  lemma RowMemberStaysInGather(g: Group, t: Tile, c: Cell)
    requires RunOk(g, t, c) && !AtRowMember(c.pc) && !c.pc.ResetRowAlert? && Gathering(c.pc)
    ensures RowMemberSame(t, c, Gather(g, t, c))
  {
  }

  lemma RowMemberStaysInColumn(g: Group, t: Tile, c: Cell)
    requires RunOk(g, t, c) && !AtRowMember(c.pc) && !c.pc.ResetRowAlert? && InColumn(c.pc)
    ensures RowMemberSame(t, c, Column(g, t, c))
  {
  }

  lemma RowMemberStaysInRow(g: Group, t: Tile, c: Cell)
    requires RunOk(g, t, c) && !AtRowMember(c.pc) && !c.pc.ResetRowAlert? && !Gathering(c.pc) && !InColumn(c.pc)
    ensures RowMemberSame(t, c, Row(g, t, c))
  {
  }

  lemma RowMemberStays(g: Group, t: Tile, c: Cell)
    requires RunOk(g, t, c) && !AtRowMember(c.pc) && !c.pc.ResetRowAlert?
    ensures RowMemberSame(t, c, Local(g, t, c))
  {
    if Gathering(c.pc) {
      RowMemberStaysInGather(g, t, c);
    } else if InColumn(c.pc) {
      RowMemberStaysInColumn(g, t, c);
    } else {
      RowMemberStaysInRow(g, t, c);
    }
  }

  lemma RowMemberWipes(g: Group, t: Tile, c: Cell)
    requires RunOk(g, t, c) && c.pc.ResetRowAlert?
    ensures var (c', out) := Local(g, t, c);
      Wipes(RowMember(c), RowMember(c')) && out == None && RowAlerts(c, t.x) == c.round
  {
  }

  lemma RowCollectorPolls(g: Group, t: Tile, c: Cell, x: nat)
    requires RunOk(g, t, c) && c.pc.PollRow? && x < g.X
    ensures var (c', out) := Gather(g, t, c);
      CollectorMoves(RowCollector(g, c, x), RowCollector(g, c', x), 0) && out == None
  {
  }

  lemma RowCollectorRuns(g: Group, t: Tile, c: Cell, x: nat)
    requires RunOk(g, t, c) && AtRowCollector(c.pc) && x < g.X
    ensures var (c', out) := Local(g, t, c);
      CollectorMoves(RowCollector(g, c, x), RowCollector(g, c', x), Sends(out, RowAlert(x, t.y)))
  {
    if c.pc.PollRow? {
      RowCollectorPolls(g, t, c, x);
    }
  }

  predicate RowCollectorSame(g: Group, t: Tile, c: Cell, x: nat, r: (Cell, Option<Msg>))
    requires x < |c.rowDone| == |r.0.rowDone|
  {
    RowCollector(g, r.0, x) == RowCollector(g, c, x) && Sends(r.1, RowAlert(x, t.y)) == 0
  }

  lemma RowCollectorStaysInGather(g: Group, t: Tile, c: Cell, x: nat)
    requires RunOk(g, t, c) && t.x == g.cx && !AtRowCollector(c.pc) && x < g.X && Gathering(c.pc)
    ensures RowCollectorSame(g, t, c, x, Gather(g, t, c))
  {
  }

  lemma RowCollectorStaysInColumn(g: Group, t: Tile, c: Cell, x: nat)
    requires RunOk(g, t, c) && t.x == g.cx && !AtRowCollector(c.pc) && x < g.X && InColumn(c.pc)
    ensures RowCollectorSame(g, t, c, x, Column(g, t, c))
  {
  }

  lemma RowCollectorStaysInRow(g: Group, t: Tile, c: Cell, x: nat)
    requires RunOk(g, t, c) && t.x == g.cx && !AtRowCollector(c.pc) && x < g.X && !Gathering(c.pc) && !InColumn(c.pc)
    ensures RowCollectorSame(g, t, c, x, Row(g, t, c))
  {
  }

  lemma RowCollectorStays(g: Group, t: Tile, c: Cell, x: nat)
    requires RunOk(g, t, c) && t.x == g.cx && !AtRowCollector(c.pc) && x < g.X
    ensures RowCollectorSame(g, t, c, x, Local(g, t, c))
  {
    if Gathering(c.pc) {
      RowCollectorStaysInGather(g, t, c, x);
    } else if InColumn(c.pc) {
      RowCollectorStaysInColumn(g, t, c, x);
    } else {
      RowCollectorStaysInRow(g, t, c, x);
    }
  }

  predicate AtColMember(pc: Pc) {
    pc.SendCol? || pc.WaitCol? || pc.WaitColAq? || pc.ClearCol?
  }

  predicate AtColCollector(pc: Pc) {
    pc.PollCol? || pc.ResetCol? || pc.AlertCol?
  }

  lemma ColMemberRuns(g: Group, t: Tile, c: Cell)
    requires RunOk(g, t, c) && AtColMember(c.pc)
    ensures var (c', out) := Local(g, t, c);
      MemberMoves(ColMember(g, c), ColMember(g, c'), Sends(out, ColDone(t.y)))
  {
  }

  predicate ColMemberSame(g: Group, t: Tile, c: Cell, r: (Cell, Option<Msg>))
  {
    ColMember(g, r.0) == ColMember(g, c) && Sends(r.1, ColDone(t.y)) == 0
  }

  lemma ColMemberStaysInGather(g: Group, t: Tile, c: Cell)
    requires RunOk(g, t, c) && t.x == g.cx && !AtColMember(c.pc) && !c.pc.ResetColAlert? && Gathering(c.pc)
    ensures ColMemberSame(g, t, c, Gather(g, t, c))
  {
  }

  lemma ColMemberStaysInColumn(g: Group, t: Tile, c: Cell)
    requires RunOk(g, t, c) && t.x == g.cx && !AtColMember(c.pc) && !c.pc.ResetColAlert? && InColumn(c.pc)
    ensures ColMemberSame(g, t, c, Column(g, t, c))
  {
  }

  lemma ColMemberStaysWaiting(g: Group, t: Tile, c: Cell)
    requires RunOk(g, t, c) && t.x == g.cx && AtRowMember(c.pc) && !c.pc.Out?
    ensures ColMemberSame(g, t, c, Row(g, t, c))
  {
  }

  lemma ColMemberStaysResetting(g: Group, t: Tile, c: Cell)
    requires RunOk(g, t, c) && t.x == g.cx && (c.pc.ResetRow? || c.pc.ResetRowAlert? || c.pc.AlertRow?)
    ensures ColMemberSame(g, t, c, Row(g, t, c))
  {
  }

  lemma ColMemberStaysInRow(g: Group, t: Tile, c: Cell)
    requires RunOk(g, t, c) && t.x == g.cx && !c.pc.ClearCol? && !Gathering(c.pc) && !InColumn(c.pc)
    ensures ColMemberSame(g, t, c, Row(g, t, c))
  {
    if AtRowMember(c.pc) {
      ColMemberStaysWaiting(g, t, c);
    } else {
      ColMemberStaysResetting(g, t, c);
    }
  }

  lemma ColMemberStays(g: Group, t: Tile, c: Cell)
    requires RunOk(g, t, c) && t.x == g.cx && !AtColMember(c.pc) && !c.pc.ResetColAlert?
    ensures ColMemberSame(g, t, c, Local(g, t, c))
  {
    if Gathering(c.pc) {
      ColMemberStaysInGather(g, t, c);
    } else if InColumn(c.pc) {
      ColMemberStaysInColumn(g, t, c);
    } else {
      ColMemberStaysInRow(g, t, c);
    }
  }

  lemma ColMemberWipes(g: Group, t: Tile, c: Cell)
    requires RunOk(g, t, c) && c.pc.ResetColAlert?
    ensures var (c', out) := Local(g, t, c);
      Wipes(ColMember(g, c), ColMember(g, c')) && out == None && ColAlerts(c, t.y) == ColCleared(g, c)
  {
  }

  lemma ColCollectorPolls(g: Group, t: Tile, c: Cell, y: nat)
    requires RunOk(g, t, c) && c.pc.PollCol? && y < g.Y
    ensures var (c', out) := Gather(g, t, c);
      CollectorMoves(ColCollector(c, y), ColCollector(c', y), 0) && out == None
  {
  }

  lemma ColCollectorRuns(g: Group, t: Tile, c: Cell, y: nat)
    requires RunOk(g, t, c) && AtColCollector(c.pc) && y < g.Y
    ensures var (c', out) := Local(g, t, c);
      CollectorMoves(ColCollector(c, y), ColCollector(c', y), Sends(out, ColAlert(y)))
  {
    if c.pc.PollCol? {
      ColCollectorPolls(g, t, c, y);
    }
  }

  predicate ColCollectorSame(c: Cell, y: nat, r: (Cell, Option<Msg>))
    requires y < |c.colDone| == |r.0.colDone|
  {
    ColCollector(r.0, y) == ColCollector(c, y) && Sends(r.1, ColAlert(y)) == 0
  }

  lemma ColCollectorStaysInGather(g: Group, t: Tile, c: Cell, y: nat)
    requires RunOk(g, t, c) && t == Center(g) && !AtColCollector(c.pc) && y < g.Y && Gathering(c.pc)
    ensures ColCollectorSame(c, y, Gather(g, t, c))
  {
  }

  lemma ColCollectorStaysInColumn(g: Group, t: Tile, c: Cell, y: nat)
    requires RunOk(g, t, c) && t == Center(g) && !AtColCollector(c.pc) && y < g.Y && InColumn(c.pc)
    ensures ColCollectorSame(c, y, Column(g, t, c))
  {
  }

  lemma ColCollectorStaysWaiting(g: Group, t: Tile, c: Cell, y: nat)
    requires RunOk(g, t, c) && t == Center(g) && AtRowMember(c.pc) && !c.pc.Out? && y < g.Y
    ensures ColCollectorSame(c, y, Row(g, t, c))
  {
  }

  lemma ColCollectorStaysResetting(g: Group, t: Tile, c: Cell, y: nat)
    requires RunOk(g, t, c) && t == Center(g) && y < g.Y
    requires c.pc.ClearCol? || c.pc.ResetRow? || c.pc.ResetRowAlert? || c.pc.AlertRow?
    ensures ColCollectorSame(c, y, Row(g, t, c))
  {
  }

  lemma ColCollectorStaysInRow(g: Group, t: Tile, c: Cell, y: nat)
    requires RunOk(g, t, c) && t == Center(g) && !AtColCollector(c.pc) && y < g.Y && !Gathering(c.pc) && !InColumn(c.pc)
    ensures ColCollectorSame(c, y, Row(g, t, c))
  {
    if AtRowMember(c.pc) {
      ColCollectorStaysWaiting(g, t, c, y);
    } else {
      ColCollectorStaysResetting(g, t, c, y);
    }
  }

  lemma ColCollectorStays(g: Group, t: Tile, c: Cell, y: nat)
    requires RunOk(g, t, c) && t == Center(g) && !AtColCollector(c.pc) && y < g.Y
    ensures ColCollectorSame(c, y, Local(g, t, c))
  {
    if Gathering(c.pc) {
      ColCollectorStaysInGather(g, t, c, y);
    } else if InColumn(c.pc) {
      ColCollectorStaysInColumn(g, t, c, y);
    } else {
      ColCollectorStaysInRow(g, t, c, y);
    }
  }

  // ---------------------------------------------------------------------------------------
  // Every step keeps every link.

  /** A tile sends row flags only as itself, and row alerts only as the head of its row. */
  lemma NotMine(g: Group, t: Tile, u: Tile, c: Cell)
    requires GroupOk(g) && InGroup(g, t) && CellOk(g, t, c)
    ensures var out := Local(g, t, c).1;
      && (t != u ==> out != Some(RowDone(u.x, u.y)))
      && (t != Head(g, u.y) ==> out != Some(RowAlert(u.x, u.y)))
  {
  }

  lemma NotMyColumn(g: Group, t: Tile, y: nat, c: Cell)
    requires GroupOk(g) && InGroup(g, t) && CellOk(g, t, c)
    ensures var out := Local(g, t, c).1;
      && (t != Head(g, y) ==> out != Some(ColDone(y)))
      && (t != Center(g) ==> out != Some(ColAlert(y)))
  {
  }

  /** The tile acts as a member, and if it is the head of its row not as the collector; or the other
      way round. */
  lemma RowRunsOwn(g: Group, t: Tile, c: Cell, h: Cell, nDone: nat, nAlert: nat)
    requires RunOk(g, t, c) && |h.rowDone| == g.X && (t.x == g.cx ==> h == c)
    requires LinkOk(RowMember(c), RowCollector(g, h, t.x), nDone, nAlert)
    ensures var (c', out) := Local(g, t, c);
      LinkOk(RowMember(c'), RowCollector(g, if t.x == g.cx then c' else h, t.x),
             nDone + Sends(out, RowDone(t.x, t.y)),
             nAlert + (if t.x == g.cx then Sends(out, RowAlert(t.x, t.y)) else 0))
  {
    var (c', out) := Local(g, t, c);
    var k, k', l := RowMember(c), RowMember(c'), RowCollector(g, h, t.x);
    if AtRowCollector(c.pc) {
      RowMemberStays(g, t, c);
      RowCollectorRuns(g, t, c, t.x);
      CollectorKeeps(k, l, RowCollector(g, c', t.x), nDone, nAlert, Sends(out, RowAlert(t.x, t.y)));
    } else {
      if t.x == g.cx {
        RowCollectorStays(g, t, c, t.x);
      }
      if c.pc.ResetRowAlert? {
        RowMemberWipes(g, t, c);
        WipeKeeps(k, k', l, nDone, nAlert);
      } else if AtRowMember(c.pc) {
        RowMemberRuns(g, t, c);
        MemberKeeps(k, k', l, nDone, nAlert, Sends(out, RowDone(t.x, t.y)));
      } else {
        RowMemberStays(g, t, c);
      }
    }
  }

  /** The head of the row acts, and the member is another tile. */
  lemma RowRunsHead(g: Group, t: Tile, c: Cell, x: nat, k: Member, nDone: nat, nAlert: nat)
    requires RunOk(g, t, c) && t.x == g.cx && x < g.X && LinkOk(k, RowCollector(g, c, x), nDone, nAlert)
    ensures var (c', out) := Local(g, t, c);
      LinkOk(k, RowCollector(g, c', x), nDone, nAlert + Sends(out, RowAlert(x, t.y)))
  {
    if AtRowCollector(c.pc) {
      var (c', out) := Local(g, t, c);
      RowCollectorRuns(g, t, c, x);
      CollectorKeeps(k, RowCollector(g, c, x), RowCollector(g, c', x), nDone, nAlert, Sends(out, RowAlert(x, t.y)));
    } else {
      RowCollectorStays(g, t, c, x);
    }
  }

  lemma ColRunsOwn(g: Group, t: Tile, c: Cell, m: Cell, nDone: nat, nAlert: nat)
    requires RunOk(g, t, c) && |m.colDone| == g.Y && t.x == g.cx && (t.y == g.cy ==> m == c)
    requires LinkOk(ColMember(g, c), ColCollector(m, t.y), nDone, nAlert)
    ensures var (c', out) := Local(g, t, c);
      LinkOk(ColMember(g, c'), ColCollector(if t.y == g.cy then c' else m, t.y),
             nDone + Sends(out, ColDone(t.y)),
             nAlert + (if t.y == g.cy then Sends(out, ColAlert(t.y)) else 0))
  {
    var (c', out) := Local(g, t, c);
    var k, k', l := ColMember(g, c), ColMember(g, c'), ColCollector(m, t.y);
    if AtColCollector(c.pc) {
      ColMemberStays(g, t, c);
      ColCollectorRuns(g, t, c, t.y);
      CollectorKeeps(k, l, ColCollector(c', t.y), nDone, nAlert, Sends(out, ColAlert(t.y)));
    } else {
      if t.y == g.cy {
        ColCollectorStays(g, t, c, t.y);
      }
      if c.pc.ResetColAlert? {
        ColMemberWipes(g, t, c);
        WipeKeeps(k, k', l, nDone, nAlert);
      } else if AtColMember(c.pc) {
        ColMemberRuns(g, t, c);
        MemberKeeps(k, k', l, nDone, nAlert, Sends(out, ColDone(t.y)));
      } else {
        ColMemberStays(g, t, c);
      }
    }
  }

  lemma ColRunsCenter(g: Group, t: Tile, c: Cell, y: nat, k: Member, nDone: nat, nAlert: nat)
    requires RunOk(g, t, c) && t == Center(g) && y < g.Y && LinkOk(k, ColCollector(c, y), nDone, nAlert)
    ensures var (c', out) := Local(g, t, c);
      LinkOk(k, ColCollector(c', y), nDone, nAlert + Sends(out, ColAlert(y)))
  {
    if AtColCollector(c.pc) {
      var (c', out) := Local(g, t, c);
      ColCollectorRuns(g, t, c, y);
      CollectorKeeps(k, ColCollector(c, y), ColCollector(c', y), nDone, nAlert, Sends(out, ColAlert(y)));
    } else {
      ColCollectorStays(g, t, c, y);
    }
  }

  lemma TileRunsRow(g: Group, s: State, t: Tile)
    requires Valid(g, s) && InGroup(g, t) && RowInv(g, s, t) && !AtOnce(g, s.cell[t])
    ensures RowInv(g, Step(g, s, Run(t)), t)
  {
    NotMine(g, t, t, s.cell[t]);
    RowRunsOwn(g, t, s.cell[t], s.cell[Head(g, t.y)], s.net[RowDone(t.x, t.y)], s.net[RowAlert(t.x, t.y)]);
  }

  lemma HeadRunsRow(g: Group, s: State, t: Tile, u: Tile)
    requires Valid(g, s) && InGroup(g, u) && RowInv(g, s, u) && t == Head(g, u.y) && t != u && !AtOnce(g, s.cell[t])
    ensures RowInv(g, Step(g, s, Run(t)), u)
  {
    NotMine(g, t, u, s.cell[t]);
    RowRunsHead(g, t, s.cell[t], u.x, RowMember(s.cell[u]), s.net[RowDone(u.x, u.y)], s.net[RowAlert(u.x, u.y)]);
  }

  lemma RunKeepsRow(g: Group, s: State, t: Tile, u: Tile)
    requires Valid(g, s) && InGroup(g, t) && InGroup(g, u) && RowInv(g, s, u) && !AtOnce(g, s.cell[t])
    ensures RowInv(g, Step(g, s, Run(t)), u)
  {
    if t == u {
      TileRunsRow(g, s, t);
    } else if t == Head(g, u.y) {
      HeadRunsRow(g, s, t, u);
    } else {
      NotMine(g, t, u, s.cell[t]);
    }
  }

  lemma HeadRunsCol(g: Group, s: State, t: Tile)
    requires Valid(g, s) && InGroup(g, t) && t.x == g.cx && ColInv(g, s, t.y) && !AtOnce(g, s.cell[t])
    ensures ColInv(g, Step(g, s, Run(t)), t.y)
  {
    NotMyColumn(g, t, t.y, s.cell[t]);
    ColRunsOwn(g, t, s.cell[t], s.cell[Center(g)], s.net[ColDone(t.y)], s.net[ColAlert(t.y)]);
  }

  lemma CenterRunsCol(g: Group, s: State, y: nat)
    requires Valid(g, s) && y < g.Y && y != g.cy && ColInv(g, s, y) && !AtOnce(g, s.cell[Center(g)])
    ensures ColInv(g, Step(g, s, Run(Center(g))), y)
  {
    var t := Center(g);
    NotMyColumn(g, t, y, s.cell[t]);
    ColRunsCenter(g, t, s.cell[t], y, ColMember(g, s.cell[Head(g, y)]), s.net[ColDone(y)], s.net[ColAlert(y)]);
  }

  lemma RunKeepsCol(g: Group, s: State, t: Tile, y: nat)
    requires Valid(g, s) && InGroup(g, t) && y < g.Y && ColInv(g, s, y) && !AtOnce(g, s.cell[t])
    ensures ColInv(g, Step(g, s, Run(t)), y)
  {
    if t == Head(g, y) {
      HeadRunsCol(g, s, t);
    } else if t == Center(g) {
      CenterRunsCol(g, s, y);
    } else {
      NotMyColumn(g, t, y, s.cell[t]);
    }
  }

  lemma AtOnceKeeps(g: Group, s: State, t: Tile)
    requires Inv(g, s) && InGroup(g, t) && AtOnce(g, s.cell[t])
    ensures Inv(g, Step(g, s, Run(t)))
  {
    var s', c := Step(g, s, Run(t)), s.cell[t];
    assert t == Center(g) == Head(g, 0);
    assert RowInv(g, s, t) && ColInv(g, s, 0);
    RoundKeeps(RowMember(c), RowCollector(g, c, 0), s.net[RowDone(0, 0)], s.net[RowAlert(0, 0)]);
    RoundKeeps(ColMember(g, c), ColCollector(c, 0), s.net[ColDone(0)], s.net[ColAlert(0)]);
    forall u | InGroup(g, u) ensures RowInv(g, s', u) {
      assert u == t;
    }
    forall y | 0 <= y < g.Y ensures ColInv(g, s', y) {
      assert y == 0;
    }
  }

  lemma RowInTurn(g: Group, c: Cell, h: Cell, x: nat)
    requires x < |h.rowDone|
    ensures InTurn(RowMember(c), RowCollector(g, h, x))
  {
  }

  lemma ColInTurn(g: Group, h: Cell, m: Cell, y: nat)
    requires y < |m.colDone|
    ensures InTurn(ColMember(g, h), ColCollector(m, y))
  {
  }

  lemma RowDoneArrives(g: Group, s: State, u: Tile)
    requires Valid(g, s) && InGroup(g, u) && RowDone(u.x, u.y) in s.net && RowInv(g, s, u)
    ensures RowInv(g, Step(g, s, Deliver(RowDone(u.x, u.y))), u)
  {
    var k, h := RowMember(s.cell[u]), RowCollector(g, s.cell[Head(g, u.y)], u.x);
    RowInTurn(g, s.cell[u], s.cell[Head(g, u.y)], u.x);
    DoneArrives(k, h, s.net[RowDone(u.x, u.y)], s.net[RowAlert(u.x, u.y)]);
  }

  lemma RowAlertArrives(g: Group, s: State, u: Tile)
    requires Valid(g, s) && InGroup(g, u) && RowAlert(u.x, u.y) in s.net && RowInv(g, s, u)
    ensures RowInv(g, Step(g, s, Deliver(RowAlert(u.x, u.y))), u)
  {
    var k, h := RowMember(s.cell[u]), RowCollector(g, s.cell[Head(g, u.y)], u.x);
    RowInTurn(g, s.cell[u], s.cell[Head(g, u.y)], u.x);
    AlertArrives(k, h, s.net[RowDone(u.x, u.y)], s.net[RowAlert(u.x, u.y)]);
  }

  lemma DeliverKeepsRow(g: Group, s: State, m: Msg, u: Tile)
    requires Valid(g, s) && m in s.net && InGroup(g, u) && RowInv(g, s, u)
    ensures RowInv(g, Step(g, s, Deliver(m)), u)
  {
    if m == RowDone(u.x, u.y) {
      RowDoneArrives(g, s, u);
    } else if m == RowAlert(u.x, u.y) {
      RowAlertArrives(g, s, u);
    } else {
      RowUntouched(g, s, m, u);
    }
  }

  lemma RowUntouched(g: Group, s: State, m: Msg, u: Tile)
    requires Valid(g, s) && m in s.net && InGroup(g, u) && m != RowDone(u.x, u.y) && m != RowAlert(u.x, u.y)
    ensures
      var s', h := Step(g, s, Deliver(m)), Head(g, u.y);
      && RowMember(s'.cell[u]) == RowMember(s.cell[u])
      && RowCollector(g, s'.cell[h], u.x) == RowCollector(g, s.cell[h], u.x)
  {
  }

  lemma ColDoneArrives(g: Group, s: State, y: nat)
    requires Valid(g, s) && y < g.Y && ColDone(y) in s.net && ColInv(g, s, y)
    ensures ColInv(g, Step(g, s, Deliver(ColDone(y))), y)
  {
    var k, h := ColMember(g, s.cell[Head(g, y)]), ColCollector(s.cell[Center(g)], y);
    ColInTurn(g, s.cell[Head(g, y)], s.cell[Center(g)], y);
    DoneArrives(k, h, s.net[ColDone(y)], s.net[ColAlert(y)]);
  }

  lemma ColAlertArrives(g: Group, s: State, y: nat)
    requires Valid(g, s) && y < g.Y && ColAlert(y) in s.net && ColInv(g, s, y)
    ensures ColInv(g, Step(g, s, Deliver(ColAlert(y))), y)
  {
    var k, h := ColMember(g, s.cell[Head(g, y)]), ColCollector(s.cell[Center(g)], y);
    ColInTurn(g, s.cell[Head(g, y)], s.cell[Center(g)], y);
    AlertArrives(k, h, s.net[ColDone(y)], s.net[ColAlert(y)]);
  }

  lemma DeliverKeepsCol(g: Group, s: State, m: Msg, y: nat)
    requires Valid(g, s) && m in s.net && y < g.Y && ColInv(g, s, y)
    ensures ColInv(g, Step(g, s, Deliver(m)), y)
  {
    if m == ColDone(y) {
      ColDoneArrives(g, s, y);
    } else if m == ColAlert(y) {
      ColAlertArrives(g, s, y);
    } else {
      ColUntouched(g, s, m, y);
    }
  }

  lemma ColUntouched(g: Group, s: State, m: Msg, y: nat)
    requires Valid(g, s) && m in s.net && y < g.Y && m != ColDone(y) && m != ColAlert(y)
    ensures
      var s', h := Step(g, s, Deliver(m)), Head(g, y);
      && ColMember(g, s'.cell[h]) == ColMember(g, s.cell[h])
      && ColCollector(s'.cell[Center(g)], y) == ColCollector(s.cell[Center(g)], y)
  {
  }

  lemma StepKeepsInv(g: Group, s: State, a: Act)
    requires Inv(g, s)
    ensures Inv(g, Step(g, s, a))
  {
    if a.Run? && InGroup(g, a.t) && AtOnce(g, s.cell[a.t]) {
      AtOnceKeeps(g, s, a.t);
    } else if (a.Run? && InGroup(g, a.t)) || (a.Deliver? && a.m in s.net) {
      forall u | InGroup(g, u) ensures RowInv(g, Step(g, s, a), u) {
        if a.Run? { RunKeepsRow(g, s, a.t, u); } else { DeliverKeepsRow(g, s, a.m, u); }
      }
      forall y | 0 <= y < g.Y ensures ColInv(g, Step(g, s, a), y) {
        if a.Run? { RunKeepsCol(g, s, a.t, y); } else { DeliverKeepsCol(g, s, a.m, y); }
      }
    }
  }

  lemma {:induction false} ExecKeepsInv(g: Group, sched: seq<Act>)
    requires GroupOk(g)
    ensures Inv(g, Exec(g, Init(g), sched))
    decreases |sched|
  {
    if sched == [] {
      InitInv(g);
    } else {
      ExecKeepsInv(g, sched[..|sched| - 1]);
      StepKeepsInv(g, Exec(g, Init(g), sched[..|sched| - 1]), sched[|sched| - 1]);
    }
  }

  // ---------------------------------------------------------------------------------------
  // Main results.

  /** A released tile's row has been alerted, and so has the center seen the column. */
  lemma ReleasedAfterCenter(g: Group, s: State, t: Tile)
    requires Inv(g, s) && InGroup(g, t)
    ensures s.cell[t].round <= Released(s.cell[t]) <= ColSeen(s.cell[Center(g)])
  {
    assert RowInv(g, s, t);
    assert ColInv(g, s, t.y);
  }

  /** What the center has seen complete, every tile has entered. */
  lemma EnteredBeforeCenter(g: Group, s: State, u: Tile)
    requires Inv(g, s) && InGroup(g, u)
    ensures ColSeen(s.cell[Center(g)]) <= Entered(s.cell[u])
  {
    assert RowInv(g, s, u);
    assert ColInv(g, s, u.y);
  }

  lemma InvIsSafe(g: Group, s: State, t: Tile, u: Tile)
    requires Inv(g, s) && InGroup(g, t) && InGroup(g, u)
    ensures s.cell[t].round <= Released(s.cell[t]) <= Entered(s.cell[u])
  {
    ReleasedAfterCenter(g, s, t);
    EnteredBeforeCenter(g, s, u);
  }

  /** For any dimensions, any delivery order and any round, no tile t is released from (let
      alone returns from) a barrier that some tile u has not entered. */
  lemma NoEarlyRelease(g: Group, sched: seq<Act>, t: Tile, u: Tile)
    requires GroupOk(g) && InGroup(g, t) && InGroup(g, u)
    ensures var s := Exec(g, Init(g), sched);
      s.cell[t].round <= Released(s.cell[t]) <= Entered(s.cell[u])
  {
    ExecKeepsInv(g, sched);
    InvIsSafe(g, Exec(g, Init(g), sched), t, u);
  }

  /** No word ever has two stores outstanding, nor one that would set a flag already set. */
  lemma OneStoreOutstanding(g: Group, sched: seq<Act>, x: nat, y: nat)
    requires GroupOk(g) && x < g.X && y < g.Y
    ensures var s := Exec(g, Init(g), sched);
      && s.net[RowDone(x, y)] + Num(s.cell[Head(g, y)].rowDone[x]) <= 1
      && s.net[RowAlert(x, y)] + Num(s.cell[Tile(x, y)].rowAlert) <= 1
      && s.net[ColDone(y)] + Num(s.cell[Center(g)].colDone[y]) <= 1
      && s.net[ColAlert(y)] + Num(s.cell[Head(g, y)].colAlert) <= 1
  {
    ExecKeepsInv(g, sched);
    var s := Exec(g, Init(g), sched);
    assert RowInv(g, s, Tile(x, y)) && ColInv(g, s, y);
  }

  /** No reset erases a flag or alert of a later round: whatever word of the row level a tile
      is about to clear, no store to it is in flight and none of the next round has been sent.
      The done flag or alert that has been waited for is set; the extra alert reset of the C++
      version finds the word clear. */
  lemma RowResetsEraseNothing(g: Group, sched: seq<Act>, t: Tile)
    requires GroupOk(g) && InGroup(g, t)
    ensures var s := Exec(g, Init(g), sched);
      var c := s.cell[t];
      match c.pc
      case ResetRow(i) =>
        s.net[RowDone(i, t.y)] == 0 && c.rowDone[i] && Entered(s.cell[Tile(i, t.y)]) == c.round + 1
      case ClearRow =>
        s.net[RowAlert(t.x, t.y)] == 0 && c.rowAlert && RowAlerts(s.cell[Head(g, t.y)], t.x) == c.round + 1
      case ResetRowAlert => s.net[RowAlert(t.x, t.y)] == 0 && !c.rowAlert
      case _ => true
  {
    ExecKeepsInv(g, sched);
    var s := Exec(g, Init(g), sched);
    assert RowInv(g, s, t);
    if s.cell[t].pc.ResetRow? {
      assert RowInv(g, s, Tile(s.cell[t].pc.i, t.y));
    }
  }

  /** The same at the column level. */
  lemma ColResetsEraseNothing(g: Group, sched: seq<Act>, t: Tile)
    requires GroupOk(g) && InGroup(g, t)
    ensures var s := Exec(g, Init(g), sched);
      var c := s.cell[t];
      match c.pc
      case ResetCol(j) =>
        s.net[ColDone(j)] == 0 && c.colDone[j] && ColSent(s.cell[Head(g, j)]) == c.round + 1
      case ClearCol =>
        s.net[ColAlert(t.y)] == 0 && c.colAlert && ColAlerts(s.cell[Center(g)], t.y) == c.round + 1
      case ResetColAlert => s.net[ColAlert(t.y)] == 0 && !c.colAlert
      case _ => true
  {
    ExecKeepsInv(g, sched);
    var s := Exec(g, Init(g), sched);
    assert ColInv(g, s, t.y);
    if s.cell[t].pc.ResetCol? {
      assert ColInv(g, s, s.cell[t].pc.i);
    }
  }

  // ---------------------------------------------------------------------------------------
  // Nothing gets stuck.

  /** The tile is inside the barrier and its next step is not a vain poll or a sleep. */
  predicate CanMove(g: Group, t: Tile, c: Cell)
    requires CellOk(g, t, c)
  {
    match c.pc
    case Out => false
    case PollRow(i) => c.rowDone[i]
    case PollCol(i) => c.colDone[i]
    case WaitColAq => !c.colRes
    case WaitRowAq => !c.rowRes
    case _ => true
  }

  /** With nothing in flight, a sleeper has not been alerted. */
  lemma NotAsleepAfterOwnAlert(g: Group, s: State, h: Tile)
    requires Inv(g, s) && InGroup(g, h) && h.x == g.cx && s.net == multiset{} && !CanMove(g, h, s.cell[h])
    ensures !s.cell[h].pc.WaitRowAq?
    ensures h == Center(g) ==> !s.cell[h].pc.WaitColAq?
  {
    assert RowInv(g, s, h) && ColInv(g, s, h.y);
  }

  predicate Blocked(g: Group, t: Tile, c: Cell)
    requires CellOk(g, t, c)
  {
    !c.pc.Out? && !CanMove(g, t, c)
  }

  /** With nothing in flight and the others of its row inside and blocked, a head that polls
      finds the next flag set. */
  lemma HeadSeesRow(g: Group, s: State, h: Tile)
    requires Inv(g, s) && InGroup(g, h) && h.x == g.cx && s.net == multiset{} && s.cell[h].pc.PollRow?
    requires forall t :: InGroup(g, t) && t.y == h.y && t != h ==> Blocked(g, t, s.cell[t])
    ensures CanMove(g, h, s.cell[h])
  {
    var t := Tile(s.cell[h].pc.i, h.y);
    assert RowInv(g, s, t) && RowInv(g, s, h);
  }

  /** With all tiles but the center inside and blocked, a polling center finds the next column
      flag set. */
  lemma CenterSeesColumn(g: Group, s: State)
    requires Inv(g, s) && s.net == multiset{} && s.cell[Center(g)].pc.PollCol?
    requires forall t :: InGroup(g, t) && t != Center(g) ==> Blocked(g, t, s.cell[t])
    ensures CanMove(g, Center(g), s.cell[Center(g)])
  {
    var j := s.cell[Center(g)].pc.i;
    var h := Head(g, j);
    assert ColInv(g, s, j);
    if j != g.cy {
      NotAsleepAfterOwnAlert(g, s, h);
      if s.cell[h].pc.PollRow? {
        HeadSeesRow(g, s, h);
        assert false;
      }
    }
  }

  /** No reachable state is stuck: a store can be delivered, a tile inside can move, or a tile
      has yet to enter. */
  lemma NeverStuck(g: Group, sched: seq<Act>)
    requires GroupOk(g)
    ensures var s := Exec(g, Init(g), sched);
      s.net != multiset{} || exists t :: InGroup(g, t) && !Blocked(g, t, s.cell[t])
  {
    ExecKeepsInv(g, sched);
    var s := Exec(g, Init(g), sched);
    var k := Center(g);
    if && s.net == multiset{}
       && (forall t :: InGroup(g, t) && t != k ==> Blocked(g, t, s.cell[t])) && Blocked(g, k, s.cell[k])
    {
      NotAsleepAfterOwnAlert(g, s, k);
      if s.cell[k].pc.PollRow? {
        HeadSeesRow(g, s, k);
      } else {
        CenterSeesColumn(g, s);
      }
      assert false;
    }
  }
}
