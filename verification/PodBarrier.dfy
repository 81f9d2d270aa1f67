/** The sense-reversing 16x8 pod barrier (pod_barrier/main.c) as a step machine.

    A flag is all ones or all zeros, so it is a boolean here. Every load and store of a shared
    word is one atomic step; a schedule is any sequence of tiles. The wait is blind: whatever
    store clears the reservation lets LR.AQ return, and the value is not looked at again. */
module PodBarrier {
  datatype Tile = Tile(x: nat, y: nat)

  type PodTile = t: Tile | t.x < 16 && t.y < 8 witness Tile(0, 0)

  const CENTER: PodTile := Tile(8, 4)

  datatype Pc =
    | Out
    | Join(k: nat, ok: bool)     // about to read word k of the row flags
    | Relay                      // about to write the row's byte at the center
    | JoinCol(k: nat, ok: bool)  // about to read word k of the column flags
    | Wake(i: nat)               // the center's 16 notifications
    | WaitLr
    | WaitLrAq
    | Fan(i: nat)                // column 7 notifies three other quads
    | Buddy                      // notify the tile to the left in the quad
    | Flip

  /** A tile's program counter, its copy of the barrier struct, and how many barriers it has
      completed. */
  datatype Cell = Cell(
    pc: Pc,
    round: nat,
    sense: bool,
    notify: bool,
    reserved: bool,
    row: seq<bool>,
    col: seq<bool>)

  type State = map<Tile, Cell>

  ghost predicate Valid(s: State) {
    forall t: PodTile :: t in s && |s[t].row| == 16 && |s[t].col| == 8 && PcOk(s[t].pc)
  }

  predicate PcOk(pc: Pc) {
    match pc
    case Join(k, _) => k < 4
    case JoinCol(k, _) => k < 2
    case Wake(i) => i < 16
    case Fan(i) => i < 3
    case _ => true
  }

  /** The byte of the row flags that the tile in column x writes. */
  function Offset(x: nat): (o: nat)
    ensures o < 16
  {
    (x % 4) * 4 + (x / 4) % 4
  }

  /** Each of the 16 columns has its own byte, and word k holds those of columns k, k + 4, .. */
  lemma OffsetIsPacking(x: nat, x': nat)
    requires x < 16 && x' < 16
    ensures Offset(x) == Offset(x') ==> x == x'
    ensures 4 * (x % 4) <= Offset(x) < 4 * (x % 4) + 4
  {
  }

  function BuddyOf(t: PodTile): PodTile {
    if t.x % 4 == 0 then t else Tile(t.x - 1, t.y)
  }

  function WakeTarget(i: nat): PodTile
    requires i < 16
  {
    if i < 8 then Tile(7, i) else Tile(8, i - 8)
  }

  function FanTarget(i: nat, y: nat): PodTile
    requires i < 3 && y < 8
  {
    if i == 0 then Tile(3, y) else if i == 1 then Tile(11, y) else Tile(15, y)
  }

  /** All four bytes of word k hold v. */
  predicate WordIs(bytes: seq<bool>, k: nat, v: bool)
    requires 4 * k + 4 <= |bytes|
  {
    bytes[4 * k] == v && bytes[4 * k + 1] == v && bytes[4 * k + 2] == v && bytes[4 * k + 3] == v
  }

  function Goto(s: State, t: PodTile, pc: Pc): (s': State)
    requires Valid(s) && PcOk(pc)
    ensures Valid(s')
  {
    s[t := s[t].(pc := pc)]
  }

  function StoreNotify(s: State, t: PodTile, v: bool): (s': State)
    requires Valid(s)
    ensures Valid(s')
  {
    s[t := s[t].(notify := v, reserved := false)]
  }

  /** The byte tile u writes at the head of its row. */
  function RowFlag(s: State, u: PodTile): bool
    requires Valid(s)
  {
    s[Tile(8, u.y)].row[Offset(u.x)]
  }

  function StoreRow(s: State, t: PodTile, v: bool): (s': State)
    requires Valid(s)
    ensures Valid(s')
    ensures forall u: PodTile :: RowFlag(s', u) == (if u == t then v else RowFlag(s, u))
    ensures forall u: PodTile :: s'[u] == s[u].(row := s'[u].row)
  {
    var h: PodTile := Tile(8, t.y);
    assert forall u: PodTile {:trigger Offset(u.x)} :: Offset(u.x) == Offset(t.x) ==> u.x == t.x by {
      forall u: PodTile { OffsetIsPacking(u.x, t.x); }
    }
    s[h := s[h].(row := s[h].row[Offset(t.x) := v])]
  }

  function StoreCol(s: State, y: nat, v: bool): (s': State)
    requires Valid(s) && y < 8
    ensures Valid(s')
  {
    s[CENTER := s[CENTER].(col := s[CENTER].col[y := v])]
  }

  function Reserve(s: State, t: PodTile): (s': State)
    requires Valid(s)
    ensures Valid(s')
  {
    s[t := s[t].(reserved := true)]
  }

  /** Where a tile goes from its arrival. */
  function Waiting(t: PodTile): Pc {
    if t.x == 8 then Join(0, false) else WaitLr
  }

  /** Where the head of a row goes from its relay. */
  function AfterRelay(t: PodTile): Pc {
    if t.y == CENTER.y then JoinCol(0, false) else WaitLr
  }

  function Awake(t: PodTile): Pc {
    if t.x == 7 then Fan(0) else Buddy
  }

  /** The four row words are read in two pairs; a pair that is not complete is read again. */
  function AfterRead(k: nat, ok: bool, here: bool): Pc
    requires k < 4
  {
    if k % 2 == 0 then Join(k + 1, here)
    else if !(ok && here) then Join(k - 1, false)
    else if k == 1 then Join(2, false)
    else Relay
  }

  /** A tile leaves the barrier with its sense inverted. */
  function Flipped(c: Cell): Cell {
    c.(pc := Out, sense := !c.sense, round := c.round + 1)
  }

  function Init(): (s: State)
    ensures Valid(s)
  {
    var cell := Cell(Out, 0, true, false, false, seq(16, _ => false), seq(8, _ => false));
    map x: nat, y: nat | x < 16 && y < 8 :: Tile(x, y) := cell
  }

  /** One atomic step of tile t. */
  function Step(s: State, t: PodTile): (s': State)
    requires Valid(s)
    ensures Valid(s')
  {
    var c := s[t];
    var v := c.sense;
    match c.pc
    case Out =>
      Goto(StoreRow(s, t, v), t, Waiting(t))
    case Join(k, ok) =>
      var here := WordIs(c.row, k, v);
      Goto(s, t, AfterRead(k, ok, here))
    case Relay =>
      Goto(StoreCol(s, t.y, v), t, AfterRelay(t))
    case JoinCol(k, ok) =>
      var here := WordIs(c.col, k, v);
      Goto(s, t, if k == 0 then JoinCol(1, here)
                 else if ok && here then Wake(0)
                 else JoinCol(0, false))
    case Wake(i) =>
      Goto(StoreNotify(s, WakeTarget(i), v), t, if i == 15 then Flip else Wake(i + 1))
    case WaitLr =>
      Goto(Reserve(s, t), t, if c.notify == v then Awake(t) else WaitLrAq)
    case WaitLrAq =>
      if c.reserved then s else Goto(s, t, Awake(t))
    case Fan(i) =>
      Goto(StoreNotify(s, FanTarget(i, t.y), v), t, if i == 2 then Buddy else Fan(i + 1))
    case Buddy =>
      Goto(StoreNotify(s, BuddyOf(t), v), t, Flip)
    case Flip =>
      s[t := Flipped(c)]
  }

  function Exec(s: State, sched: seq<PodTile>): (s': State)
    requires Valid(s)
    ensures Valid(s')
  {
    if sched == [] then s else Step(Exec(s, sched[..|sched| - 1]), sched[|sched| - 1])
  }

  // ---------------------------------------------------------------------------------------
  // Counting rounds.

  function EnteredBy(c: Cell): nat {
    c.round + (if c.pc.Out? then 0 else 1)
  }

  function PassedBy(c: Cell): nat {
    c.round + (if c.pc.Wake? || c.pc.Fan? || c.pc.Buddy? || c.pc.Flip? then 1 else 0)
  }

  function RelayedBy(h: Cell): nat {
    h.round + (if h.pc.Out? || h.pc.Join? || h.pc.Relay? then 0 else 1)
  }

  /** Barriers tile t has entered, those whose wait it has passed, and those it has returned
      from. */
  function Entered(s: State, t: PodTile): nat
    requires t in s
  {
    EnteredBy(s[t])
  }

  function Passed(s: State, t: PodTile): nat
    requires t in s
  {
    PassedBy(s[t])
  }

  /** Times the head of row y has written the row's byte at the center. */
  function Relayed(s: State, y: nat): nat
    requires y < 8 && Tile(8, y) in s
  {
    RelayedBy(s[Tile(8, y)])
  }

  /** No tile has passed a wait that some tile has not even entered. */
  ghost predicate Safe(s: State)
    requires Valid(s)
  {
    forall t: PodTile, u: PodTile :: Passed(s, t) <= Entered(s, u)
  }

  /** The flag value after n rounds. */
  predicate Bit(n: nat) {
    n % 2 == 1
  }

  /** How often a tile has made store number k of its notification sequence: the center's
      sixteen, column 7's three and then its buddy's, and any other tile's buddy store, which
      has number 3. */
  function Made(c: Cell, k: nat): nat {
    c.round + (if c.pc.Flip? || (c.pc.Wake? && c.pc.i > k) || (c.pc.Fan? && c.pc.i > k) || (c.pc.Buddy? && k < 3)
               then 1 else 0)
  }

  /** Store number k is one that tile w makes. */
  predicate Numbered(w: PodTile, k: nat) {
    k == 3 || (k < 3 && w.x == 7) || (k < 16 && w == CENTER)
  }

  /** Notifications tile t has been sent by its designated writer: the center for column 7,
      column 7 for the last tile of another quad, and otherwise the right neighbour. */
  function Sent(s: State, t: PodTile): nat
    requires Valid(s) && t.x != 8
  {
    if t.x == 7 then Made(s[CENTER], t.y)
    else if t.x == 3 then Made(s[Tile(7, t.y)], 0)
    else if t.x == 11 then Made(s[Tile(7, t.y)], 1)
    else if t.x == 15 then Made(s[Tile(7, t.y)], 2)
    else Made(s[Tile(t.x + 1, t.y)], 3)
  }

  /** Column 8 is notified by the center and by its right neighbour. */
  function SentByCenter(s: State, y: nat): nat
    requires Valid(s) && y < 8
  {
    Made(s[CENTER], 8 + y)
  }

  function SentByBuddy(s: State, y: nat): nat
    requires Valid(s) && y < 8
  {
    Made(s[Tile(9, y)], 3)
  }

  function Notices(s: State, t: PodTile): nat
    requires Valid(s)
  {
    if t.x != 8 then Sent(s, t)
    else if SentByCenter(s, t.y) >= SentByBuddy(s, t.y) then SentByCenter(s, t.y)
    else SentByBuddy(s, t.y)
  }

  /** Word k of the row flags has been read as complete in the current round. */
  predicate SeenRow(pc: Pc, k: nat) {
    || pc.Relay?
    || (pc.Join? && k < 2 && pc.k >= 2)
    || (pc.Join? && k % 2 == 0 && pc.k == k + 1 && pc.ok)
  }

  predicate SeenCol(pc: Pc, k: nat) {
    pc.JoinCol? && k == 0 && pc.k == 1 && pc.ok
  }

  predicate Shape(t: PodTile, pc: Pc) {
    && (pc.Join? || pc.Relay? ==> t.x == 8)
    && (pc.JoinCol? || pc.Wake? ==> t == CENTER)
    && (pc.Fan? ==> t.x == 7)
    && (pc.WaitLr? || pc.WaitLrAq? || pc.Buddy? ==> t != CENTER)
  }

  /** All that the invariant says about tile t is said of these values. */
  datatype View = View(
    pc: Pc,
    round: nat,
    sense: bool,
    notify: bool,
    reserved: bool,
    rowFlag: bool,      // the byte t writes at the head of its row
    colFlag: bool,      // the byte the head of the row writes at the center
    entered: nat,
    passed: nat,
    relayed: nat,
    notices: nat,
    headRound: nat,
    seenRow: bool,      // the head has seen t's byte in this round
    centerPassed: nat,
    centerRound: nat,
    seenCol: bool)      // the center has seen the row's byte in this round

  /** From the cells of tile t, of the head of its row and of the center. */
  function ViewFrom(t: PodTile, c: Cell, h: Cell, m: Cell, notices: nat): View
    requires |h.row| == 16 && |m.col| == 8
  {
    View(c.pc, c.round, c.sense, c.notify, c.reserved,
         h.row[Offset(t.x)], m.col[t.y],
         EnteredBy(c), PassedBy(c), RelayedBy(h), notices,
         h.round, SeenRow(h.pc, t.x % 4),
         PassedBy(m), m.round, SeenCol(m.pc, t.y / 4))
  }

  function ViewOf(s: State, t: PodTile): View
    requires Valid(s)
  {
    ViewFrom(t, s[t], s[Tile(8, t.y)], s[CENTER], Notices(s, t))
  }

  /** What holds of tile t in every run without a stray wake-up. */
  predicate ViewOk(t: PodTile, v: View) {
    && v.sense == Bit(v.round + 1)
    && Shape(t, v.pc)
    && v.rowFlag == Bit(v.entered)
    && v.passed <= v.centerPassed <= v.relayed <= v.entered
    && (v.seenRow ==> v.entered == v.headRound + 1)
    && v.colFlag == Bit(v.relayed)
    && (v.seenCol ==> v.relayed == v.centerRound + 1)
    && (t != CENTER ==>
          && v.passed <= v.notices <= v.centerPassed
          && v.notify == Bit(v.notices)
          && (v.pc.WaitLrAq? ==> (v.reserved <==> v.notices == v.round)))
  }

  ghost predicate TileOk(s: State, t: PodTile)
    requires Valid(s)
  {
    ViewOk(t, ViewOf(s, t))
  }

  ghost predicate Inv(s: State) {
    Valid(s) && forall t: PodTile :: TileOk(s, t)
  }

  lemma InitInv()
    ensures Inv(Init())
  {
  }

  /** The next step of tile t is the center's notification of a tile of column 8 that has
      already gone to sleep in the following barrier. */
  predicate Stray(s: State, t: PodTile)
    requires Valid(s)
  {
    && t == CENTER && s[t].pc.Wake? && s[t].pc.i >= 8
    && var u := WakeTarget(s[t].pc.i);
    && u != CENTER && s[u].pc.WaitLrAq? && s[u].reserved && s[u].round > s[t].round
  }

  // ---------------------------------------------------------------------------------------
  // Every step that is not a stray wake-up keeps the invariant.

  /** No notification is made between s and s'. */
  ghost predicate SamePosts(s: State, s': State)
    requires Valid(s) && Valid(s')
  {
    forall w: PodTile, k: nat {:trigger Made(s'[w], k)} ::
      Numbered(w, k) ==> Made(s'[w], k) == Made(s[w], k)
  }

  lemma SameNotices(s: State, s': State, u: PodTile)
    requires Valid(s) && Valid(s') && SamePosts(s, s')
    ensures Notices(s', u) == Notices(s, u)
  {
  }

  /** What views take from a head's cell, but for the row flags, is the same. */
  ghost predicate SameHead(h: Cell, h': Cell) {
    h'.round == h.round && RelayedBy(h') == RelayedBy(h) && forall k: nat :: SeenRow(h'.pc, k) == SeenRow(h.pc, k)
  }

  /** And what they take from the center's cell. */
  ghost predicate SameCenter(m: Cell, m': Cell) {
    && m'.round == m.round && m'.col == m.col && PassedBy(m') == PassedBy(m)
    && forall k: nat :: SeenCol(m'.pc, k) == SeenCol(m.pc, k)
  }

  lemma ArriveCell(s: State, t: PodTile, s': State, v: PodTile)
    requires Valid(s) && s[t].pc.Out?
    requires Valid(s') && s' == Goto(StoreRow(s, t, s[t].sense), t, Waiting(t))
    ensures s'[v] == s[v].(row := s'[v].row, pc := if v == t then Waiting(t) else s[v].pc)
    ensures RowFlag(s', v) == if v == t then s[t].sense else RowFlag(s, v)
  {
    assert RowFlag(s', v) == RowFlag(StoreRow(s, t, s[t].sense), v);
  }

  lemma ArriveSame(c: Cell, c': Cell, t: PodTile)
    requires c' == c.(row := c'.row, pc := c'.pc) && (c'.pc == c.pc || (c.pc.Out? && c'.pc == Waiting(t)))
    ensures SameCenter(c, c') && PassedBy(c') == PassedBy(c) && (c'.pc == c.pc || t.x == 8 ==> SameHead(c, c'))
    ensures EnteredBy(c') == if c.pc.Out? && !c'.pc.Out? then c.round + 1 else EnteredBy(c)
  {
  }

  lemma ArrivedView(u: PodTile, c: Cell, h: Cell, m: Cell, n: nat, c': Cell, h': Cell, m': Cell)
    requires |h.row| == |h'.row| == 16 && |m.col| == |m'.col| == 8 && SameHead(h, h') && SameCenter(m, m')
    requires c' == c.(row := c'.row, pc := c'.pc) && PassedBy(c') == PassedBy(c)
    ensures ViewFrom(u, c', h', m', n) ==
      ViewFrom(u, c, h, m, n).(pc := c'.pc, rowFlag := h'.row[Offset(u.x)], entered := EnteredBy(c'))
  {
  }

  lemma ArriveNotices(s: State, t: PodTile, u: PodTile, s': State)
    requires Valid(s) && s[t].pc.Out?
    requires Valid(s') && s' == Goto(StoreRow(s, t, s[t].sense), t, Waiting(t))
    ensures Notices(s', u) == Notices(s, u)
  {
    SameNotices(s, s', u);
  }

  lemma ArriveView(s: State, t: PodTile, u: PodTile, s': State)
    requires Valid(s) && s[t].pc.Out?
    requires Valid(s') && s' == Goto(StoreRow(s, t, s[t].sense), t, Waiting(t))
    ensures ViewOf(s', u) ==
      ViewOf(s, u).(pc := s'[u].pc, rowFlag := RowFlag(s', u), entered := EnteredBy(s'[u]))
  {
    var h: PodTile := Tile(8, u.y);
    ArriveNotices(s, t, u, s');
    ArriveCell(s, t, s', u);
    ArriveCell(s, t, s', h);
    ArriveCell(s, t, s', CENTER);
    ArriveSame(s[u], s'[u], t);
    ArriveSame(s[h], s'[h], t);
    ArriveSame(s[CENTER], s'[CENTER], t);
    ArrivedView(u, s[u], s[h], s[CENTER], Notices(s, u), s'[u], s'[h], s'[CENTER]);
  }

  lemma ArriveKeeps(s: State, t: PodTile, u: PodTile, s': State)
    requires Valid(s) && TileOk(s, u) && s[t].pc.Out?
    requires Valid(s') && s' == Goto(StoreRow(s, t, s[t].sense), t, Waiting(t))
    ensures TileOk(s', u)
  {
    ArriveView(s, t, u, s');
    ArriveCell(s, t, s', u);
    ArrivedOk(t, u, ViewOf(s, u), ViewOf(s', u));
  }

  lemma ArrivedOk(t: PodTile, u: PodTile, v: View, v': View)
    requires ViewOk(u, v)
    requires v' == if u == t then v.(pc := Waiting(t), rowFlag := v.sense, entered := v.round + 1) else v
    requires u == t ==> v.pc.Out? && v.entered == v.passed == v.round && (v.seenRow ==> v.relayed == v.headRound)
    ensures ViewOk(u, v')
  {
  }

  /** Where only program counters have changed. */
  lemma PcView(u: PodTile, c: Cell, h: Cell, m: Cell, n: nat, c': Cell, h': Cell, m': Cell)
    requires |h.row| == 16 && |m.col| == 8
    requires c' == c.(pc := c'.pc) && h' == h.(pc := h'.pc) && m' == m.(pc := m'.pc)
    ensures ViewFrom(u, c', h', m', n) ==
      ViewFrom(u, c, h, m, n).(pc := c'.pc, entered := EnteredBy(c'), passed := PassedBy(c'), relayed := RelayedBy(h'),
                               seenRow := SeenRow(h'.pc, u.x % 4), centerPassed := PassedBy(m'),
                               seenCol := SeenCol(m'.pc, u.y / 4))
  {
  }

  lemma ReadRowNotices(s: State, t: PodTile, u: PodTile, s': State, pc: Pc)
    requires Valid(s) && s[t].pc.Join? && t.x == 8 && PcOk(pc) && (pc.Join? || pc.Relay?)
    requires Valid(s') && s' == Goto(s, t, pc)
    ensures Notices(s', u) == Notices(s, u)
  {
    SameNotices(s, s', u);
  }

  lemma ReadRowSame(c: Cell, c': Cell)
    requires c' == c.(pc := c'.pc) && (c' == c || (c.pc.Join? && (c'.pc.Join? || c'.pc.Relay?)))
    ensures EnteredBy(c') == EnteredBy(c) && PassedBy(c') == PassedBy(c) && RelayedBy(c') == RelayedBy(c)
    ensures forall k: nat :: SeenCol(c'.pc, k) == SeenCol(c.pc, k)
  {
  }

  lemma ReadRowView(s: State, t: PodTile, u: PodTile, s': State, pc: Pc)
    requires Valid(s) && s[t].pc.Join? && t.x == 8 && PcOk(pc) && (pc.Join? || pc.Relay?)
    requires Valid(s') && s' == Goto(s, t, pc)
    ensures ViewOf(s', u) == ViewOf(s, u).(pc := s'[u].pc, seenRow := SeenRow(s'[Tile(8, u.y)].pc, u.x % 4))
  {
    var h: PodTile := Tile(8, u.y);
    ReadRowNotices(s, t, u, s', pc);
    ReadRowSame(s[u], s'[u]);
    ReadRowSame(s[h], s'[h]);
    ReadRowSame(s[CENTER], s'[CENTER]);
    PcView(u, s[u], s[h], s[CENTER], Notices(s, u), s'[u], s'[h], s'[CENTER]);
  }

  /** A row flag that shows the current sense belongs to a tile that has entered the round. */
  lemma RowFlagMeansEntered(s: State, t: PodTile, u: PodTile)
    requires Valid(s) && TileOk(s, t) && TileOk(s, u) && s[t].pc.Join? && t.x == 8 && t.y == u.y
    ensures WordIs(s[t].row, u.x % 4, s[t].sense) ==> Entered(s, u) == s[t].round + 1
  {
    assert s[t].sense == Bit(s[t].round + 1);
    assert RowFlag(s, u) == Bit(Entered(s, u)) && s[t].round <= Entered(s, u) <= s[t].round + 1;
    WordHolds(s[t].row, u.x, s[t].sense);
  }

  /** The byte of column x is in word x % 4. */
  lemma WordHolds(bytes: seq<bool>, x: nat, v: bool)
    requires |bytes| == 16 && x < 16
    ensures WordIs(bytes, x % 4, v) ==> bytes[Offset(x)] == v
  {
    OffsetIs(x, x / 4, x % 4);
  }

  lemma ReadRowSeen(pc: Pc, here: bool, w: nat)
    requires pc.Join? && pc.k < 4 && w < 4 && SeenRow(AfterRead(pc.k, pc.ok, here), w)
    ensures SeenRow(pc, w) || (w == pc.k && here)
  {
  }

  lemma ReadRowOk(u: PodTile, v: View, v': View)
    requires ViewOk(u, v) && v' == v.(pc := v'.pc, seenRow := v'.seenRow)
    requires v'.seenRow ==> v.entered == v.headRound + 1
    requires v'.pc == v.pc || (Shape(u, v'.pc) && !v'.pc.WaitLrAq?)
    ensures ViewOk(u, v')
  {
  }

  lemma ReadRowKeeps(s: State, t: PodTile, u: PodTile, s': State, pc: Pc)
    requires Valid(s) && TileOk(s, u) && s[t].pc.Join? && t.x == 8 && PcOk(pc) && (pc.Join? || pc.Relay?)
    requires Valid(s') && s' == Goto(s, t, pc)
    requires t.y == u.y && SeenRow(pc, u.x % 4) ==> Entered(s, u) == s[t].round + 1
    ensures TileOk(s', u)
  {
    ReadRowView(s, t, u, s', pc);
    ReadRowOk(u, ViewOf(s, u), ViewOf(s', u));
  }

  lemma ReadRowStep(s: State, t: PodTile, u: PodTile)
    requires Valid(s) && TileOk(s, u) && TileOk(s, t) && s[t].pc.Join?
    ensures TileOk(Step(s, t), u)
  {
    var here := WordIs(s[t].row, s[t].pc.k, s[t].sense);
    var pc := AfterRead(s[t].pc.k, s[t].pc.ok, here);
    if t.y == u.y && SeenRow(pc, u.x % 4) {
      RowFlagMeansEntered(s, t, u);
      ReadRowSeen(s[t].pc, here, u.x % 4);
    }
    ReadRowKeeps(s, t, u, Step(s, t), pc);
  }

  lemma RelayNotices(s: State, t: PodTile, u: PodTile, s': State)
    requires Valid(s) && s[t].pc.Relay? && t.x == 8
    requires Valid(s') && s' == Goto(StoreCol(s, t.y, s[t].sense), t, AfterRelay(t))
    ensures Notices(s', u) == Notices(s, u)
  {
    SameNotices(s, s', u);
  }

  lemma RelayCell(s: State, t: PodTile, s': State, v: PodTile)
    requires Valid(s) && s[t].pc.Relay? && t.x == 8
    requires Valid(s') && s' == Goto(StoreCol(s, t.y, s[t].sense), t, AfterRelay(t))
    ensures s'[v] == s[v].(col := s'[v].col, pc := if v == t then AfterRelay(t) else s[v].pc)
    ensures s'[CENTER].col == s[CENTER].col[t.y := s[t].sense]
  {
  }

  lemma RelaySame(c: Cell, c': Cell, t: PodTile)
    requires c' == c.(col := c'.col, pc := c'.pc) && (c'.pc == c.pc || (c.pc.Relay? && c'.pc == AfterRelay(t)))
    ensures EnteredBy(c') == EnteredBy(c) && PassedBy(c') == PassedBy(c)
    ensures forall k: nat :: SeenCol(c'.pc, k) == SeenCol(c.pc, k)
    ensures RelayedBy(c') == if c'.pc == c.pc then RelayedBy(c) else c.round + 1
    ensures forall k: nat :: SeenRow(c'.pc, k) == (c'.pc == c.pc && SeenRow(c.pc, k))
  {
  }

  lemma RelayedView(u: PodTile, c: Cell, h: Cell, m: Cell, n: nat, c': Cell, h': Cell, m': Cell)
    requires |h.row| == |h'.row| == 16 && |m.col| == |m'.col| == 8
    requires c' == c.(col := c'.col, pc := c'.pc) && EnteredBy(c') == EnteredBy(c) && PassedBy(c') == PassedBy(c)
    requires h' == h.(col := h'.col, pc := h'.pc) && m' == m.(col := m'.col, pc := m'.pc) && PassedBy(m') == PassedBy(m)
    requires forall k: nat :: SeenCol(m'.pc, k) == SeenCol(m.pc, k)
    ensures ViewFrom(u, c', h', m', n) ==
      ViewFrom(u, c, h, m, n).(pc := c'.pc, colFlag := m'.col[u.y], relayed := RelayedBy(h'),
                               seenRow := SeenRow(h'.pc, u.x % 4))
  {
  }

  lemma RelayView(s: State, t: PodTile, u: PodTile, s': State)
    requires Valid(s) && s[t].pc.Relay? && t.x == 8
    requires Valid(s') && s' == Goto(StoreCol(s, t.y, s[t].sense), t, AfterRelay(t))
    ensures ViewOf(s', u) ==
      if u.y == t.y
      then ViewOf(s, u).(pc := s'[u].pc, colFlag := s[t].sense, relayed := s[t].round + 1, seenRow := false)
      else ViewOf(s, u)
  {
    var h: PodTile := Tile(8, u.y);
    RelayNotices(s, t, u, s');
    RelayCell(s, t, s', u);
    RelayCell(s, t, s', h);
    RelayCell(s, t, s', CENTER);
    RelaySame(s[u], s'[u], t);
    RelaySame(s[h], s'[h], t);
    RelaySame(s[CENTER], s'[CENTER], t);
    RelayedView(u, s[u], s[h], s[CENTER], Notices(s, u), s'[u], s'[h], s'[CENTER]);
  }

  lemma RelayedOk(u: PodTile, v: View, v': View)
    requires ViewOk(u, v)
    requires v' == v.(pc := v'.pc, colFlag := Bit(v.headRound + 1), relayed := v.headRound + 1, seenRow := false)
    requires v.seenRow && v.relayed == v.headRound <= v.centerPassed
    requires v.seenCol ==> v.centerPassed == v.centerRound
    requires v'.pc == v.pc || (Shape(u, v'.pc) && v.pc.Relay?)
    requires v'.pc.WaitLrAq? ==> v.pc.WaitLrAq?
    ensures ViewOk(u, v')
  {
  }

  lemma RelayerFacts(s: State, t: PodTile, u: PodTile)
    requires Valid(s) && TileOk(s, t) && s[t].pc.Relay? && u.y == t.y
    ensures t.x == 8 && s[t].sense == Bit(s[t].round + 1) && s[t].round <= Passed(s, CENTER)
    ensures
      var v := ViewOf(s, u);
      && v.seenRow && v.relayed == v.headRound == s[t].round
      && (v.seenCol ==> v.centerPassed == v.centerRound)
  {
  }

  lemma RelayInRow(s: State, t: PodTile, u: PodTile, s': State)
    requires Valid(s) && TileOk(s, u) && TileOk(s, t) && s[t].pc.Relay? && u.y == t.y && t.x == 8
    requires Valid(s') && s' == Goto(StoreCol(s, t.y, s[t].sense), t, AfterRelay(t))
    ensures TileOk(s', u)
  {
    RelayView(s, t, u, s');
    RelayerFacts(s, t, u);
    RelayedOk(u, ViewOf(s, u), ViewOf(s', u));
  }

  lemma RelayKeeps(s: State, t: PodTile, u: PodTile)
    requires Valid(s) && TileOk(s, u) && TileOk(s, t) && s[t].pc.Relay?
    ensures TileOk(Step(s, t), u)
  {
    PosterFacts(s, t);
    if u.y == t.y {
      RelayInRow(s, t, u, Step(s, t));
    } else {
      RelayView(s, t, u, Step(s, t));
    }
  }

  lemma ReadColView(s: State, u: PodTile, s': State, pc: Pc)
    requires Valid(s) && s[CENTER].pc.JoinCol? && PcOk(pc) && (pc.JoinCol? || pc == Wake(0))
    requires Valid(s') && s' == Goto(s, CENTER, pc)
    ensures ViewOf(s', u) ==
      ViewOf(s, u).(pc := s'[u].pc, seenCol := SeenCol(pc, u.y / 4), passed := Passed(s', u),
                    centerPassed := s[CENTER].round + (if pc.Wake? then 1 else 0))
    ensures u != CENTER ==> Passed(s', u) == Passed(s, u)
  {
    assert Notices(s', u) == Notices(s, u) by { SameNotices(s, s', u); }
  }

  lemma ColHolds(bytes: seq<bool>, y: nat, v: bool)
    requires |bytes| == 8 && y < 8
    ensures WordIs(bytes, y / 4, v) ==> bytes[y] == v
  {
    assert y == 4 * (y / 4) + y % 4;
  }

  lemma ColFlagMeansRelayed(s: State, u: PodTile)
    requires Valid(s) && TileOk(s, CENTER) && TileOk(s, u) && s[CENTER].pc.JoinCol?
    ensures WordIs(s[CENTER].col, u.y / 4, s[CENTER].sense) ==> Relayed(s, u.y) == s[CENTER].round + 1
  {
    assert s[CENTER].sense == Bit(s[CENTER].round + 1);
    assert s[CENTER].col[u.y] == Bit(Relayed(s, u.y));
    assert s[CENTER].round <= Relayed(s, u.y) <= s[CENTER].round + 1;
    ColHolds(s[CENTER].col, u.y, s[CENTER].sense);
  }

  lemma ReadColOk(u: PodTile, v: View, v': View)
    requires ViewOk(u, v) && v.centerPassed == v.centerRound
    requires v' == v.(pc := v'.pc, seenCol := v'.seenCol, passed := v'.passed, centerPassed := v'.centerPassed)
    requires v'.centerPassed == v.centerPassed || (v'.centerPassed == v.centerPassed + 1 == v.relayed)
    requires v'.seenCol ==> v.relayed == v.centerRound + 1
    requires if u == CENTER then Shape(u, v'.pc) && v'.passed == v'.centerPassed
             else v'.pc == v.pc && v'.passed == v.passed
    ensures ViewOk(u, v')
  {
  }

  lemma ReadColKeeps(s: State, u: PodTile, s': State, pc: Pc)
    requires Valid(s) && TileOk(s, u) && s[CENTER].pc.JoinCol? && PcOk(pc) && (pc.JoinCol? || pc == Wake(0))
    requires Valid(s') && s' == Goto(s, CENTER, pc)
    requires SeenCol(pc, u.y / 4) || pc.Wake? ==> Relayed(s, u.y) == s[CENTER].round + 1
    ensures TileOk(s', u)
  {
    ReadColView(s, u, s', pc);
    ReadColOk(u, ViewOf(s, u), ViewOf(s', u));
  }

  lemma ReadColStep(s: State, t: PodTile, u: PodTile)
    requires Valid(s) && TileOk(s, u) && TileOk(s, t) && s[t].pc.JoinCol?
    ensures TileOk(Step(s, t), u)
  {
    ColFlagMeansRelayed(s, u);
    assert u.y / 4 == 0 || u.y / 4 == 1;
    ReadColKeeps(s, u, Step(s, t), Step(s, t)[t].pc);
  }

  lemma WaitNotices(s: State, t: PodTile, u: PodTile, s': State, pc: Pc, reserved: bool)
    requires Valid(s) && (s[t].pc.WaitLr? || s[t].pc.WaitLrAq?) && t != CENTER
    requires pc == WaitLrAq || pc == Awake(t)
    requires Valid(s') && s' == s[t := s[t].(pc := pc, reserved := reserved)]
    ensures Notices(s', u) == Notices(s, u)
  {
    SameNotices(s, s', u);
  }

  lemma WaitSame(c: Cell, c': Cell)
    requires c' == c || ((c.pc.WaitLr? || c.pc.WaitLrAq?) && (c'.pc.WaitLrAq? || c'.pc.Fan? || c'.pc.Buddy?))
    requires c' == c.(pc := c'.pc, reserved := c'.reserved)
    ensures EnteredBy(c') == EnteredBy(c) && SameHead(c, c') && forall k: nat :: SeenCol(c'.pc, k) == SeenCol(c.pc, k)
  {
  }

  lemma WaitedView(u: PodTile, c: Cell, h: Cell, m: Cell, n: nat, c': Cell, h': Cell)
    requires |h.row| == |h'.row| == 16 && |m.col| == 8 && h'.row == h.row && SameHead(h, h')
    requires c' == c.(pc := c'.pc, reserved := c'.reserved) && EnteredBy(c') == EnteredBy(c)
    ensures ViewFrom(u, c', h', m, n) ==
      ViewFrom(u, c, h, m, n).(pc := c'.pc, reserved := c'.reserved, passed := PassedBy(c'))
  {
  }

  lemma WaitView(s: State, t: PodTile, u: PodTile, s': State, pc: Pc, reserved: bool)
    requires Valid(s) && (s[t].pc.WaitLr? || s[t].pc.WaitLrAq?) && t != CENTER
    requires pc == WaitLrAq || pc == Awake(t)
    requires Valid(s') && s' == s[t := s[t].(pc := pc, reserved := reserved)]
    ensures ViewOf(s', u) ==
      ViewOf(s, u).(pc := s'[u].pc, reserved := s'[u].reserved, passed := PassedBy(s'[u]))
  {
    var h: PodTile := Tile(8, u.y);
    WaitNotices(s, t, u, s', pc, reserved);
    WaitSame(s[u], s'[u]);
    WaitSame(s[h], s'[h]);
    WaitedView(u, s[u], s[h], s[CENTER], Notices(s, u), s'[u], s'[h]);
  }

  lemma WaitedOk(u: PodTile, v: View, v': View)
    requires ViewOk(u, v) && u != CENTER && v.passed == v.round && v.entered == v.round + 1
    requires v' == v.(pc := v'.pc, reserved := v'.reserved, passed := v.round + (if v'.pc.WaitLrAq? then 0 else 1))
    requires || (v.pc.WaitLr? && v'.reserved && v'.pc == if v.notify == v.sense then Awake(u) else WaitLrAq)
             || (v.pc.WaitLrAq? && !v.reserved && !v'.reserved && v'.pc == Awake(u))
    ensures ViewOk(u, v')
  {
  }

  lemma WaitOwn(s: State, t: PodTile, s': State, pc: Pc, reserved: bool)
    requires Valid(s) && TileOk(s, t)
    requires || (s[t].pc.WaitLr? && reserved && pc == if s[t].notify == s[t].sense then Awake(t) else WaitLrAq)
             || (s[t].pc.WaitLrAq? && !s[t].reserved && !reserved && pc == Awake(t))
    requires Valid(s') && s' == s[t := s[t].(pc := pc, reserved := reserved)]
    ensures TileOk(s', t)
  {
    WaitView(s, t, t, s', pc, reserved);
    WaitedOk(t, ViewOf(s, t), ViewOf(s', t));
  }

  lemma WaitOther(s: State, t: PodTile, u: PodTile, s': State, pc: Pc, reserved: bool)
    requires Valid(s) && (s[t].pc.WaitLr? || s[t].pc.WaitLrAq?) && t != CENTER && u != t && TileOk(s, u)
    requires pc == WaitLrAq || pc == Awake(t)
    requires Valid(s') && s' == s[t := s[t].(pc := pc, reserved := reserved)]
    ensures TileOk(s', u)
  {
    WaitView(s, t, u, s', pc, reserved);
    assert s'[u] == s[u];
  }

  lemma WaitStep(s: State, t: PodTile, u: PodTile)
    requires Valid(s) && TileOk(s, u) && TileOk(s, t) && (s[t].pc.WaitLr? || s[t].pc.WaitLrAq?)
    ensures TileOk(Step(s, t), u)
  {
    var s' := Step(s, t);
    if s' != s {
      if u == t {
        WaitOwn(s, t, s', s'[t].pc, s'[t].reserved);
      } else {
        PosterFacts(s, t);
        WaitOther(s, t, u, s', s'[t].pc, s'[t].reserved);
      }
    }
  }

  lemma FlipNotices(s: State, t: PodTile, u: PodTile, s': State)
    requires Valid(s) && s[t].pc.Flip? && Valid(s') && s' == s[t := Flipped(s[t])]
    ensures Notices(s', u) == Notices(s, u)
  {
    SameNotices(s, s', u);
  }

  predicate MayFlip(c: Cell, c': Cell) {
    c' == c || (c.pc.Flip? && c' == Flipped(c))
  }

  lemma FlipKeeps(c: Cell, c': Cell)
    requires MayFlip(c, c')
    ensures EnteredBy(c') == EnteredBy(c) && PassedBy(c') == PassedBy(c) && RelayedBy(c') == RelayedBy(c)
    ensures c'.row == c.row && c'.col == c.col && c'.notify == c.notify && c'.reserved == c.reserved
    ensures forall k: nat :: SeenRow(c'.pc, k) == SeenRow(c.pc, k)
    ensures forall k: nat :: SeenCol(c'.pc, k) == SeenCol(c.pc, k)
  {
  }

  lemma FlippedView(u: PodTile, c: Cell, h: Cell, m: Cell, n: nat, c': Cell, h': Cell, m': Cell)
    requires |h.row| == 16 && |m.col| == 8 && MayFlip(c, c') && MayFlip(h, h') && MayFlip(m, m')
    ensures ViewFrom(u, c', h', m', n) ==
      ViewFrom(u, c, h, m, n).(pc := c'.pc, round := c'.round, sense := c'.sense,
                               headRound := h'.round, centerRound := m'.round)
  {
    FlipKeeps(c, c');
    FlipKeeps(h, h');
    FlipKeeps(m, m');
  }

  lemma FlipView(s: State, t: PodTile, u: PodTile, s': State)
    requires Valid(s) && s[t].pc.Flip? && Valid(s') && s' == s[t := Flipped(s[t])]
    ensures ViewOf(s', u) ==
      ViewOf(s, u).(pc := s'[u].pc, round := s'[u].round, sense := s'[u].sense,
                    headRound := s'[Tile(8, u.y)].round, centerRound := s'[CENTER].round)
  {
    var h: PodTile := Tile(8, u.y);
    FlipNotices(s, t, u, s');
    FlippedView(u, s[u], s[h], s[CENTER], Notices(s, u), s'[u], s'[h], s'[CENTER]);
  }

  lemma FlipOwn(s: State, t: PodTile, s': State)
    requires Valid(s) && TileOk(s, t) && s[t].pc.Flip?
    requires Valid(s') && s' == s[t := Flipped(s[t])]
    ensures TileOk(s', t)
  {
    FlipView(s, t, t, s');
  }

  lemma FlipOther(s: State, t: PodTile, u: PodTile, s': State)
    requires Valid(s) && TileOk(s, u) && s[t].pc.Flip? && u != t
    requires Valid(s') && s' == s[t := Flipped(s[t])]
    ensures TileOk(s', u)
  {
    FlipView(s, t, u, s');
  }

  /** The store numbered k of tile t is the only notification made between s and s'. */
  ghost predicate PostsOnce(s: State, s': State, t: PodTile, k: nat)
    requires Valid(s) && Valid(s')
  {
    forall w: PodTile, j: nat {:trigger Made(s'[w], j)} ::
      Numbered(w, j) ==>
        Made(s'[w], j) == Made(s[w], j) + (if w == t && j == k then 1 else 0)
  }

  /** A notification changes the target's word and how often it has been notified. */
  ghost predicate Posts(s: State, t: PodTile, w: PodTile, s': State, pc: Pc)
    requires Valid(s)
  {
    && PcOk(pc) && Valid(s') && s' == Goto(StoreNotify(s, w, s[t].sense), t, pc)
    && (|| (s[t].pc.Wake? && (pc.Wake? || pc.Flip?))
        || (s[t].pc.Fan? && (pc.Fan? || pc.Buddy?))
        || (s[t].pc.Buddy? && pc.Flip?))
  }

  /** The cell of tile v after t has stored its sense at w and gone on to pc. */
  function Posted(c: Cell, v: PodTile, t: PodTile, w: PodTile, sense: bool, pc: Pc): Cell {
    var c1 := if v == w then c.(notify := sense, reserved := false) else c;
    if v == t then c1.(pc := pc) else c1
  }

  lemma PostedCell(s: State, t: PodTile, w: PodTile, s': State, pc: Pc, v: PodTile)
    requires Valid(s) && Posts(s, t, w, s', pc)
    ensures s'[v] == Posted(s[v], v, t, w, s[t].sense, pc)
  {
  }

  /** A tile that posts has passed its wait, and stays past it. */
  predicate StaysPassed(v: PodTile, t: PodTile, c: Cell, pc: Pc) {
    v == t ==>
      && (c.pc.Wake? || c.pc.Fan? || c.pc.Buddy?)
      && (pc.Wake? || pc.Fan? || pc.Buddy? || pc.Flip?)
  }

  /** All that a view takes from a head's or the center's cell is the same. */
  ghost predicate SameAtHead(c: Cell, c': Cell) {
    && c'.row == c.row && c'.col == c.col && c'.round == c.round && c'.sense == c.sense
    && EnteredBy(c') == EnteredBy(c) && PassedBy(c') == PassedBy(c) && RelayedBy(c') == RelayedBy(c)
    && (forall k: nat :: SeenRow(c'.pc, k) == SeenRow(c.pc, k))
    && (forall k: nat :: SeenCol(c'.pc, k) == SeenCol(c.pc, k))
  }

  lemma PostedKeeps(c: Cell, v: PodTile, t: PodTile, w: PodTile, sense: bool, pc: Pc)
    requires StaysPassed(v, t, c, pc)
    ensures SameAtHead(c, Posted(c, v, t, w, sense, pc))
  {
  }

  lemma SameView(u: PodTile, c: Cell, h: Cell, m: Cell, n: nat, c': Cell, h': Cell, m': Cell, n': nat)
    requires |h.row| == 16 && |m.col| == 8 && SameAtHead(c, c') && SameAtHead(h, h') && SameAtHead(m, m')
    ensures ViewFrom(u, c', h', m', n') ==
      ViewFrom(u, c, h, m, n).(pc := c'.pc, notify := c'.notify, reserved := c'.reserved, notices := n')
  {
  }

  lemma PostView(s: State, t: PodTile, w: PodTile, u: PodTile, s': State, pc: Pc)
    requires Valid(s) && Posts(s, t, w, s', pc)
    ensures ViewOf(s', u) ==
      ViewOf(s, u).(pc := if u == t then pc else ViewOf(s, u).pc,
                    notify := if u == w then s[t].sense else ViewOf(s, u).notify,
                    reserved := if u == w then false else ViewOf(s, u).reserved,
                    notices := Notices(s', u))
  {
    var h: PodTile := Tile(8, u.y);
    PostedCell(s, t, w, s', pc, u);
    PostedCell(s, t, w, s', pc, h);
    PostedCell(s, t, w, s', pc, CENTER);
    PostedKeeps(s[u], u, t, w, s[t].sense, pc);
    PostedKeeps(s[h], h, t, w, s[t].sense, pc);
    PostedKeeps(s[CENTER], CENTER, t, w, s[t].sense, pc);
    SameView(u, s[u], s[h], s[CENTER], Notices(s, u), s'[u], s'[h], s'[CENTER], Notices(s', u));
  }

  /** What a notification by t, in its round r, must leave of its target's facts: it is the
      target's next one, or one that the target has already seen from its other writer. */
  ghost predicate GoodNotice(s: State, u: PodTile, s': State, r: nat)
    requires Valid(s) && Valid(s')
  {
    || (Notices(s, u) == r < Passed(s, CENTER) && Notices(s', u) == r + 1)
    || (Notices(s, u) == r + 1 == Notices(s', u)
        && (s[u].pc.WaitLrAq? && s[u].reserved ==> s[u].round != r + 1))
  }

  lemma TargetOk(u: PodTile, v: View, v': View, r: nat)
    requires ViewOk(u, v) && u != CENTER && (v'.pc == v.pc || (Shape(u, v'.pc) && !v'.pc.WaitLrAq?))
    requires v' == v.(pc := v'.pc, notify := Bit(r + 1), reserved := false, notices := r + 1)
    requires v.pc.WaitLrAq? ==> v.passed == v.round
    requires || v.notices == r < v.centerPassed
             || (v.notices == r + 1 && (v.pc.WaitLrAq? && v.reserved ==> v.round != r + 1))
    ensures ViewOk(u, v')
  {
  }

  lemma TargetKeeps(s: State, t: PodTile, w: PodTile, s': State, pc: Pc)
    requires Valid(s) && Posts(s, t, w, s', pc) && w != CENTER && TileOk(s, w)
    requires s[t].sense == Bit(s[t].round + 1) && Shape(t, pc)
    requires GoodNotice(s, w, s', s[t].round)
    ensures TileOk(s', w)
  {
    PostView(s, t, w, w, s', pc);
    TargetOk(w, ViewOf(s, w), ViewOf(s', w), s[t].round);
  }

  lemma OtherOk(u: PodTile, v: View, v': View)
    requires ViewOk(u, v) && (v'.pc == v.pc || (Shape(u, v'.pc) && !v'.pc.WaitLrAq?))
    requires v' == v.(pc := v'.pc, notify := v'.notify, reserved := v'.reserved, notices := v'.notices)
    requires u == CENTER || (v'.notify == v.notify && v'.reserved == v.reserved && v'.notices == v.notices)
    ensures ViewOk(u, v')
  {
  }

  lemma OthersKeep(s: State, t: PodTile, w: PodTile, u: PodTile, s': State, pc: Pc)
    requires Valid(s) && Posts(s, t, w, s', pc) && TileOk(s, u) && Shape(t, pc)
    requires u == CENTER || (u != w && Notices(s', u) == Notices(s, u))
    ensures TileOk(s', u)
  {
    PostView(s, t, w, u, s', pc);
    OtherOk(u, ViewOf(s, u), ViewOf(s', u));
  }

  lemma WakeNotices(s: State, t: PodTile, i: nat, u: PodTile, s': State)
    requires Valid(s) && i < 16 && s[t].pc == Wake(i) && t == CENTER
    requires Valid(s') && PostsOnce(s, s', t, i)
    ensures u != WakeTarget(i) ==> Notices(s', u) == Notices(s, u)
    ensures u == WakeTarget(i) && u.x == 7 ==> Notices(s, u) == s[t].round && Notices(s', u) == s[t].round + 1
    ensures u == WakeTarget(i) && u.x == 8 ==>
      && Notices(s, u) >= s[t].round
      && Notices(s', u) == (if Notices(s, u) == s[t].round then s[t].round + 1 else Notices(s, u))
  {
    assert Made(s[t], i) == s[t].round;
  }

  lemma WakePosts(s: State, t: PodTile, i: nat, s': State)
    requires Valid(s) && i < 16 && s[t].pc == Wake(i) && t == CENTER
    requires Valid(s')
    requires s' == Goto(StoreNotify(s, WakeTarget(i), s[t].sense), t, if i == 15 then Flip else Wake(i + 1))
    ensures PostsOnce(s, s', t, i) && Posts(s, t, WakeTarget(i), s', s'[t].pc)
  {
  }

  /** What a tile knows of itself. */
  lemma PosterFacts(s: State, t: PodTile)
    requires Valid(s) && TileOk(s, t)
    ensures s[t].sense == Bit(s[t].round + 1) && Shape(t, s[t].pc)
  {
  }

  lemma WakeIsGood(s: State, i: nat, s': State)
    requires Valid(s) && i < 16 && s[CENTER].pc == Wake(i) && !Stray(s, CENTER) && WakeTarget(i) != CENTER
    requires TileOk(s, WakeTarget(i)) && Valid(s') && PostsOnce(s, s', CENTER, i)
    ensures GoodNotice(s, WakeTarget(i), s', s[CENTER].round)
  {
    WakeNotices(s, CENTER, i, WakeTarget(i), s');
  }

  lemma WakeKeeps(s: State, u: PodTile, i: nat, s': State, pc: Pc)
    requires Valid(s) && TileOk(s, u) && i < 16 && s[CENTER].pc == Wake(i) && !Stray(s, CENTER)
    requires s[CENTER].sense == Bit(s[CENTER].round + 1) && (pc.Wake? || pc.Flip?)
    requires Posts(s, CENTER, WakeTarget(i), s', pc) && PostsOnce(s, s', CENTER, i)
    ensures TileOk(s', u)
  {
    if u == WakeTarget(i) && u != CENTER {
      WakeIsGood(s, i, s');
      TargetKeeps(s, CENTER, u, s', pc);
    } else {
      WakeNotices(s, CENTER, i, u, s');
      OthersKeep(s, CENTER, WakeTarget(i), u, s', pc);
    }
  }

  lemma FanNotices(s: State, t: PodTile, i: nat, u: PodTile, s': State)
    requires Valid(s) && i < 3 && s[t].pc == Fan(i) && t.x == 7
    requires Valid(s') && PostsOnce(s, s', t, i)
    ensures Notices(s', u) == if u == FanTarget(i, t.y) then s[t].round + 1 else Notices(s, u)
    ensures u == FanTarget(i, t.y) ==> Notices(s, u) == s[t].round
  {
    assert Made(s[t], i) == s[t].round;
  }

  lemma FanPosts(s: State, t: PodTile, i: nat, s': State)
    requires Valid(s) && i < 3 && s[t].pc == Fan(i) && t.x == 7
    requires Valid(s')
    requires s' == Goto(StoreNotify(s, FanTarget(i, t.y), s[t].sense), t, if i == 2 then Buddy else Fan(i + 1))
    ensures PostsOnce(s, s', t, i) && Posts(s, t, FanTarget(i, t.y), s', s'[t].pc)
  {
  }

  lemma FanIsGood(s: State, t: PodTile, i: nat, s': State)
    requires Valid(s) && i < 3 && s[t].pc == Fan(i) && t.x == 7 && TileOk(s, t)
    requires Valid(s') && PostsOnce(s, s', t, i)
    ensures GoodNotice(s, FanTarget(i, t.y), s', s[t].round)
  {
    FanNotices(s, t, i, FanTarget(i, t.y), s');
    assert Passed(s, t) == s[t].round + 1;
  }

  lemma FanKeeps(s: State, t: PodTile, u: PodTile, i: nat, s': State, pc: Pc)
    requires Valid(s) && TileOk(s, u) && TileOk(s, t) && i < 3 && s[t].pc == Fan(i) && t.x == 7
    requires s[t].sense == Bit(s[t].round + 1) && (pc.Fan? || pc.Buddy?)
    requires Posts(s, t, FanTarget(i, t.y), s', pc) && PostsOnce(s, s', t, i)
    ensures TileOk(s', u)
  {
    if u == FanTarget(i, t.y) {
      FanIsGood(s, t, i, s');
      TargetKeeps(s, t, u, s', pc);
    } else {
      FanNotices(s, t, i, u, s');
      OthersKeep(s, t, FanTarget(i, t.y), u, s', pc);
    }
  }

  lemma BuddyNotices(s: State, t: PodTile, u: PodTile, s': State)
    requires Valid(s) && s[t].pc.Buddy? && t != CENTER
    requires Valid(s') && PostsOnce(s, s', t, 3)
    ensures u != BuddyOf(t) || u == t ==> Notices(s', u) == Notices(s, u)
    ensures u == BuddyOf(t) && u != t && u.x != 8 ==> Notices(s, u) == s[t].round && Notices(s', u) == s[t].round + 1
    ensures u == BuddyOf(t) && u.x == 8 && u != t ==>
      && Notices(s, u) >= s[t].round
      && Notices(s', u) == (if Notices(s, u) == s[t].round then s[t].round + 1 else Notices(s, u))
  {
    assert Made(s[t], 3) == s[t].round;
  }

  /** At its buddy store a tile has itself been notified, for its own round. */
  lemma OwnNotices(s: State, t: PodTile)
    requires Valid(s) && TileOk(s, t) && s[t].pc.Buddy?
    ensures Notices(s, t) == s[t].round + 1 == Passed(s, CENTER)
  {
  }

  /** The head of the row cannot be asleep in a later round than a tile of the row. */
  lemma HeadNotAhead(s: State, t: PodTile, u: PodTile)
    requires Valid(s) && TileOk(s, t) && TileOk(s, u) && s[t].pc.Buddy? && u == Tile(8, t.y) && u != CENTER
    ensures Notices(s, u) <= s[t].round + 1
    ensures s[u].pc.WaitLrAq? ==> s[u].round <= s[t].round
  {
  }

  lemma BuddyPosts(s: State, t: PodTile, s': State)
    requires Valid(s) && s[t].pc.Buddy? && t != CENTER
    requires Valid(s') && s' == Goto(StoreNotify(s, BuddyOf(t), s[t].sense), t, Flip)
    ensures PostsOnce(s, s', t, 3)
  {
  }

  lemma BuddyKeeps(s: State, t: PodTile, u: PodTile, s': State)
    requires Valid(s) && TileOk(s, u) && TileOk(s, t) && s[t].pc.Buddy?
    requires Valid(s') && s' == Goto(StoreNotify(s, BuddyOf(t), s[t].sense), t, Flip)
    ensures TileOk(s', u)
  {
    var w := BuddyOf(t);
    BuddyPosts(s, t, s');
    BuddyNotices(s, t, u, s');
    OwnNotices(s, t);
    if u == w && u != CENTER {
      if u.x == 8 && u != t {
        HeadNotAhead(s, t, u);
      }
      TargetKeeps(s, t, w, s', Flip);
    } else {
      OthersKeep(s, t, w, u, s', Flip);
    }
  }

  lemma ArriveStep(s: State, t: PodTile, u: PodTile)
    requires Valid(s) && TileOk(s, t) && TileOk(s, u) && s[t].pc.Out?
    ensures TileOk(Step(s, t), u)
  {
    ArriveKeeps(s, t, u, Step(s, t));
  }

  lemma WakeStep(s: State, t: PodTile, u: PodTile)
    requires Valid(s) && TileOk(s, t) && TileOk(s, u) && s[t].pc.Wake? && !Stray(s, t)
    ensures TileOk(Step(s, t), u)
  {
    WakePosts(s, t, s[t].pc.i, Step(s, t));
    PosterFacts(s, t);
    WakeKeeps(s, u, s[t].pc.i, Step(s, t), Step(s, t)[t].pc);
  }

  lemma FanStep(s: State, t: PodTile, u: PodTile)
    requires Valid(s) && TileOk(s, t) && TileOk(s, u) && s[t].pc.Fan?
    ensures TileOk(Step(s, t), u)
  {
    FanPosts(s, t, s[t].pc.i, Step(s, t));
    PosterFacts(s, t);
    FanKeeps(s, t, u, s[t].pc.i, Step(s, t), Step(s, t)[t].pc);
  }

  lemma BuddyStep(s: State, t: PodTile, u: PodTile)
    requires Valid(s) && TileOk(s, t) && TileOk(s, u) && s[t].pc.Buddy?
    ensures TileOk(Step(s, t), u)
  {
    BuddyKeeps(s, t, u, Step(s, t));
  }

  lemma FlipStep(s: State, t: PodTile, u: PodTile)
    requires Valid(s) && TileOk(s, t) && TileOk(s, u) && s[t].pc.Flip?
    ensures TileOk(Step(s, t), u)
  {
    if u == t { FlipOwn(s, t, Step(s, t)); } else { FlipOther(s, t, u, Step(s, t)); }
  }

  lemma StepKeepsTile(s: State, t: PodTile, u: PodTile)
    requires Valid(s) && TileOk(s, t) && TileOk(s, u) && !Stray(s, t)
    ensures TileOk(Step(s, t), u)
  {
    match s[t].pc {
      case Out => ArriveStep(s, t, u);
      case Join(_, _) => ReadRowStep(s, t, u);
      case Relay => RelayKeeps(s, t, u);
      case JoinCol(_, _) => ReadColStep(s, t, u);
      case Wake(_) => WakeStep(s, t, u);
      case WaitLr => WaitStep(s, t, u);
      case WaitLrAq => WaitStep(s, t, u);
      case Fan(_) => FanStep(s, t, u);
      case Buddy => BuddyStep(s, t, u);
      case Flip => FlipStep(s, t, u);
    }
  }

  lemma StepKeepsInv(s: State, t: PodTile)
    requires Inv(s) && !Stray(s, t)
    ensures Inv(Step(s, t))
  {
    assert TileOk(s, t);
    forall u: PodTile ensures TileOk(Step(s, t), u) {
      assert TileOk(s, u);
      StepKeepsTile(s, t, u);
    }
  }

  // ---------------------------------------------------------------------------------------
  // Safety, and exactly when it fails.

  /** No step of the schedule is a stray wake-up. */
  ghost predicate Clean(sched: seq<PodTile>)
    decreases |sched|
  {
    sched != [] ==>
      var most := sched[..|sched| - 1];
      Clean(most) && !Stray(Exec(Init(), most), sched[|sched| - 1])
  }

  lemma {:induction false} CleanKeepsInv(sched: seq<PodTile>)
    requires Clean(sched)
    ensures Inv(Exec(Init(), sched))
    decreases |sched|
  {
    if sched == [] {
      InitInv();
    } else {
      CleanKeepsInv(sched[..|sched| - 1]);
      StepKeepsInv(Exec(Init(), sched[..|sched| - 1]), sched[|sched| - 1]);
    }
  }

  lemma InvIsSafe(s: State)
    requires Inv(s)
    ensures Safe(s)
  {
    forall t: PodTile, u: PodTile ensures Passed(s, t) <= Entered(s, u) {
      assert TileOk(s, t) && TileOk(s, u);
    }
  }

  /** In every run without a stray wake-up, and in every round, no tile t passes its wait (let
      alone returns) before every tile u has entered that barrier. */
  lemma NoEarlyRelease(sched: seq<PodTile>, t: PodTile, u: PodTile)
    requires Clean(sched)
    ensures var s := Exec(Init(), sched);
      s[t].round <= Passed(s, t) <= Entered(s, u)
  {
    CleanKeepsInv(sched);
    InvIsSafe(Exec(Init(), sched));
  }

  /** The step of t wakes the sleeper u. */
  predicate Wakes(s: State, t: PodTile, u: PodTile)
    requires Valid(s)
  {
    s[u].pc.WaitLrAq? && s[u].reserved && !Step(s, t)[u].reserved
  }

  /** Whatever tile the step of t wakes can pass its wait safely. */
  ghost predicate WakesSafely(s: State, t: PodTile)
    requires Valid(s)
  {
    forall u: PodTile :: Wakes(s, t, u) ==> Safe(Step(Step(s, t), u))
  }

  /** The condition is exact. After any clean run, if the next step is stray then the tile it
      wakes passes a barrier the center has not entered; if it is not, whatever tile it wakes
      can pass safely. */
  lemma StrayIffUnsafe(sched: seq<PodTile>, t: PodTile)
    requires Clean(sched)
    ensures !Stray(Exec(Init(), sched), t) <==> WakesSafely(Exec(Init(), sched), t)
  {
    CleanKeepsInv(sched);
    StrayIffUnsafeIn(Exec(Init(), sched), t);
  }

  lemma StrayIffUnsafeIn(s: State, t: PodTile)
    requires Inv(s)
    ensures !Stray(s, t) <==> WakesSafely(s, t)
  {
    if Stray(s, t) {
      StrayIsUnsafe(s, t, WakeTarget(s[t].pc.i));
    } else {
      forall u: PodTile | Wakes(s, t, u) ensures Safe(Step(Step(s, t), u)) {
        WokenPassesSafely(s, t, u);
      }
    }
  }

  lemma WokenPassesSafely(s: State, t: PodTile, u: PodTile)
    requires Inv(s) && !Stray(s, t) && Wakes(s, t, u)
    ensures Safe(Step(Step(s, t), u))
  {
    StepKeepsInv(s, t);
    WokenIsNotStray(s, t, u);
    StepKeepsInv(Step(s, t), u);
    InvIsSafe(Step(Step(s, t), u));
  }

  lemma StrayIsUnsafe(s: State, t: PodTile, u: PodTile)
    requires Valid(s) && Stray(s, t) && u == WakeTarget(s[t].pc.i)
    ensures Wakes(s, t, u) && !Safe(Step(Step(s, t), u))
  {
    var s1 := Step(s, t);
    assert s1[u].pc == WaitLrAq && !s1[u].reserved && s1[u].round == s[u].round;
    assert s1[CENTER].round == s[CENTER].round && !s1[CENTER].pc.Out?;
    var s2 := Step(s1, u);
    assert s2[CENTER] == s1[CENTER];
    assert Passed(s2, u) > Entered(s2, CENTER);
  }

  lemma WokenIsNotStray(s: State, t: PodTile, u: PodTile)
    requires Inv(s) && Wakes(s, t, u)
    ensures !Stray(Step(s, t), u)
  {
    assert TileOk(s, u);
    assert u != CENTER;
  }

  /** No step of the schedule wakes a tile that could then pass too early. */
  ghost predicate OnlySafeWakes(sched: seq<PodTile>)
    decreases |sched|
  {
    sched != [] ==>
      var most := sched[..|sched| - 1];
      OnlySafeWakes(most) && WakesSafely(Exec(Init(), most), sched[|sched| - 1])
  }

  /** Over whole runs: the runs without a stray wake-up are exactly those in which no step wakes a
      tile that could then pass too early. */
  lemma {:induction false} CleanIffOnlySafeWakes(sched: seq<PodTile>)
    ensures Clean(sched) <==> OnlySafeWakes(sched)
    decreases |sched|
  {
    if sched != [] {
      var most := sched[..|sched| - 1];
      CleanIffOnlySafeWakes(most);
      if Clean(most) {
        StrayIffUnsafe(most, sched[|sched| - 1]);
      }
    }
  }

  // ---------------------------------------------------------------------------------------
  // Progress.

  /** The number of its own steps after which a head or the center, reading complete flags, is done
      polling. */
  function Polls(pc: Pc): nat {
    match pc
    case Join(k, ok) => if k == 3 && ok then 1 else if k == 2 then 2 else if k >= 1 && (k == 3 || ok) then 3
                        else if k == 0 then 4 else 5
    case JoinCol(k, ok) => if k == 1 && ok then 1 else if k == 0 then 2 else 3
    case _ => 0
  }

  /** Tile t takes n steps while the others rest. */
  function Alone(s: State, t: PodTile, n: nat): (s': State)
    requires Valid(s)
    ensures Valid(s')
  {
    if n == 0 then s else Alone(Step(s, t), t, n - 1)
  }

  /** By itself tile t gets on: it stops polling, or makes a step of another kind. */
  ghost predicate Advances(s: State, t: PodTile)
    requires Valid(s)
  {
    exists n: nat :: n <= 5 && Elsewhere(s[t].pc, Alone(s, t, n)[t].pc)
  }

  predicate Elsewhere(pc: Pc, pc': Pc) {
    pc != pc' && !(pc.Join? && pc'.Join?) && !(pc.JoinCol? && pc'.JoinCol?)
  }

  predicate Blocked(c: Cell) {
    c.pc.Join? || c.pc.JoinCol? || (c.pc.WaitLrAq? && c.reserved)
  }

  lemma UnblockedAdvances(s: State, t: PodTile)
    requires Valid(s) && !Blocked(s[t])
    ensures Advances(s, t)
  {
    assert Alone(Step(s, t), t, 0) == Step(s, t);
    assert Elsewhere(s[t].pc, Alone(s, t, 1)[t].pc);
  }

  /** Byte q of word k belongs to column 4 * q + k. */
  lemma OffsetIs(x: nat, q: nat, k: nat)
    requires q < 4 && k < 4 && x == 4 * q + k
    ensures Offset(x) == 4 * k + q
  {
  }

  lemma RowWord(s: State, y: nat, k: nat, v: bool)
    requires Valid(s) && y < 8 && k < 4
    requires forall u: PodTile :: u.y == y ==> RowFlag(s, u) == v
    ensures WordIs(s[Tile(8, y)].row, k, v)
  {
    var a: PodTile, b: PodTile, c: PodTile, d: PodTile := Tile(k, y), Tile(4 + k, y), Tile(8 + k, y), Tile(12 + k, y);
    OffsetIs(k, 0, k);
    OffsetIs(4 + k, 1, k);
    OffsetIs(8 + k, 2, k);
    OffsetIs(12 + k, 3, k);
    assert RowFlag(s, a) == v && RowFlag(s, b) == v && RowFlag(s, c) == v && RowFlag(s, d) == v;
  }

  lemma GotoKeepsFlags(s: State, t: PodTile, pc: Pc, u: PodTile)
    requires Valid(s) && PcOk(pc)
    ensures RowFlag(Goto(s, t, pc), u) == RowFlag(s, u)
  {
  }

  ghost predicate RowComplete(s: State, h: PodTile)
    requires Valid(s)
  {
    forall u: PodTile :: u.y == h.y ==> RowFlag(s, u) == s[h].sense
  }

  /** The head of a complete row finds the next word complete. */
  lemma HeadSees(s: State, h: PodTile)
    requires Valid(s) && s[h].pc.Join? && h.x == 8 && RowComplete(s, h)
    ensures Step(s, h) == Goto(s, h, AfterRead(s[h].pc.k, s[h].pc.ok, true))
    ensures RowComplete(Step(s, h), h)
  {
    var pc := AfterRead(s[h].pc.k, s[h].pc.ok, true);
    RowWord(s, h.y, s[h].pc.k, s[h].sense);
    assert Step(s, h) == Goto(s, h, pc);
    RowStaysComplete(s, h, pc);
  }

  lemma RowStaysComplete(s: State, h: PodTile, pc: Pc)
    requires Valid(s) && PcOk(pc) && RowComplete(s, h)
    ensures RowComplete(Goto(s, h, pc), h)
  {
    forall u: PodTile | u.y == h.y ensures RowFlag(Goto(s, h, pc), u) == s[h].sense {
      GotoKeepsFlags(s, h, pc, u);
    }
  }

  /** A complete row is read to the end. */
  lemma {:induction false} RowIsRead(s: State, t: PodTile)
    requires Valid(s) && s[t].pc.Join? && t.x == 8 && RowComplete(s, t)
    ensures Alone(s, t, Polls(s[t].pc))[t].pc == Relay
    decreases Polls(s[t].pc)
  {
    HeadSees(s, t);
    var s1 := Step(s, t);
    if s1[t].pc.Join? {
      RowIsRead(s1, t);
    } else {
      assert Alone(s1, t, 0) == s1;
    }
  }

  lemma {:induction false} ColumnIsRead(s: State)
    requires Valid(s) && s[CENTER].pc.JoinCol?
    requires forall y: nat :: y < 8 ==> s[CENTER].col[y] == s[CENTER].sense
    ensures Alone(s, CENTER, Polls(s[CENTER].pc))[CENTER].pc == Wake(0)
    decreases Polls(s[CENTER].pc)
  {
    var s1 := Step(s, CENTER);
    assert s1[CENTER].col == s[CENTER].col && s1[CENTER].sense == s[CENTER].sense;
    if s1[CENTER].pc.JoinCol? {
      ColumnIsRead(s1);
    } else {
      assert Alone(s1, CENTER, 0) == s1;
    }
  }

  /** The tile that notifies t when the round is over: the center for column 8 as for column 7. */
  function WakerOf(t: PodTile): PodTile {
    if t.x == 7 || t.x == 8 then CENTER
    else if t.x == 3 || t.x == 11 || t.x == 15 then Tile(7, t.y)
    else Tile(t.x + 1, t.y)
  }

  /** A tile asleep in the round the center has completed still waits for its waker, in the same
      round. */
  lemma WakerIsBehind(s: State, t: PodTile)
    requires Valid(s) && TileOk(s, t) && TileOk(s, WakerOf(t)) && Blocked(s[t]) && Blocked(s[WakerOf(t)])
    requires Passed(s, t) < Passed(s, CENTER) && t != CENTER
    ensures WakerOf(t) != CENTER && Passed(s, WakerOf(t)) < Passed(s, CENTER)
  {
  }

  /** How many wakers away the center is. */
  function Hops(t: PodTile): nat {
    if t.x == 7 || t.x == 8 then 0
    else if t.x == 3 || t.x == 11 || t.x == 15 then 1
    else if t.x < 3 then 4 - t.x else if t.x < 7 then 8 - t.x else if t.x < 11 then 12 - t.x else 16 - t.x
  }

  lemma WakerIsNearer(t: PodTile)
    requires WakerOf(t) != CENTER
    ensures Hops(WakerOf(t)) < Hops(t)
  {
  }

  lemma {:induction false} NoneIsBehind(s: State, t: PodTile)
    requires Inv(s) && forall u: PodTile :: Blocked(s[u])
    ensures Passed(s, t) == Passed(s, CENTER)
    decreases Hops(t)
  {
    assert TileOk(s, t) && TileOk(s, WakerOf(t));
    if Passed(s, t) < Passed(s, CENTER) {
      WakerIsBehind(s, t);
      WakerIsNearer(t);
      NoneIsBehind(s, WakerOf(t));
    }
  }

  /** If no tile can make a step of another kind, all are in the same round. */
  lemma SameRound(s: State, t: PodTile)
    requires Inv(s) && forall u: PodTile :: Blocked(s[u])
    ensures s[t].round == s[CENTER].round && s[t].sense == s[CENTER].sense
  {
    assert TileOk(s, t) && TileOk(s, CENTER);
    NoneIsBehind(s, t);
    assert Passed(s, t) == s[t].round && Passed(s, CENTER) == s[CENTER].round;
  }

  /** And all have raised their row flags, and the heads that are done polling their column flags. */
  lemma AllHaveArrived(s: State, t: PodTile)
    requires Inv(s) && forall u: PodTile :: Blocked(s[u])
    ensures RowFlag(s, t) == s[CENTER].sense && (s[t].pc.Join? ==> t.x == 8)
    ensures !s[Tile(8, t.y)].pc.Join? ==> s[CENTER].col[t.y] == s[CENTER].sense
    ensures s[CENTER].pc.Join? || s[CENTER].pc.JoinCol?
  {
    assert TileOk(s, t) && TileOk(s, CENTER);
    SameRound(s, t);
    SameRound(s, Tile(8, t.y));
    assert Entered(s, t) == s[t].round + 1;
    assert !s[Tile(8, t.y)].pc.Join? ==> Relayed(s, t.y) == s[CENTER].round + 1;
  }

  lemma HeadAdvances(s: State, t: PodTile)
    requires Inv(s) && (forall u: PodTile :: Blocked(s[u])) && s[t].pc.Join?
    ensures Advances(s, t)
  {
    AllHaveArrived(s, t);
    SameRound(s, t);
    forall u: PodTile ensures RowFlag(s, u) == s[t].sense {
      AllHaveArrived(s, u);
    }
    RowIsRead(s, t);
    assert Elsewhere(s[t].pc, Alone(s, t, Polls(s[t].pc))[t].pc);
  }

  lemma CenterAdvances(s: State)
    requires Inv(s) && (forall u: PodTile :: Blocked(s[u])) && forall u: PodTile :: !s[u].pc.Join?
    ensures Advances(s, CENTER)
  {
    forall y: nat | y < 8 ensures s[CENTER].col[y] == s[CENTER].sense {
      AllHaveArrived(s, Tile(8, y));
    }
    AllHaveArrived(s, CENTER);
    ColumnIsRead(s);
    assert Elsewhere(s[CENTER].pc, Alone(s, CENTER, Polls(s[CENTER].pc))[CENTER].pc);
  }

  /** In every run without a stray wake-up some tile gets on within five steps of its own: if all are
      inside the barrier, one of those inside. */
  lemma NeverStuck(sched: seq<PodTile>)
    requires Clean(sched)
    ensures exists t: PodTile :: Advances(Exec(Init(), sched), t)
  {
    var s := Exec(Init(), sched);
    CleanKeepsInv(sched);
    if t: PodTile :| !Blocked(s[t]) {
      UnblockedAdvances(s, t);
    } else if t: PodTile :| s[t].pc.Join? {
      HeadAdvances(s, t);
    } else {
      CenterAdvances(s);
    }
  }
}
