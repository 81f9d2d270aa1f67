/** The swap-only MCS queue lock (bsg_mcs_mutex.hpp) as a step machine over n threads.

    Every shared access is one step; a schedule is any sequence of thread ids.
    Each thread owns one queue node, so a node pointer is a thread id and null is None.
    The wait on `unlocked` is the LR / LR.AQ pair: LR sets a reservation, any store to the
    word clears it, and LR.AQ does not return while it is set. */
module McsMutex {
  import opened Common

  datatype Pc =
    | Idle
    // acquire
    | ClearNext
    | ClearUnlocked
    | SwapIn
    | LinkPred(pred: nat)
    | WaitLr
    | WaitLrAq
    | Critical
    // release
    | CheckNext
    | GrantNext
    | SwapOut
    | SwapBack(vicTail: Option<nat>)
    | SpinNext(usurper: Option<nat>)
    | Finish(usurper: Option<nat>)
    // a null pointer was dereferenced
    | Fault

  datatype State = State(
    tail: Option<nat>,
    next: seq<Option<nat>>,
    unlocked: seq<bool>,
    reserved: seq<bool>,
    pc: seq<Pc>)

  predicate PointerOk(n: nat, p: Option<nat>) {
    p.Some? ==> p.value < n
  }

  predicate PcOk(n: nat, pc: Pc) {
    match pc
    case LinkPred(p) => p < n
    case SwapBack(v) => PointerOk(n, v)
    case SpinNext(u) => PointerOk(n, u)
    case Finish(u) => PointerOk(n, u)
    case _ => true
  }

  /** Arrays have one entry per thread and every pointer names a thread. */
  ghost predicate WellFormed(s: State) {
    var n := |s.pc|;
    && |s.next| == |s.unlocked| == |s.reserved| == n
    && PointerOk(n, s.tail)
    && (forall i :: 0 <= i < n ==> PointerOk(n, s.next[i]))
    && (forall i :: 0 <= i < n ==> PcOk(n, s.pc[i]))
  }

  function Init(n: nat): (s: State)
    ensures WellFormed(s) && |s.pc| == n
  {
    State(None, seq(n, _ => None), seq(n, _ => false), seq(n, _ => false), seq(n, _ => Idle))
  }

  function Goto(s: State, t: nat, pc: Pc): State
    requires t < |s.pc|
  {
    s.(pc := s.pc[t := pc])
  }

  /** A store to node h's `unlocked` word; it clears the reservation on that word. */
  function StoreUnlocked(s: State, h: nat, v: bool): State
    requires h < |s.unlocked| && h < |s.reserved|
  {
    s.(unlocked := s.unlocked[h := v], reserved := s.reserved[h := false])
  }

  function StoreNext(s: State, h: nat, v: Option<nat>): State
    requires h < |s.next|
  {
    s.(next := s.next[h := v])
  }

  /** One atomic step of thread t. A spin that finds nothing new leaves the state as it is. */
  function Step(s: State, t: nat): (s': State)
    requires WellFormed(s) && t < |s.pc|
    ensures WellFormed(s') && |s'.pc| == |s.pc|
  {
    match s.pc[t]
    case Idle => Goto(s, t, ClearNext)
    case ClearNext => Goto(StoreNext(s, t, None), t, ClearUnlocked)
    case ClearUnlocked => Goto(StoreUnlocked(s, t, false), t, SwapIn)
    case SwapIn =>
      var s1 := s.(tail := Some(t));
      if s.tail.None? then Goto(s1, t, Critical) else Goto(s1, t, LinkPred(s.tail.value))
    case LinkPred(p) => Goto(StoreNext(s, p, Some(t)), t, WaitLr)
    case WaitLr =>
      var s1 := s.(reserved := s.reserved[t := true]);
      if s.unlocked[t] then Goto(s1, t, Critical) else Goto(s1, t, WaitLrAq)
    case WaitLrAq =>
      if s.reserved[t] then s
      else if s.unlocked[t] then Goto(s, t, Critical)
      else Goto(s, t, WaitLr)
    case Critical => Goto(s, t, CheckNext)
    case CheckNext => if s.next[t].Some? then Goto(s, t, GrantNext) else Goto(s, t, SwapOut)
    case GrantNext =>
      if s.next[t].None? then Goto(s, t, Fault)
      else Goto(StoreUnlocked(s, s.next[t].value, true), t, Idle)
    case SwapOut =>
      var s1 := s.(tail := None);
      if s.tail == Some(t) then Goto(s1, t, Idle) else Goto(s1, t, SwapBack(s.tail))
    case SwapBack(v) => Goto(s.(tail := v), t, SpinNext(s.tail))
    case SpinNext(u) => if s.next[t].Some? then Goto(s, t, Finish(u)) else s
    case Finish(u) =>
      if s.next[t].None? then Goto(s, t, Fault)
      else if u.None? then Goto(StoreUnlocked(s, s.next[t].value, true), t, Idle)
      else Goto(StoreNext(s, u.value, s.next[t]), t, Idle)
    case Fault => s
  }

  ghost predicate Schedule(n: nat, sched: seq<nat>) {
    forall i :: 0 <= i < |sched| ==> sched[i] < n
  }

  /** The state after running a schedule. */
  function Exec(s: State, sched: seq<nat>): (s': State)
    requires WellFormed(s) && Schedule(|s.pc|, sched)
    ensures WellFormed(s') && |s'.pc| == |s.pc|
    decreases |sched|
  {
    if sched == [] then s else
      assert forall i :: 0 <= i < |sched| - 1 ==> sched[..|sched| - 1][i] == sched[i];
      Step(Exec(s, sched[..|sched| - 1]), sched[|sched| - 1])
  }

  // ---------------------------------------------------------------------------------------
  // Ghost chains.
  // Each queued thread is a node of a doubly linked chain. The main queue has key None; a
  // releaser r between its two swaps parks the queue it took out under key Some(r), with r
  // itself at the front. Ranks grow along a chain.

  datatype Node = Out | In(key: Option<nat>, rank: int, prd: Option<nat>, suc: Option<nat>)

  datatype Chains = Chains(head: Option<nat>, node: seq<Node>)

  /** A releaser that will write `usurper.next`. It sits in the queue between the usurper and
      the victims it is putting back. */
  predicate Splicer(pc: Pc) {
    (pc.SpinNext? || pc.Finish?) && pc.usurper.Some?
  }

  predicate Waiting(pc: Pc) {
    pc.WaitLr? || pc.WaitLrAq?
  }

  predicate Holder(pc: Pc) {
    || pc.Critical? || pc.CheckNext? || pc.GrantNext? || pc.SwapOut?
    || ((pc.SpinNext? || pc.Finish?) && pc.usurper.None?)
  }

  predicate Outside(pc: Pc) {
    pc.Idle? || pc.ClearNext? || pc.ClearUnlocked? || pc.SwapIn?
  }

  /** How x's `next` stands with respect to its successor y in the chain: written, still to be
      written by y itself, or still to be written by a splicer. */
  predicate Link(s: State, x: nat, y: nat)
    requires WellFormed(s) && x < |s.pc| && y < |s.pc|
  {
    if Splicer(s.pc[y]) then s.pc[y].usurper == Some(x) && s.next[x] == None
    else if s.pc[y].LinkPred? then s.pc[y].pred == x && s.next[x] == None
    else s.next[x] == Some(y)
  }

  /** What a thread that is not at the front of its chain can be doing. */
  predicate Follower(s: State, t: nat)
    requires WellFormed(s) && t < |s.pc|
  {
    Splicer(s.pc[t]) || ((s.pc[t].LinkPred? || Waiting(s.pc[t])) && !s.unlocked[t])
  }

  /** What the thread at the front of a chain can be doing. */
  predicate Front(s: State, c: Chains, t: nat, key: Option<nat>)
    requires WellFormed(s) && t < |s.pc|
  {
    match key
    case None => c.head == Some(t) && (Holder(s.pc[t]) || (Waiting(s.pc[t]) && s.unlocked[t]))
    case Some(r) => r == t
  }

  predicate Last(s: State, t: nat, key: Option<nat>)
    requires WellFormed(s) && t < |s.pc|
  {
    && s.next[t] == None
    && !Splicer(s.pc[t])
    && (key.None? ==> s.tail == Some(t))
    && (key.Some? ==> key.value < |s.pc| && s.pc[key.value] == SwapBack(Some(t)) && key.value != t)
  }

  /** What a queued thread itself is doing. */
  ghost predicate NodeSelf(s: State, c: Chains, t: nat)
    requires WellFormed(s) && |c.node| == |s.pc| && t < |s.pc|
  {
    match c.node[t]
    case Out => Outside(s.pc[t])
    case In(key, _, prd, suc) =>
      && !Outside(s.pc[t])
      && (key.Some? ==> key.value < |s.pc| && s.pc[key.value].SwapBack?)
      && (s.pc[t].SwapBack? ==> key == Some(t) && prd.None? && suc.Some?)
  }

  /** Its place behind its predecessor, or at the front. */
  ghost predicate NodePrd(s: State, c: Chains, t: nat)
    requires WellFormed(s) && |c.node| == |s.pc| && t < |s.pc|
  {
    c.node[t].In? ==>
      match c.node[t].prd
      case None => Front(s, c, t, c.node[t].key)
      case Some(x) => x < |s.pc| && c.node[x].In? && c.node[x].suc == Some(t) && Follower(s, t)
  }

  /** Its place before its successor, or at the end. */
  ghost predicate NodeSuc(s: State, c: Chains, t: nat)
    requires WellFormed(s) && |c.node| == |s.pc| && t < |s.pc|
  {
    c.node[t].In? ==>
      match c.node[t].suc
      case None => Last(s, t, c.node[t].key)
      case Some(y) =>
        && y < |s.pc| && c.node[y].In? && c.node[y].prd == Some(t) && c.node[y].key == c.node[t].key
        && c.node[t].rank < c.node[y].rank && Link(s, t, y)
  }

  ghost predicate NodeOk(s: State, c: Chains, t: nat)
    requires WellFormed(s) && |c.node| == |s.pc| && t < |s.pc|
  {
    NodeSelf(s, c, t) && NodePrd(s, c, t) && NodeSuc(s, c, t)
  }

  /** The words of the lock itself. */
  ghost predicate Lock(s: State, c: Chains)
    requires WellFormed(s) && |c.node| == |s.pc|
  {
    && (c.head.None? <==> s.tail.None?)
    && (c.head.Some? ==>
          var h := c.head.value;
          h < |s.pc| && c.node[h].In? && c.node[h].prd.None? && c.node[h].key.None?)
    && (s.tail.Some? ==>
          var v := s.tail.value;
          c.node[v].In? && c.node[v].suc.None? && c.node[v].key.None?)
  }

  /** A parked queue ends at the tail its releaser took out. */
  ghost predicate Parked(s: State, c: Chains, r: nat)
    requires WellFormed(s) && |c.node| == |s.pc| && r < |s.pc|
  {
    s.pc[r].SwapBack? ==>
      && s.pc[r].vicTail.Some?
      && var v := s.pc[r].vicTail.value;
      c.node[v].In? && c.node[v].suc.None? && c.node[v].key == Some(r)
  }

  /** Facts about a thread's own words. */
  predicate Own(s: State, t: nat)
    requires WellFormed(s) && t < |s.pc|
  {
    && !s.pc[t].Fault?
    && (s.pc[t].SwapIn? ==> s.next[t].None? && !s.unlocked[t])
    && (s.pc[t].ClearUnlocked? ==> s.next[t].None?)
    && (s.pc[t].GrantNext? || s.pc[t].Finish? ==> s.next[t].Some?)
    && (s.pc[t].WaitLrAq? ==> s.reserved[t] == !s.unlocked[t])
  }

  /** A holder that found the tail changed has a successor. */
  predicate MustHandOver(s: State, c: Chains, t: nat)
    requires WellFormed(s) && |c.node| == |s.pc| && t < |s.pc|
  {
    s.pc[t].SpinNext? ==> c.node[t].In? && c.node[t].suc.Some?
  }

  /** The facts about thread t. */
  ghost predicate ThreadOk(s: State, c: Chains, t: nat)
    requires WellFormed(s) && |c.node| == |s.pc| && t < |s.pc|
  {
    NodeOk(s, c, t) && Parked(s, c, t) && Own(s, t) && MustHandOver(s, c, t)
  }

  ghost predicate InvWith(s: State, c: Chains) {
    && WellFormed(s) && |c.node| == |s.pc|
    && Lock(s, c)
    && forall t :: 0 <= t < |s.pc| ==> ThreadOk(s, c, t)
  }

  ghost predicate Inv(s: State) {
    exists c :: InvWith(s, c)
  }

  lemma InitInv(n: nat)
    ensures Inv(Init(n))
  {
    assert InvWith(Init(n), Chains(None, seq(n, _ => Out)));
  }

  // ---------------------------------------------------------------------------------------
  // Every step keeps the invariant.

  // Each step is first described by the fields it changes; then the facts about an arbitrary
  // thread u are carried over, from the same facts about u and about the threads involved.

  ghost predicate Before(s: State, c: Chains, s': State, c': Chains, t: nat, u: nat) {
    && WellFormed(s) && WellFormed(s') && |s.pc| == |s'.pc| == |c.node| == |c'.node|
    && t < |s.pc| && u < |s.pc|
    && Lock(s, c) && ThreadOk(s, c, t) && ThreadOk(s, c, u)
  }

  /** A move that only reads shared words, or writes the thread's own ones. */
  ghost predicate Quiet(s: State, s': State, t: nat)
    requires WellFormed(s) && WellFormed(s') && |s.pc| == |s'.pc| && t < |s.pc|
  {
    && s'.tail == s.tail
    && s'.pc == s.pc[t := s'.pc[t]]
    && (forall u :: 0 <= u < |s.pc| && u != t ==>
          s'.next[u] == s.next[u] && s'.unlocked[u] == s.unlocked[u] && s'.reserved[u] == s.reserved[u])
    && Own(s', t)
    && ((Outside(s.pc[t]) && Outside(s'.pc[t]))
        || (s'.next == s.next && s'.unlocked == s.unlocked && QuietMove(s, s.pc[t], s'.pc[t], t)))
  }

  predicate QuietMove(s: State, from: Pc, to: Pc, t: nat)
    requires t < |s.unlocked|
  {
    || (Waiting(from) && Waiting(to))
    || (Waiting(from) && to.Critical? && s.unlocked[t])
    || (from.Critical? && to.CheckNext?)
    || (from.CheckNext? && (to.GrantNext? || to.SwapOut?))
    || (from.SpinNext? && to == Finish(from.usurper))
  }

  lemma QuietNode(s: State, c: Chains, t: nat, u: nat, s': State)
    requires Before(s, c, s', c, t, u) && Quiet(s, s', t)
    ensures NodeOk(s', c, u)
  {
  }

  lemma QuietThread(s: State, c: Chains, t: nat, u: nat, s': State)
    requires Before(s, c, s', c, t, u) && Quiet(s, s', t)
    ensures ThreadOk(s', c, u) && Lock(s', c)
  {
    QuietNode(s, c, t, u, s');
  }

  lemma IsQuiet(s: State, c: Chains, t: nat)
    requires WellFormed(s) && |c.node| == |s.pc| && t < |s.pc| && ThreadOk(s, c, t)
    requires !s.pc[t].SwapIn? && !s.pc[t].LinkPred? && !s.pc[t].GrantNext? && !s.pc[t].SwapOut?
    requires !s.pc[t].SwapBack? && !s.pc[t].Finish?
    ensures Step(s, t) != s ==> Quiet(s, Step(s, t), t)
  {
  }

  lemma QuietStep(s: State, c: Chains, t: nat)
    requires InvWith(s, c) && t < |s.pc|
    requires !s.pc[t].SwapIn? && !s.pc[t].LinkPred? && !s.pc[t].GrantNext? && !s.pc[t].SwapOut?
    requires !s.pc[t].SwapBack? && !s.pc[t].Finish?
    ensures InvWith(Step(s, t), c)
  {
    assert ThreadOk(s, c, t);
    var s' := Step(s, t);
    if s' != s {
      IsQuiet(s, c, t);
      forall u | 0 <= u < |s.pc| ensures ThreadOk(s', c, u) && Lock(s', c) {
        assert ThreadOk(s, c, u);
        QuietThread(s, c, t, u, s');
      }
    }
  }

  /** A waiter writes its predecessor's link. */
  lemma LinkThread(s: State, c: Chains, t: nat, x: nat, u: nat, s': State)
    requires Before(s, c, s', c, t, u) && s.pc[t] == LinkPred(x)
    requires x < |s.pc| && c.node[t].prd == Some(x)
    requires s' == State(s.tail, s.next[x := Some(t)], s.unlocked, s.reserved, s.pc[t := WaitLr])
    requires ThreadOk(s, c, x)
    ensures ThreadOk(s', c, u) && Lock(s', c)
  {
    assert NodeOk(s', c, u);
  }

  lemma LinkStep(s: State, c: Chains, t: nat)
    requires InvWith(s, c) && t < |s.pc| && s.pc[t].LinkPred?
    ensures InvWith(Step(s, t), c)
  {
    assert ThreadOk(s, c, t);
    var x := c.node[t].prd.value;
    assert ThreadOk(s, c, x);
    forall u | 0 <= u < |s.pc| ensures ThreadOk(Step(s, t), c, u) && Lock(Step(s, t), c) {
      assert ThreadOk(s, c, u);
      LinkThread(s, c, t, x, u, Step(s, t));
    }
  }

  /** A thread finds the lock free and owns it. */
  lemma TakeThread(s: State, c: Chains, t: nat, u: nat, s': State, c': Chains)
    requires Before(s, c, s', c', t, u) && s.pc[t].SwapIn? && s.tail.None?
    requires s' == State(Some(t), s.next, s.unlocked, s.reserved, s.pc[t := Critical])
    requires c' == Chains(Some(t), c.node[t := In(None, 0, None, None)])
    ensures ThreadOk(s', c', u) && Lock(s', c')
  {
    assert NodeOk(s', c', u);
  }

  /** A thread appends itself behind the tail x. */
  lemma AppendThread(s: State, c: Chains, t: nat, x: nat, u: nat, s': State, c': Chains)
    requires Before(s, c, s', c', t, u) && s.pc[t].SwapIn? && s.tail == Some(x)
    requires ThreadOk(s, c, x)
    requires s' == State(Some(t), s.next, s.unlocked, s.reserved, s.pc[t := LinkPred(x)])
    requires c' == Chains(c.head, c.node[x := c.node[x].(suc := Some(t))]
                                        [t := In(None, c.node[x].rank + 1, Some(x), None)])
    ensures ThreadOk(s', c', u) && Lock(s', c')
  {
    assert NodeOk(s', c', u);
  }

  lemma SwapInStep(s: State, c: Chains, t: nat) returns (c': Chains)
    requires InvWith(s, c) && t < |s.pc| && s.pc[t].SwapIn?
    ensures InvWith(Step(s, t), c')
  {
    var s' := Step(s, t);
    assert ThreadOk(s, c, t);
    if s.tail.None? {
      c' := Chains(Some(t), c.node[t := In(None, 0, None, None)]);
      forall u | 0 <= u < |s.pc| ensures ThreadOk(s', c', u) && Lock(s', c') {
        assert ThreadOk(s, c, u);
        TakeThread(s, c, t, u, s', c');
      }
    } else {
      var x := s.tail.value;
      assert ThreadOk(s, c, x);
      c' := Chains(c.head, c.node[x := c.node[x].(suc := Some(t))]
                                 [t := In(None, c.node[x].rank + 1, Some(x), None)]);
      forall u | 0 <= u < |s.pc| ensures ThreadOk(s', c', u) && Lock(s', c') {
        assert ThreadOk(s, c, u);
        AppendThread(s, c, t, x, u, s', c');
      }
    }
  }

  /** The holder leaves and its successor y, whose link is written, holds the lock. */
  ghost predicate Grants(s: State, c: Chains, t: nat, y: nat, u: nat, s': State, c': Chains) {
    && Before(s, c, s', c', t, u)
    && (s.pc[t].GrantNext? || (s.pc[t].Finish? && s.pc[t].usurper.None?))
    && y < |s.pc| && c.node[t].In? && c.node[t].suc == Some(y) && s.next[t] == Some(y) && ThreadOk(s, c, y)
    && s' == State(s.tail, s.next, s.unlocked[y := true], s.reserved[y := false], s.pc[t := Idle])
    && c' == Chains(Some(y), c.node[t := Out][y := c.node[y].(prd := None)])
  }

  lemma GrantsOther(s: State, c: Chains, t: nat, y: nat, u: nat, s': State, c': Chains)
    requires Grants(s, c, t, y, u, s', c') && u != t && u != y
    ensures NodeOk(s', c', u)
  {
  }

  lemma GrantsNode(s: State, c: Chains, t: nat, y: nat, u: nat, s': State, c': Chains)
    requires Grants(s, c, t, y, u, s', c')
    ensures NodeOk(s', c', u)
  {
    if u != t && u != y {
      GrantsOther(s, c, t, y, u, s', c');
    }
  }

  lemma GrantsRest(s: State, c: Chains, t: nat, y: nat, u: nat, s': State, c': Chains)
    requires Grants(s, c, t, y, u, s', c') && NodeOk(s', c', u)
    ensures Parked(s', c', u) && Own(s', u) && MustHandOver(s', c', u)
  {
  }

  lemma GrantsLock(s: State, c: Chains, t: nat, y: nat, u: nat, s': State, c': Chains)
    requires Grants(s, c, t, y, u, s', c')
    ensures Lock(s', c')
  {
  }

  lemma GrantStep(s: State, c: Chains, t: nat) returns (c': Chains)
    requires InvWith(s, c) && t < |s.pc|
    requires s.pc[t].GrantNext? || (s.pc[t].Finish? && s.pc[t].usurper.None?)
    ensures InvWith(Step(s, t), c')
  {
    var s' := Step(s, t);
    assert ThreadOk(s, c, t);
    var y := c.node[t].suc.value;
    assert ThreadOk(s, c, y);
    c' := Chains(Some(y), c.node[t := Out][y := c.node[y].(prd := None)]);
    forall u | 0 <= u < |s.pc| ensures ThreadOk(s', c', u) && Lock(s', c') {
      assert ThreadOk(s, c, u);
      GrantsNode(s, c, t, y, u, s', c');
      GrantsRest(s, c, t, y, u, s', c');
      GrantsLock(s, c, t, y, u, s', c');
    }
  }

  /** The chains after every node with key `from` gets key `to` and its rank shifted. */
  ghost predicate Rekeyed(old_: seq<Node>, new_: seq<Node>, from: Option<nat>, to: Option<nat>, shift: int) {
    && |old_| == |new_|
    && forall i {:trigger new_[i]} :: 0 <= i < |old_| ==>
         new_[i] == (if old_[i].In? && old_[i].key == from
                     then old_[i].(key := to, rank := old_[i].rank + shift) else old_[i])
  }

  lemma Rekey(node: seq<Node>, from: Option<nat>, to: Option<nat>, shift: int) returns (r: seq<Node>)
    ensures Rekeyed(node, r, from, to, shift)
  {
    r := seq(|node|, i requires 0 <= i < |node| =>
      if node[i].In? && node[i].key == from
      then node[i].(key := to, rank := node[i].rank + shift) else node[i]);
  }

  /** The only queued thread swaps null in and frees the lock. */
  lemma FreeThread(s: State, c: Chains, t: nat, u: nat, s': State, c': Chains)
    requires Before(s, c, s', c', t, u) && s.pc[t].SwapOut? && s.tail == Some(t)
    requires s' == State(None, s.next, s.unlocked, s.reserved, s.pc[t := Idle])
    requires c' == Chains(None, c.node[t := Out])
    ensures ThreadOk(s', c', u) && Lock(s', c')
  {
    assert NodeOk(s', c', u);
  }

  /** The holder swaps null in although others queue behind it: it parks the whole queue. */
  ghost predicate Parks(s: State, c: Chains, t: nat, u: nat, s': State, c': Chains) {
    && Before(s, c, s', c', t, u)
    && s.pc[t].SwapOut? && s.tail.Some? && s.tail != Some(t) && ThreadOk(s, c, s.tail.value)
    && s' == State(None, s.next, s.unlocked, s.reserved, s.pc[t := SwapBack(s.tail)])
    && c'.head.None? && Rekeyed(c.node, c'.node, None, Some(t), 0)
  }

  lemma ParksOther(s: State, c: Chains, t: nat, u: nat, s': State, c': Chains)
    requires Parks(s, c, t, u, s', c') && u != t
    ensures NodeOk(s', c', u)
  {
  }

  lemma ParksNode(s: State, c: Chains, t: nat, u: nat, s': State, c': Chains)
    requires Parks(s, c, t, u, s', c')
    ensures NodeOk(s', c', u)
  {
    if u != t {
      ParksOther(s, c, t, u, s', c');
    }
  }

  lemma ParksRest(s: State, c: Chains, t: nat, u: nat, s': State, c': Chains)
    requires Parks(s, c, t, u, s', c') && NodeOk(s', c', u)
    ensures Parked(s', c', u) && Own(s', u) && MustHandOver(s', c', u)
  {
  }

  lemma ParksLock(s: State, c: Chains, t: nat, u: nat, s': State, c': Chains)
    requires Parks(s, c, t, u, s', c')
    ensures Lock(s', c')
  {
  }

  lemma SwapOutStep(s: State, c: Chains, t: nat) returns (c': Chains)
    requires InvWith(s, c) && t < |s.pc| && s.pc[t].SwapOut?
    ensures InvWith(Step(s, t), c')
  {
    var s' := Step(s, t);
    assert ThreadOk(s, c, t);
    if s.tail == Some(t) {
      c' := Chains(None, c.node[t := Out]);
      forall u | 0 <= u < |s.pc| ensures ThreadOk(s', c', u) && Lock(s', c') {
        assert ThreadOk(s, c, u);
        FreeThread(s, c, t, u, s', c');
      }
    } else {
      var node := Rekey(c.node, None, Some(t), 0);
      c' := Chains(None, node);
      assert ThreadOk(s, c, s.tail.value);
      forall u | 0 <= u < |s.pc| ensures ThreadOk(s', c', u) && Lock(s', c') {
        assert ThreadOk(s, c, u);
          ParksNode(s, c, t, u, s', c');
        ParksRest(s, c, t, u, s', c');
        ParksLock(s, c, t, u, s', c');
      }
    }
  }

  /** Nobody came in between: the releaser takes its parked queue back as the main one. */
  lemma UnparkNode(s: State, c: Chains, t: nat, u: nat, s': State, c': Chains)
    requires Before(s, c, s', c', t, u) && s.pc[t].SwapBack? && s.tail.None?
    requires s.pc[t].vicTail.Some? && ThreadOk(s, c, s.pc[t].vicTail.value)
    requires s' == State(s.pc[t].vicTail, s.next, s.unlocked, s.reserved, s.pc[t := SpinNext(None)])
    requires c'.head == Some(t) && Rekeyed(c.node, c'.node, Some(t), None, 0)
    ensures NodeOk(s', c', u)
  {
  }

  lemma UnparkThread(s: State, c: Chains, t: nat, u: nat, s': State, c': Chains)
    requires Before(s, c, s', c', t, u) && s.pc[t].SwapBack? && s.tail.None?
    requires s.pc[t].vicTail.Some? && ThreadOk(s, c, s.pc[t].vicTail.value)
    requires s' == State(s.pc[t].vicTail, s.next, s.unlocked, s.reserved, s.pc[t := SpinNext(None)])
    requires c'.head == Some(t) && Rekeyed(c.node, c'.node, Some(t), None, 0)
    ensures ThreadOk(s', c', u) && Lock(s', c')
  {
    UnparkNode(s, c, t, u, s', c');
  }

  /** A usurper queue ending in x came in: the parked queue goes behind it. */
  ghost predicate Behind(s: State, c: Chains, t: nat, x: nat, u: nat, s': State, c': Chains, node: seq<Node>) {
    && Before(s, c, s', c', t, u)
    && s.pc[t].SwapBack? && s.tail == Some(x)
    && s.pc[t].vicTail.Some? && ThreadOk(s, c, s.pc[t].vicTail.value) && ThreadOk(s, c, x)
    && s' == State(s.pc[t].vicTail, s.next, s.unlocked, s.reserved, s.pc[t := SpinNext(Some(x))])
    && c.node[x].In? && c.node[t].In?
    && Rekeyed(c.node, node, Some(t), None, c.node[x].rank - c.node[t].rank + 1)
    && c' == Chains(c.head, node[x := node[x].(suc := Some(t))][t := node[t].(prd := Some(x))])
  }

  lemma BehindOtherSuc(s: State, c: Chains, t: nat, x: nat, u: nat, s': State, c': Chains, node: seq<Node>)
    requires Behind(s, c, t, x, u, s', c', node) && u != t && u != x
    ensures NodeSuc(s', c', u)
  {
  }

  lemma BehindOther(s: State, c: Chains, t: nat, x: nat, u: nat, s': State, c': Chains, node: seq<Node>)
    requires Behind(s, c, t, x, u, s', c', node) && u != t && u != x
    ensures NodeOk(s', c', u)
  {
    BehindOtherSuc(s, c, t, x, u, s', c', node);
  }

  lemma BehindNode(s: State, c: Chains, t: nat, x: nat, u: nat, s': State, c': Chains, node: seq<Node>)
    requires Behind(s, c, t, x, u, s', c', node)
    ensures NodeOk(s', c', u)
  {
    if u != t && u != x {
      BehindOther(s, c, t, x, u, s', c', node);
    }
  }

  lemma BehindRest(s: State, c: Chains, t: nat, x: nat, u: nat, s': State, c': Chains, node: seq<Node>)
    requires Behind(s, c, t, x, u, s', c', node) && NodeOk(s', c', u)
    ensures Parked(s', c', u) && Own(s', u) && MustHandOver(s', c', u)
  {
  }

  lemma BehindLock(s: State, c: Chains, t: nat, x: nat, u: nat, s': State, c': Chains, node: seq<Node>)
    requires Behind(s, c, t, x, u, s', c', node)
    ensures Lock(s', c')
  {
  }

  lemma SwapBackStep(s: State, c: Chains, t: nat) returns (c': Chains)
    requires InvWith(s, c) && t < |s.pc| && s.pc[t].SwapBack?
    ensures InvWith(Step(s, t), c')
  {
    var s' := Step(s, t);
    assert ThreadOk(s, c, t);
    assert ThreadOk(s, c, s.pc[t].vicTail.value);
    if s.tail.None? {
      var node := Rekey(c.node, Some(t), None, 0);
      c' := Chains(Some(t), node);
      forall u | 0 <= u < |s.pc| ensures ThreadOk(s', c', u) && Lock(s', c') {
        assert ThreadOk(s, c, u);
        UnparkThread(s, c, t, u, s', c');
      }
    } else {
      var x := s.tail.value;
      assert ThreadOk(s, c, x);
      var node := Rekey(c.node, Some(t), None, c.node[x].rank - c.node[t].rank + 1);
      c' := Chains(c.head, node[x := node[x].(suc := Some(t))][t := node[t].(prd := Some(x))]);
      forall u | 0 <= u < |s.pc| ensures ThreadOk(s', c', u) && Lock(s', c') {
        assert ThreadOk(s, c, u);
        BehindNode(s, c, t, x, u, s', c', node);
        BehindRest(s, c, t, x, u, s', c', node);
        BehindLock(s, c, t, x, u, s', c', node);
      }
    }
  }

  /** A splicer writes the usurper's link to its first victim and leaves. */
  ghost predicate Splices(s: State, c: Chains, t: nat, x: nat, y: nat, u: nat, s': State, c': Chains) {
    && Before(s, c, s', c', t, u)
    && s.pc[t] == Finish(Some(x))
    && x < |s.pc| && y < |s.pc| && c.node[t].In? && c.node[t].prd == Some(x) && c.node[t].suc == Some(y)
    && s.next[t] == Some(y) && ThreadOk(s, c, x) && ThreadOk(s, c, y)
    && s' == State(s.tail, s.next[x := Some(y)], s.unlocked, s.reserved, s.pc[t := Idle])
    && c' == Chains(c.head, c.node[t := Out][x := c.node[x].(suc := Some(y))][y := c.node[y].(prd := Some(x))])
  }

  lemma SplicesOther(s: State, c: Chains, t: nat, x: nat, y: nat, u: nat, s': State, c': Chains)
    requires Splices(s, c, t, x, y, u, s', c') && u != t && u != x && u != y
    ensures NodeOk(s', c', u)
  {
  }

  lemma SplicesEnds(s: State, c: Chains, t: nat, x: nat, y: nat, u: nat, s': State, c': Chains)
    requires Splices(s, c, t, x, y, u, s', c') && (u == x || u == y)
    ensures NodeOk(s', c', u)
  {
  }

  lemma SplicesNode(s: State, c: Chains, t: nat, x: nat, y: nat, u: nat, s': State, c': Chains)
    requires Splices(s, c, t, x, y, u, s', c')
    ensures NodeOk(s', c', u)
  {
    if u == x || u == y {
      SplicesEnds(s, c, t, x, y, u, s', c');
    } else if u != t {
      SplicesOther(s, c, t, x, y, u, s', c');
    }
  }

  lemma SplicesRest(s: State, c: Chains, t: nat, x: nat, y: nat, u: nat, s': State, c': Chains)
    requires Splices(s, c, t, x, y, u, s', c') && NodeOk(s', c', u)
    ensures Parked(s', c', u) && Own(s', u) && MustHandOver(s', c', u)
  {
  }

  lemma SplicesLock(s: State, c: Chains, t: nat, x: nat, y: nat, u: nat, s': State, c': Chains)
    requires Splices(s, c, t, x, y, u, s', c')
    ensures Lock(s', c')
  {
  }

  lemma SpliceStep(s: State, c: Chains, t: nat) returns (c': Chains)
    requires InvWith(s, c) && t < |s.pc| && s.pc[t].Finish? && s.pc[t].usurper.Some?
    ensures InvWith(Step(s, t), c')
  {
    var s' := Step(s, t);
    assert ThreadOk(s, c, t);
    var x, y := c.node[t].prd.value, c.node[t].suc.value;
    assert ThreadOk(s, c, x) && ThreadOk(s, c, y);
    c' := Chains(c.head, c.node[t := Out][x := c.node[x].(suc := Some(y))][y := c.node[y].(prd := Some(x))]);
    forall u | 0 <= u < |s.pc| ensures ThreadOk(s', c', u) && Lock(s', c') {
      assert ThreadOk(s, c, u);
      SplicesNode(s, c, t, x, y, u, s', c');
      SplicesRest(s, c, t, x, y, u, s', c');
      SplicesLock(s, c, t, x, y, u, s', c');
    }
  }

  lemma StepKeepsInv(s: State, t: nat)
    requires Inv(s) && t < |s.pc|
    ensures Inv(Step(s, t))
  {
    var c :| InvWith(s, c);
    var c' := c;
    if s.pc[t].LinkPred? {
      LinkStep(s, c, t);
    } else if s.pc[t].SwapIn? {
      c' := SwapInStep(s, c, t);
    } else if s.pc[t].GrantNext? || (s.pc[t].Finish? && s.pc[t].usurper.None?) {
      c' := GrantStep(s, c, t);
    } else if s.pc[t].SwapOut? {
      c' := SwapOutStep(s, c, t);
    } else if s.pc[t].SwapBack? {
      c' := SwapBackStep(s, c, t);
    } else if s.pc[t].Finish? {
      c' := SpliceStep(s, c, t);
    } else {
      QuietStep(s, c, t);
    }
    assert InvWith(Step(s, t), c');
  }

  lemma {:induction false} ExecKeepsInv(s: State, sched: seq<nat>)
    requires Inv(s) && WellFormed(s) && Schedule(|s.pc|, sched)
    ensures Inv(Exec(s, sched))
    decreases |sched|
  {
    if sched != [] {
      var most := sched[..|sched| - 1];
      assert forall i :: 0 <= i < |most| ==> most[i] == sched[i];
      ExecKeepsInv(s, most);
      StepKeepsInv(Exec(s, most), sched[|sched| - 1]);
    }
  }

  // ---------------------------------------------------------------------------------------
  // Main results.

  /** Over every interleaving of any number of threads repeatedly acquiring and releasing, at
      most one is in its critical section, and no null pointer is ever followed. */
  lemma MutualExclusion(n: nat, sched: seq<nat>)
    requires Schedule(n, sched)
    ensures var s := Exec(Init(n), sched);
      && (forall a, b :: 0 <= a < n && 0 <= b < n && s.pc[a].Critical? && s.pc[b].Critical? ==> a == b)
      && (forall a :: 0 <= a < n ==> !s.pc[a].Fault?)
  {
    InitInv(n);
    ExecKeepsInv(Init(n), sched);
    var s := Exec(Init(n), sched);
    var c :| InvWith(s, c);
    forall a | 0 <= a < n
      ensures !s.pc[a].Fault? && (s.pc[a].Critical? ==> c.head == Some(a))
    {
      assert ThreadOk(s, c, a);
    }
  }

  /** A thread asleep in LR.AQ never sits on a word that already has the awaited value. */
  lemma NoMissedWakeup(n: nat, sched: seq<nat>, t: nat)
    requires Schedule(n, sched) && t < n
    ensures var s := Exec(Init(n), sched);
      s.pc[t].WaitLrAq? && s.reserved[t] ==> !s.unlocked[t]
  {
    InitInv(n);
    ExecKeepsInv(Init(n), sched);
    var s := Exec(Init(n), sched);
    var c :| InvWith(s, c);
    assert ThreadOk(s, c, t);
  }

  // ---------------------------------------------------------------------------------------
  // No lost waiter and no deadlock.

  /** Thread t is inside acquire or release and its next step does something. */
  predicate CanMove(s: State, t: nat)
    requires WellFormed(s) && t < |s.pc|
  {
    !s.pc[t].Idle? && Step(s, t) != s
  }

  ghost predicate Stuck(s: State)
    requires WellFormed(s)
  {
    forall t :: 0 <= t < |s.pc| ==> !CanMove(s, t)
  }

  /** Except for a vain spin, a step changes the thread's program counter. */
  lemma StepMovesOn(s: State, t: nat)
    requires WellFormed(s) && t < |s.pc|
    ensures || Step(s, t).pc[t] != s.pc[t]
            || s.pc[t].Fault?
            || (s.pc[t].WaitLrAq? && s.reserved[t])
            || (s.pc[t].SpinNext? && s.next[t].None?)
  {
  }

  /** A thread that cannot move waits for its grant or for its `next` to be written. */
  lemma WhyBlocked(s: State, c: Chains, t: nat)
    requires InvWith(s, c) && t < |s.pc| && !CanMove(s, t)
    ensures || s.pc[t].Idle?
            || (s.pc[t].WaitLrAq? && s.reserved[t] && !s.unlocked[t])
            || (s.pc[t].SpinNext? && s.next[t].None?)
  {
    assert ThreadOk(s, c, t);
    StepMovesOn(s, t);
  }

  /** The queued thread of least rank. */
  lemma {:induction false} LeastRank(node: seq<Node>, n: nat) returns (t: nat)
    requires n <= |node| && exists i :: 0 <= i < n && node[i].In?
    ensures t < n && node[t].In?
    ensures forall i :: 0 <= i < n && node[i].In? ==> node[t].rank <= node[i].rank
  {
    if exists i :: 0 <= i < n - 1 && node[i].In? {
      t := LeastRank(node, n - 1);
      if node[n - 1].In? && node[n - 1].rank < node[t].rank {
        t := n - 1;
      }
    } else {
      t := n - 1;
    }
  }

  /** The spinning thread of greatest rank. */
  lemma {:induction false} LastSpinner(s: State, c: Chains, n: nat) returns (t: nat)
    requires n <= |s.pc| == |c.node|
    requires exists i :: 0 <= i < n && s.pc[i].SpinNext? && c.node[i].In?
    ensures t < n && s.pc[t].SpinNext? && c.node[t].In?
    ensures forall i :: 0 <= i < n && s.pc[i].SpinNext? && c.node[i].In? ==> c.node[i].rank <= c.node[t].rank
  {
    if exists i :: 0 <= i < n - 1 && s.pc[i].SpinNext? && c.node[i].In? {
      t := LastSpinner(s, c, n - 1);
      if s.pc[n - 1].SpinNext? && c.node[n - 1].In? && c.node[n - 1].rank > c.node[t].rank {
        t := n - 1;
      }
    } else {
      t := n - 1;
    }
  }

  /** In a stuck state nobody spins: the last spinner's link has been written. */
  lemma StuckNobodySpins(s: State, c: Chains)
    requires InvWith(s, c) && Stuck(s)
    ensures forall t :: 0 <= t < |s.pc| ==> !s.pc[t].SpinNext?
  {
    if t0 :| 0 <= t0 < |s.pc| && s.pc[t0].SpinNext? {
      assert ThreadOk(s, c, t0);
      var t := LastSpinner(s, c, |s.pc|);
      assert ThreadOk(s, c, t);
      WhyBlocked(s, c, t);
      var y := c.node[t].suc.value;
      assert ThreadOk(s, c, y);
      WhyBlocked(s, c, y);
      assert false;
    }
  }

  lemma PredecessorRank(s: State, c: Chains, f: nat)
    requires InvWith(s, c) && f < |s.pc| && c.node[f].In? && c.node[f].prd.Some?
    ensures var x := c.node[f].prd.value;
      x < |s.pc| && c.node[x].In? && c.node[x].rank < c.node[f].rank
  {
    assert ThreadOk(s, c, f);
    assert ThreadOk(s, c, c.node[f].prd.value);
  }

  /** If nobody can move, nobody is inside acquire or release. */
  lemma StuckMeansIdle(s: State)
    requires WellFormed(s) && Inv(s) && Stuck(s)
    ensures forall t :: 0 <= t < |s.pc| ==> s.pc[t].Idle?
  {
    var c :| InvWith(s, c);
    StuckNobodySpins(s, c);
    forall t | 0 <= t < |s.pc| ensures s.pc[t].Idle? {
      WhyBlocked(s, c, t);
      assert ThreadOk(s, c, t);
      if !s.pc[t].Idle? {
        var f := LeastRank(c.node, |c.node|);
        assert ThreadOk(s, c, f);
        WhyBlocked(s, c, f);
        if c.node[f].prd.Some? {
          PredecessorRank(s, c, f);
        }
        assert false;
      }
    }
  }

  /** No deadlock: in every reachable state, either everybody is idle or some thread inside
      acquire or release can move. */
  lemma NoDeadlock(n: nat, sched: seq<nat>)
    requires Schedule(n, sched)
    ensures var s := Exec(Init(n), sched);
      || (forall t :: 0 <= t < n ==> s.pc[t].Idle?)
      || (exists t :: 0 <= t < n && CanMove(s, t))
  {
    InitInv(n);
    ExecKeepsInv(Init(n), sched);
    var s := Exec(Init(n), sched);
    if Stuck(s) {
      StuckMeansIdle(s);
    }
  }

  /** How many more steps a thread can take before it is idle again. */
  function Rank(pc: Pc): nat {
    match pc
    case ClearNext => 12
    case ClearUnlocked => 11
    case SwapIn => 10
    case LinkPred(_) => 9
    case WaitLr => 8
    case WaitLrAq => 7
    case Critical => 6
    case CheckNext => 5
    case GrantNext => 4
    case SwapOut => 4
    case SwapBack(_) => 3
    case SpinNext(_) => 2
    case Finish(_) => 1
    case Idle => 0
    case Fault => 0
  }

  function Work(pc: seq<Pc>): nat {
    if pc == [] then 0 else Work(pc[..|pc| - 1]) + Rank(pc[|pc| - 1])
  }

  lemma {:induction false} WorkUpdate(pc: seq<Pc>, t: nat, p: Pc)
    requires t < |pc|
    ensures Work(pc[t := p]) == Work(pc) - Rank(pc[t]) + Rank(p)
  {
    var most := pc[..|pc| - 1];
    if t < |pc| - 1 {
      WorkUpdate(most, t, p);
      assert pc[t := p][..|pc| - 1] == most[t := p];
    } else {
      assert pc[t := p][..|pc| - 1] == most;
    }
  }

  /** A schedule in which every step is a real move by a thread that is not idle: nobody
      starts a new acquire and nobody spins in vain. */
  ghost predicate Draining(s: State, sched: seq<nat>)
    requires WellFormed(s) && Schedule(|s.pc|, sched)
    decreases |sched|
  {
    sched != [] ==>
      var most := sched[..|sched| - 1];
      assert forall i :: 0 <= i < |most| ==> most[i] == sched[i];
      Draining(s, most) && CanMove(Exec(s, most), sched[|sched| - 1])
  }

  lemma MoveLowersRank(s: State, t: nat)
    requires WellFormed(s) && t < |s.pc| && Own(s, t) && CanMove(s, t)
    ensures Rank(Step(s, t).pc[t]) < Rank(s.pc[t])
    ensures Step(s, t).pc == s.pc[t := Step(s, t).pc[t]]
  {
  }

  lemma MoveWorks(s: State, t: nat)
    requires WellFormed(s) && Inv(s) && t < |s.pc| && CanMove(s, t)
    ensures Work(Step(s, t).pc) < Work(s.pc)
  {
    var c :| InvWith(s, c);
    assert ThreadOk(s, c, t);
    MoveLowersRank(s, t);
    WorkUpdate(s.pc, t, Step(s, t).pc[t]);
  }

  lemma {:induction false} DrainBound(s: State, sched: seq<nat>)
    requires WellFormed(s) && Inv(s) && Schedule(|s.pc|, sched) && Draining(s, sched)
    ensures |sched| + Work(Exec(s, sched).pc) <= Work(s.pc)
    decreases |sched|
  {
    if sched != [] {
      var most := sched[..|sched| - 1];
      assert forall i :: 0 <= i < |most| ==> most[i] == sched[i];
      DrainBound(s, most);
      ExecKeepsInv(s, most);
      MoveWorks(Exec(s, most), sched[|sched| - 1]);
    }
  }

  /** Thread t is still on its way to the critical section. */
  predicate Acquiring(pc: Pc) {
    pc.ClearNext? || pc.ClearUnlocked? || pc.SwapIn? || pc.LinkPred? || Waiting(pc)
  }

  ghost predicate WasCritical(s: State, sched: seq<nat>, t: nat)
    requires WellFormed(s) && Schedule(|s.pc|, sched) && t < |s.pc|
    decreases |sched|
  {
    || Exec(s, sched).pc[t].Critical?
    || (sched != [] &&
         var most := sched[..|sched| - 1];
         assert forall i :: 0 <= i < |most| ==> most[i] == sched[i];
         WasCritical(s, most, t))
  }

  lemma LeavesAcquiringByCritical(s: State, t: nat, u: nat)
    requires WellFormed(s) && t < |s.pc| && u < |s.pc| && Acquiring(s.pc[u]) && !Acquiring(Step(s, t).pc[u])
    ensures Step(s, t).pc[u].Critical?
  {
  }

  lemma {:induction false} PassesCritical(s: State, sched: seq<nat>, t: nat)
    requires WellFormed(s) && Schedule(|s.pc|, sched) && t < |s.pc|
    requires Acquiring(s.pc[t]) && !Acquiring(Exec(s, sched).pc[t])
    ensures WasCritical(s, sched, t)
    decreases |sched|
  {
    var most := sched[..|sched| - 1];
    assert forall i :: 0 <= i < |most| ==> most[i] == sched[i];
    if Acquiring(Exec(s, most).pc[t]) {
      LeavesAcquiringByCritical(Exec(s, most), sched[|sched| - 1], t);
    } else {
      PassesCritical(s, most, t);
    }
  }

  /** Once nobody starts a new acquire, the threads inside make at most Work(s.pc) moves, and
      when no move is left everybody is idle and whoever was acquiring has been served. */
  lemma Drained(s: State, sched: seq<nat>)
    requires WellFormed(s) && Inv(s) && Schedule(|s.pc|, sched) && Draining(s, sched)
    ensures |sched| <= Work(s.pc)
    ensures Stuck(Exec(s, sched)) ==>
      forall t :: 0 <= t < |s.pc| ==>
        Exec(s, sched).pc[t].Idle? && (Acquiring(s.pc[t]) ==> WasCritical(s, sched, t))
  {
    DrainBound(s, sched);
    if Stuck(Exec(s, sched)) {
      ExecKeepsInv(s, sched);
      StuckMeansIdle(Exec(s, sched));
      forall t | 0 <= t < |s.pc| && Acquiring(s.pc[t]) ensures WasCritical(s, sched, t) {
        PassesCritical(s, sched, t);
      }
    }
  }

  /** No lost waiter: the above for every reachable state s. */
  lemma EveryWaiterServed(n: nat, before: seq<nat>, s: State, sched: seq<nat>)
    requires Schedule(n, before) && s == Exec(Init(n), before)
    requires Schedule(n, sched) && Draining(s, sched)
    ensures |sched| <= Work(s.pc)
    ensures Stuck(Exec(s, sched)) ==>
      forall t :: 0 <= t < n ==>
        Exec(s, sched).pc[t].Idle? && (Acquiring(s.pc[t]) ==> WasCritical(s, sched, t))
  {
    InitInv(n);
    ExecKeepsInv(Init(n), before);
    Drained(s, sched);
  }
}
