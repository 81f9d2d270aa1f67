/** The token queue (bsg_token_queue.h, int build) and the ring buffer built on it
    (bsg_token_queue/main.c).

    The counters are 32-bit and wrap. Stores to the other tile are in flight until delivered:
    data words in any order, the successive values of one counter in the order they were sent.
    bsg_commit_stores waits until the sender has nothing in flight. */
module TokenQueue {
  import opened Arithmetic

  const TWO_31: int := 0x8000_0000
  const TWO_32: int := 0x1_0000_0000

  /** The value of a 32-bit signed int that has been computed as n: 2^32 is taken off or added
      until it fits. */
  function Wrap(n: int): (w: int)
    ensures -TWO_31 <= w < TWO_31
    ensures -TWO_31 <= n < TWO_31 ==> w == n
    decreases if n >= TWO_31 then n else if n < -TWO_31 then -n else 0
  {
    if n >= TWO_31 then Wrap(n - TWO_32) else if n < -TWO_31 then Wrap(n + TWO_32) else n
  }

  lemma {:induction false} WrapTurns(n: int) returns (k: int)
    ensures n == Wrap(n) + k * TWO_32
    decreases if n >= TWO_31 then n else if n < -TWO_31 then -n else 0
  {
    if n >= TWO_31 {
      k := WrapTurns(n - TWO_32);
      k := k + 1;
    } else if n < -TWO_31 {
      k := WrapTurns(n + TWO_32);
      k := k - 1;
    } else {
      k := 0;
    }
  }

  /** The int of 32 bits that is congruent to n. */
  lemma WrapIsInt32(n: int) returns (k: int)
    ensures -0x8000_0000 <= Wrap(n) < 0x8000_0000 && n == Wrap(n) + k * 0x1_0000_0000
  {
    k := WrapTurns(n);
  }

  lemma SameResidue(x: int, y: int, k: int)
    requires -TWO_31 <= x < TWO_31 && -TWO_31 <= y < TWO_31 && x == y + k * TWO_32
    ensures x == y
  {
  }

  lemma WrapSub(a: int, b: int)
    ensures Wrap(Wrap(a) - Wrap(b)) == Wrap(a - b)
  {
    var k := WrapTurns(a);
    var l := WrapTurns(b);
    var m := WrapTurns(Wrap(a) - Wrap(b));
    var n := WrapTurns(a - b);
    SameResidue(Wrap(Wrap(a) - Wrap(b)), Wrap(a - b), n - m - k + l);
  }

  lemma WrapAdd(a: int, b: int)
    ensures Wrap(Wrap(a) + b) == Wrap(a + b)
  {
    var k := WrapTurns(a);
    var m := WrapTurns(Wrap(a) + b);
    var n := WrapTurns(a + b);
    SameResidue(Wrap(Wrap(a) + b), Wrap(a + b), n - m - k);
  }

  /** slots: frames in the ring; words: ints in a frame; word j of frame i is source(i, j). */
  datatype Config = Config(slots: nat, words: nat, source: (nat, nat) -> int)

  predicate ConfigOk(q: Config) {
    0 < q.slots < TWO_31 && 0 < q.words
  }

  /** A counter: the int the machine holds, and, for the record only, how many frames it has
      counted altogether. No step looks at `total`. */
  datatype Counter = Counter(value: int, total: nat)

  function Plus(c: Counter, d: nat): Counter {
    Counter(Wrap(c.value + d), c.total + d)
  }

  /** A data word on its way; `frame` is for the record only. */
  datatype Data = Data(slot: nat, word: nat, value: int, frame: nat)

  datatype SenderPc =
    | SIdle
    | SLr(depth: nat, tmp: int)
    | SLrAq(depth: nat, tmp: int)
    | SWrite(depth: nat, done: nat, word: nat)
    | SCommit(depth: nat)
    | SLocal(depth: nat)
    | SRemote

  datatype ReceiverPc =
    | RIdle
    | RLr(depth: nat, tmp: int)
    | RLrAq(depth: nat, tmp: int)
    | RRead(depth: nat, done: nat, word: nat)
    | RLocal(depth: nat)
    | RRemote

  datatype State = State(
    // the sender's tile
    spc: SenderPc,
    send: Counter,
    receiveCopy: Counter,
    sres: bool,
    writeSlot: nat,
    produced: nat,
    // the receiver's tile
    rpc: ReceiverPc,
    receive: Counter,
    sendCopy: Counter,
    rres: bool,
    readSlot: nat,
    buffer: seq<seq<int>>,
    current: seq<int>,
    frames: seq<seq<int>>,
    // in flight
    data: multiset<Data>,
    sendStores: seq<Counter>,
    receiveStores: seq<Counter>)

  datatype Act =
    | SBegin(depth: nat)
    | SStep
    | RBegin(depth: nat)
    | RStep
    | DeliverData(d: Data)
    | DeliverSend
    | DeliverReceive

  ghost predicate Valid(q: Config, s: State) {
    && ConfigOk(q)
    && |s.buffer| == q.slots && (forall i :: 0 <= i < q.slots ==> |s.buffer[i]| == q.words)
    && s.writeSlot < q.slots && s.readSlot < q.slots
    && (s.spc.SWrite? ==> s.spc.word < q.words && s.spc.done < s.spc.depth)
    && (s.rpc.RRead? ==> s.rpc.word < q.words && s.rpc.done < s.rpc.depth)
    && (forall d :: d in s.data ==> d.slot < q.slots && d.word < q.words)
  }

  function Init(q: Config): (s: State)
    requires ConfigOk(q)
    ensures Valid(q, s)
  {
    var zero := Counter(0, 0);
    State(SIdle, zero, zero, false, 0, 0,
          RIdle, zero, zero, false, 0, seq(q.slots, _ => seq(q.words, _ => 0)), [], [],
          multiset{}, [], [])
  }

  function NextSlot(q: Config, i: nat): nat {
    if i + 1 == q.slots then 0 else i + 1
  }

  /** The sender finds that it may write `depth` more frames. */
  predicate HasRoom(tmp: int, received: Counter) {
    Wrap(tmp - received.value) <= 0
  }

  /** The receiver finds `depth` frames to read. */
  predicate HasFrames(tmp: int, sent: Counter) {
    Wrap(sent.value - tmp) >= 0
  }

  function BeginWrite(depth: nat): SenderPc {
    if depth == 0 then SCommit(0) else SWrite(depth, 0, 0)
  }

  function SenderStep(q: Config, s: State): (s': State)
    requires Valid(q, s)
    ensures Valid(q, s')
  {
    match s.spc
    case SIdle => s
    case SLr(depth, tmp) =>
      s.(sres := true, spc := if HasRoom(tmp, s.receiveCopy) then BeginWrite(depth) else SLrAq(depth, tmp))
    case SLrAq(depth, tmp) =>
      if s.sres then s
      else s.(spc := if HasRoom(tmp, s.receiveCopy) then BeginWrite(depth) else SLr(depth, tmp))
    case SWrite(depth, done, word) =>
      var d := Data(s.writeSlot, word, q.source(s.produced, word), s.produced);
      var s1 := s.(data := s.data[d := s.data[d] + 1]);
      if word + 1 < q.words then s1.(spc := SWrite(depth, done, word + 1))
      else s1.(writeSlot := NextSlot(q, s.writeSlot), produced := s.produced + 1,
               spc := if done + 1 < depth then SWrite(depth, done + 1, 0) else SCommit(depth))
    case SCommit(depth) =>
      if s.data == multiset{} && s.sendStores == [] then s.(spc := SLocal(depth)) else s
    case SLocal(depth) => s.(send := Plus(s.send, depth), spc := SRemote)
    case SRemote => s.(sendStores := s.sendStores + [s.send], spc := SIdle)
  }

  function BeginRead(depth: nat): ReceiverPc {
    if depth == 0 then RLocal(0) else RRead(depth, 0, 0)
  }

  function ReceiverStep(q: Config, s: State): (s': State)
    requires Valid(q, s)
    ensures Valid(q, s')
  {
    match s.rpc
    case RIdle => s
    case RLr(depth, tmp) =>
      s.(rres := true, rpc := if HasFrames(tmp, s.sendCopy) then BeginRead(depth) else RLrAq(depth, tmp))
    case RLrAq(depth, tmp) =>
      if s.rres then s
      else s.(rpc := if HasFrames(tmp, s.sendCopy) then BeginRead(depth) else RLr(depth, tmp))
    case RRead(depth, done, word) =>
      var now := s.current + [s.buffer[s.readSlot][word]];
      if word + 1 < q.words then s.(current := now, rpc := RRead(depth, done, word + 1))
      else s.(current := [], frames := s.frames + [now], readSlot := NextSlot(q, s.readSlot),
              rpc := if done + 1 < depth then RRead(depth, done + 1, 0) else RLocal(depth))
    case RLocal(depth) => s.(receive := Plus(s.receive, depth), rpc := RRemote)
    case RRemote => s.(receiveStores := s.receiveStores + [s.receive], rpc := RIdle)
  }

  function Step(q: Config, s: State, a: Act): (s': State)
    requires Valid(q, s)
    ensures Valid(q, s')
  {
    match a
    case SBegin(depth) =>
      if !s.spc.SIdle? || depth >= TWO_31 then s
      else s.(spc := SLr(depth, Wrap(depth - q.slots + s.send.value)))
    case SStep => SenderStep(q, s)
    case RBegin(depth) =>
      if !s.rpc.RIdle? || depth >= TWO_31 then s
      else s.(rpc := RLr(depth, Wrap(depth + s.receive.value)))
    case RStep => ReceiverStep(q, s)
    case DeliverData(d) =>
      if d !in s.data then s
      else s.(buffer := s.buffer[d.slot := s.buffer[d.slot][d.word := d.value]], data := s.data[d := s.data[d] - 1])
    case DeliverSend =>
      if s.sendStores == [] then s
      else s.(sendCopy := s.sendStores[0], rres := false, sendStores := s.sendStores[1..])
    case DeliverReceive =>
      if s.receiveStores == [] then s
      else s.(receiveCopy := s.receiveStores[0], sres := false, receiveStores := s.receiveStores[1..])
  }

  function Exec(q: Config, s: State, sched: seq<Act>): (s': State)
    requires Valid(q, s)
    ensures Valid(q, s')
  {
    if sched == [] then s else Step(q, Exec(q, s, sched[..|sched| - 1]), sched[|sched| - 1])
  }

  // ---- wrapped counters ----

  lemma WrapsBack(n: int, k: int)
    requires -TWO_31 <= n - k < TWO_31
    ensures Wrap(Wrap(n) - Wrap(k)) == n - k
  {
    WrapSub(n, k);
  }

  ghost predicate CounterOk(c: Counter) {
    c.value == Wrap(c.total)
  }

  lemma PlusOk(c: Counter, d: nat)
    requires CounterOk(c)
    ensures CounterOk(Plus(c, d))
  {
    WrapAdd(c.total, d);
  }

  /** A copy `near`, the stores on their way to it and the original `far` only ever grow in this
      order. */
  ghost predicate ChannelOk(near: Counter, stores: seq<Counter>, far: Counter) {
    && CounterOk(near) && CounterOk(far) && near.total <= far.total
    && (forall i :: 0 <= i < |stores| ==> CounterOk(stores[i]) && near.total <= stores[i].total <= far.total)
    && (forall i, j :: 0 <= i < j < |stores| ==> stores[i].total <= stores[j].total)
  }

  lemma ChannelGrows(near: Counter, stores: seq<Counter>, far: Counter, far': Counter)
    requires ChannelOk(near, stores, far) && CounterOk(far') && far.total <= far'.total
    ensures ChannelOk(near, stores, far')
  {
  }

  lemma ChannelStores(near: Counter, stores: seq<Counter>, far: Counter)
    requires ChannelOk(near, stores, far)
    ensures ChannelOk(near, stores + [far], far)
  {
  }

  lemma ChannelDelivers(near: Counter, stores: seq<Counter>, far: Counter)
    requires ChannelOk(near, stores, far) && stores != []
    ensures ChannelOk(stores[0], stores[1..], far) && near.total <= stores[0].total
  {
  }

  // ---- slots ----

  function Slot(q: Config, f: nat): (i: nat)
    requires ConfigOk(q)
    ensures i < q.slots
  {
    f % q.slots
  }

  lemma SlotsDiffer(q: Config, a: nat, b: nat)
    requires ConfigOk(q) && a < b < a + q.slots
    ensures Slot(q, a) != Slot(q, b)
  {
    ModDiffers(a, b, q.slots);
  }

  lemma SlotAdvances(q: Config, f: nat)
    requires ConfigOk(q)
    ensures NextSlot(q, Slot(q, f)) == Slot(q, f + 1)
  {
    var k, r := f / q.slots, f % q.slots;
    if r + 1 == q.slots {
      DivModIs(f + 1, q.slots, k + 1, 0);
    } else {
      DivModIs(f + 1, q.slots, k, r + 1);
    }
  }

  // ---- the invariant ----

  /** The word w of frame f as the sender stores it. */
  function Word(q: Config, f: nat, w: nat): Data
    requires ConfigOk(q)
  {
    Data(Slot(q, f), w, q.source(f, w), f)
  }

  function Frame(q: Config, f: nat): (x: seq<int>)
    ensures |x| == q.words
  {
    seq(q.words, (w: nat) => q.source(f, w))
  }

  /** The sender has stored the word. */
  ghost predicate Stored(s: State, f: nat, w: nat) {
    f < s.produced || (f == s.produced && s.spc.SWrite? && w < s.spc.word)
  }

  ghost predicate Arrived(q: Config, s: State, f: nat, w: nat)
    requires Valid(q, s) && w < q.words
  {
    s.buffer[Slot(q, f)][w] == q.source(f, w) || Word(q, f, w) in s.data
  }

  ghost predicate CountersOk(s: State) {
    && ChannelOk(s.sendCopy, s.sendStores, s.send)
    && ChannelOk(s.receiveCopy, s.receiveStores, s.receive)
  }

  ghost predicate SenderOk(q: Config, s: State)
    requires ConfigOk(q)
  {
    && s.writeSlot == Slot(q, s.produced)
    && s.send.total <= s.receiveCopy.total + q.slots
    && match s.spc
       case SIdle => s.produced == s.send.total
       case SLr(depth, tmp) =>
         s.produced == s.send.total && depth < TWO_31 && tmp == Wrap(depth - q.slots + s.send.total)
       case SLrAq(depth, tmp) =>
         && s.produced == s.send.total && depth < TWO_31 && tmp == Wrap(depth - q.slots + s.send.total)
         && (s.sres ==> !HasRoom(tmp, s.receiveCopy))
       case SWrite(depth, done, word) =>
         s.produced == s.send.total + done && done < depth && s.send.total + depth <= s.receiveCopy.total + q.slots
       case SCommit(depth) => s.produced == s.send.total + depth <= s.receiveCopy.total + q.slots
       case SLocal(depth) => s.produced == s.send.total + depth <= s.receiveCopy.total + q.slots
       case SRemote => s.produced == s.send.total
  }

  ghost predicate ReceiverOk(q: Config, s: State)
    requires ConfigOk(q)
  {
    && s.readSlot == Slot(q, |s.frames|)
    && s.receive.total <= s.sendCopy.total
    && (!s.rpc.RRead? ==> s.current == [])
    && match s.rpc
       case RIdle => |s.frames| == s.receive.total
       case RLr(depth, tmp) =>
         |s.frames| == s.receive.total && depth < TWO_31 && tmp == Wrap(depth + s.receive.total)
       case RLrAq(depth, tmp) =>
         && |s.frames| == s.receive.total && depth < TWO_31 && tmp == Wrap(depth + s.receive.total)
         && (s.rres ==> !HasFrames(tmp, s.sendCopy))
       case RRead(depth, done, word) =>
         && |s.frames| == s.receive.total + done && done < depth && s.receive.total + depth <= s.sendCopy.total
         && word < q.words && s.current == Frame(q, |s.frames|)[..word]
       case RLocal(depth) => |s.frames| == s.receive.total + depth <= s.sendCopy.total
       case RRemote => |s.frames| == s.receive.total
  }

  ghost predicate DataOk(q: Config, s: State)
    requires ConfigOk(q)
  {
    && (!s.spc.SWrite? && !s.spc.SCommit? ==> s.data == multiset{})
    && (forall d :: d in s.data ==>
          d.word < q.words && s.send.total <= d.frame && Stored(s, d.frame, d.word) && d == Word(q, d.frame, d.word))
  }

  ghost predicate BufferOk(q: Config, s: State)
    requires Valid(q, s)
  {
    forall f: nat, w: nat :: s.receive.total <= f && w < q.words && Stored(s, f, w) ==> Arrived(q, s, f, w)
  }

  ghost predicate FramesOk(q: Config, s: State) {
    forall n :: 0 <= n < |s.frames| ==> s.frames[n] == Frame(q, n)
  }

  ghost predicate Inv(q: Config, s: State) {
    && Valid(q, s) && CountersOk(s) && SenderOk(q, s) && ReceiverOk(q, s)
    && DataOk(q, s) && BufferOk(q, s) && FramesOk(q, s)
  }

  /** The receiver has read no frame that was not sent, and the sender has stored no frame for
      which there is no slot. */
  lemma Bounds(q: Config, s: State)
    requires ConfigOk(q) && CountersOk(s) && SenderOk(q, s) && ReceiverOk(q, s)
    ensures s.receiveCopy.total <= s.receive.total <= |s.frames| <= s.sendCopy.total <= s.send.total
    ensures s.send.total <= s.produced <= s.receiveCopy.total + q.slots
    ensures s.spc.SWrite? ==> s.produced < s.receiveCopy.total + q.slots
  {
  }

  /** The wrapped test of the sender decides the comparison of the true counts. */
  lemma RoomTest(q: Config, s: State, depth: nat, tmp: int)
    requires ConfigOk(q) && CountersOk(s) && SenderOk(q, s) && ReceiverOk(q, s)
    requires depth < TWO_31 && tmp == Wrap(depth - q.slots + s.send.total)
    ensures HasRoom(tmp, s.receiveCopy) <==> s.send.total + depth <= s.receiveCopy.total + q.slots
  {
    Bounds(q, s);
    WrapsBack(depth - q.slots + s.send.total, s.receiveCopy.total);
  }

  /** The wrapped test of the receiver decides the comparison of the true counts. */
  lemma FramesTest(q: Config, s: State, depth: nat, tmp: int)
    requires ConfigOk(q) && CountersOk(s) && SenderOk(q, s) && ReceiverOk(q, s)
    requires depth < TWO_31 && tmp == Wrap(depth + s.receive.total)
    ensures HasFrames(tmp, s.sendCopy) <==> s.receive.total + depth <= s.sendCopy.total
  {
    Bounds(q, s);
    WrapsBack(s.sendCopy.total, depth + s.receive.total);
  }

  // ---- every step keeps the invariant ----

  lemma InitInv(q: Config)
    requires ConfigOk(q)
    ensures Inv(q, Init(q))
  {
  }

  /** What is in the buffer and in flight stays right when only the control state changes. */
  lemma MemoryKept(q: Config, s: State, s': State)
    requires Inv(q, s) && Valid(q, s')
    requires s'.buffer == s.buffer && s'.data == s.data && s'.produced == s.produced && s'.frames == s.frames
    requires s.receive.total <= s'.receive.total
    requires
      || (s'.spc == s.spc && s'.send == s.send)
      || (s.data == multiset{} && !s.spc.SWrite? && (s'.spc.SWrite? ==> s'.spc.word == 0))
    ensures DataOk(q, s') && BufferOk(q, s') && FramesOk(q, s')
  {
    forall f: nat, w: nat | s'.receive.total <= f && w < q.words && Stored(s', f, w) ensures Arrived(q, s', f, w) {
      assert Stored(s, f, w);
      assert Arrived(q, s, f, w);
    }
  }

  lemma SenderBegins(q: Config, s: State, depth: nat)
    requires Valid(q, s) && CountersOk(s) && SenderOk(q, s) && ReceiverOk(q, s)
    ensures
      var s' := Step(q, s, SBegin(depth));
      CountersOk(s') && SenderOk(q, s') && ReceiverOk(q, s')
  {
    WrapAdd(s.send.total, depth - q.slots);
  }

  lemma SenderBeginKeepsInv(q: Config, s: State, depth: nat)
    requires Inv(q, s)
    ensures Inv(q, Step(q, s, SBegin(depth)))
  {
    SenderBegins(q, s, depth);
    MemoryKept(q, s, Step(q, s, SBegin(depth)));
  }

  lemma ReceiverBegins(q: Config, s: State, depth: nat)
    requires Valid(q, s) && CountersOk(s) && SenderOk(q, s) && ReceiverOk(q, s)
    ensures
      var s' := Step(q, s, RBegin(depth));
      CountersOk(s') && SenderOk(q, s') && ReceiverOk(q, s')
  {
    WrapAdd(s.receive.total, depth);
  }

  lemma ReceiverBeginKeepsInv(q: Config, s: State, depth: nat)
    requires Inv(q, s)
    ensures Inv(q, Step(q, s, RBegin(depth)))
  {
    ReceiverBegins(q, s, depth);
    MemoryKept(q, s, Step(q, s, RBegin(depth)));
  }

  /** Only the sender's control state changes. */
  lemma SenderControl(q: Config, s: State, s': State)
    requires Inv(q, s) && Valid(q, s')
    requires s' == s.(sres := s'.sres, spc := s'.spc, data := s'.data,
                      writeSlot := s'.writeSlot, produced := s'.produced)
    ensures CountersOk(s') && ReceiverOk(q, s') && FramesOk(q, s')
  {
  }

  /** The sender's own counter or channel changes; nothing of the receiver's does. */
  lemma SenderPublishes(q: Config, s: State, s': State)
    requires Inv(q, s) && Valid(q, s') && s.spc != s'.spc && (s.spc.SLocal? || s.spc.SRemote?) && !s'.spc.SWrite?
    requires s' == s.(send := s'.send, sendStores := s'.sendStores, spc := s'.spc)
    ensures ReceiverOk(q, s') && ChannelOk(s'.receiveCopy, s'.receiveStores, s'.receive)
    ensures DataOk(q, s') && BufferOk(q, s') && FramesOk(q, s')
  {
    MemoryKept(q, s, s');
  }

  /** Steps of the sender that wait. */
  lemma SenderWaits(q: Config, s: State)
    requires Valid(q, s) && CountersOk(s) && SenderOk(q, s) && ReceiverOk(q, s) && (s.spc.SLr? || s.spc.SLrAq?)
    ensures SenderOk(q, SenderStep(q, s))
  {
    RoomTest(q, s, s.spc.depth, s.spc.tmp);
  }

  lemma SenderWaitKeepsInv(q: Config, s: State)
    requires Inv(q, s) && (s.spc.SLr? || s.spc.SLrAq?)
    ensures Inv(q, SenderStep(q, s))
  {
    SenderWaits(q, s);
    SenderControl(q, s, SenderStep(q, s));
    MemoryKept(q, s, SenderStep(q, s));
  }

  lemma SenderCommitKeepsInv(q: Config, s: State)
    requires Inv(q, s) && (s.spc.SIdle? || s.spc.SCommit?)
    ensures Inv(q, SenderStep(q, s))
  {
    SenderControl(q, s, SenderStep(q, s));
    MemoryKept(q, s, SenderStep(q, s));
  }

  lemma TransferKeepsInv(q: Config, s: State)
    requires Inv(q, s) && s.spc.SLocal?
    ensures Inv(q, SenderStep(q, s))
  {
    var s' := s.(send := Plus(s.send, s.spc.depth), spc := SRemote);
    assert s' == SenderStep(q, s);
    PlusOk(s.send, s.spc.depth);
    ChannelGrows(s.sendCopy, s.sendStores, s.send, s'.send);
    SenderPublishes(q, s, s');
  }

  lemma SenderPublishKeepsInv(q: Config, s: State)
    requires Inv(q, s) && s.spc.SRemote?
    ensures Inv(q, SenderStep(q, s))
  {
    var s' := s.(sendStores := s.sendStores + [s.send], spc := SIdle);
    assert s' == SenderStep(q, s);
    ChannelStores(s.sendCopy, s.sendStores, s.send);
    SenderPublishes(q, s, s');
  }

  lemma SenderWriteMemory(q: Config, s: State)
    requires Inv(q, s) && s.spc.SWrite?
    ensures DataOk(q, SenderStep(q, s)) && BufferOk(q, SenderStep(q, s))
  {
    var s' := SenderStep(q, s);
    var here := Word(q, s.produced, s.spc.word);
    assert s'.data == s.data[here := s.data[here] + 1];
    forall f: nat, w: nat | s'.receive.total <= f && w < q.words && Stored(s', f, w) ensures Arrived(q, s', f, w) {
      if f == s.produced && w == s.spc.word {
        assert Word(q, f, w) == here;
      } else {
        assert Stored(s, f, w);
        assert Arrived(q, s, f, w);
      }
    }
    forall d | d in s'.data
      ensures d.word < q.words && s.send.total <= d.frame
      ensures Stored(s', d.frame, d.word) && d == Word(q, d.frame, d.word)
    {
      assert d == here || d in s.data;
    }
  }

  lemma SenderWriteKeepsInv(q: Config, s: State)
    requires Inv(q, s) && s.spc.SWrite?
    ensures Inv(q, SenderStep(q, s))
  {
    SlotAdvances(q, s.produced);
    SenderControl(q, s, SenderStep(q, s));
    SenderWriteMemory(q, s);
  }

  lemma ReceiverWaits(q: Config, s: State, s': State)
    requires Inv(q, s) && Valid(q, s') && s' == s.(rres := s'.rres, rpc := s'.rpc)
    ensures CountersOk(s') && SenderOk(q, s') && DataOk(q, s') && BufferOk(q, s') && FramesOk(q, s')
  {
    MemoryKept(q, s, s');
  }

  lemma ReceiverWaitControl(q: Config, s: State)
    requires Valid(q, s) && CountersOk(s) && SenderOk(q, s) && ReceiverOk(q, s) && (s.rpc.RLr? || s.rpc.RLrAq?)
    ensures ReceiverOk(q, ReceiverStep(q, s))
  {
    FramesTest(q, s, s.rpc.depth, s.rpc.tmp);
    var s' := ReceiverStep(q, s);
    assert s' == s.(rres := s'.rres, rpc := s'.rpc);
  }

  lemma ReceiverWaitKeepsInv(q: Config, s: State)
    requires Inv(q, s) && (s.rpc.RIdle? || s.rpc.RLr? || s.rpc.RLrAq?)
    ensures Inv(q, ReceiverStep(q, s))
  {
    if !s.rpc.RIdle? {
      ReceiverWaitControl(q, s);
      ReceiverWaits(q, s, ReceiverStep(q, s));
    }
  }

  /** The receiver's own counter or channel changes; nothing of the sender's does. */
  lemma ReceiverPublishes(q: Config, s: State, s': State)
    requires Inv(q, s) && Valid(q, s') && s.receive.total <= s'.receive.total
    requires s' == s.(receive := s'.receive, receiveStores := s'.receiveStores, rpc := s'.rpc)
    ensures SenderOk(q, s') && ChannelOk(s'.sendCopy, s'.sendStores, s'.send)
    ensures DataOk(q, s') && BufferOk(q, s') && FramesOk(q, s')
  {
    MemoryKept(q, s, s');
  }

  lemma ReleaseKeepsInv(q: Config, s: State)
    requires Inv(q, s) && s.rpc.RLocal?
    ensures Inv(q, ReceiverStep(q, s))
  {
    var s' := s.(receive := Plus(s.receive, s.rpc.depth), rpc := RRemote);
    assert s' == ReceiverStep(q, s);
    PlusOk(s.receive, s.rpc.depth);
    ChannelGrows(s.receiveCopy, s.receiveStores, s.receive, s'.receive);
    ReceiverPublishes(q, s, s');
  }

  lemma ReceiverPublishKeepsInv(q: Config, s: State)
    requires Inv(q, s) && s.rpc.RRemote?
    ensures Inv(q, ReceiverStep(q, s))
  {
    var s' := s.(receiveStores := s.receiveStores + [s.receive], rpc := RIdle);
    assert s' == ReceiverStep(q, s);
    ChannelStores(s.receiveCopy, s.receiveStores, s.receive);
    ReceiverPublishes(q, s, s');
  }

  /** The word the receiver reads is the word the sender stored. */
  lemma ReadsSource(q: Config, s: State)
    requires Inv(q, s) && s.rpc.RRead?
    ensures s.buffer[s.readSlot][s.rpc.word] == q.source(|s.frames|, s.rpc.word)
  {
    var f, w := |s.frames|, s.rpc.word;
    Bounds(q, s);
    assert Stored(s, f, w);
    assert Arrived(q, s, f, w);
    assert Word(q, f, w) !in s.data;
  }

  lemma ReadMemory(q: Config, s: State)
    requires Inv(q, s) && s.rpc.RRead?
    ensures DataOk(q, ReceiverStep(q, s)) && BufferOk(q, ReceiverStep(q, s))
  {
    var s' := ReceiverStep(q, s);
    forall f: nat, w: nat | s'.receive.total <= f && w < q.words && Stored(s', f, w) ensures Arrived(q, s', f, w) {
      assert Stored(s, f, w);
      assert Arrived(q, s, f, w);
    }
  }

  /** What has been read of the frame so far, with one word more. */
  lemma ReadsOneMore(q: Config, s: State)
    requires Inv(q, s) && s.rpc.RRead?
    ensures
      var n, w := |s.frames|, s.rpc.word;
      && s.current + [s.buffer[s.readSlot][w]] == Frame(q, n)[..w + 1]
      && (w + 1 == q.words ==> s.current + [s.buffer[s.readSlot][w]] == Frame(q, n))
  {
    ReadsSource(q, s);
  }

  lemma ReadControl(q: Config, s: State)
    requires Inv(q, s) && s.rpc.RRead?
    ensures
      var s' := ReceiverStep(q, s);
      CountersOk(s') && SenderOk(q, s') && ReceiverOk(q, s') && FramesOk(q, s')
  {
    ReadsOneMore(q, s);
    SlotAdvances(q, |s.frames|);
  }

  lemma ReceiverReadKeepsInv(q: Config, s: State)
    requires Inv(q, s) && s.rpc.RRead?
    ensures Inv(q, ReceiverStep(q, s))
  {
    ReadControl(q, s);
    ReadMemory(q, s);
  }

  /** Delivering one word overwrites no other word the receiver has yet to read. */
  lemma DeliverDataArrived(q: Config, s: State, d: Data, f: nat, w: nat)
    requires Inv(q, s) && d in s.data
    requires s.receive.total <= f && w < q.words && Stored(s, f, w)
    ensures Arrived(q, Step(q, s, DeliverData(d)), f, w)
  {
    Bounds(q, s);
    assert Arrived(q, s, f, w);
    if f < d.frame {
      SlotsDiffer(q, f, d.frame);
    } else if d.frame < f {
      SlotsDiffer(q, d.frame, f);
    }
  }

  lemma DeliverDataBuffer(q: Config, s: State, d: Data)
    requires Inv(q, s) && d in s.data
    ensures BufferOk(q, Step(q, s, DeliverData(d)))
  {
    var s' := Step(q, s, DeliverData(d));
    forall f: nat, w: nat | s'.receive.total <= f && w < q.words && Stored(s', f, w) ensures Arrived(q, s', f, w) {
      assert Stored(s, f, w);
      DeliverDataArrived(q, s, d, f, w);
    }
  }

  lemma DeliverDataKeepsInv(q: Config, s: State, d: Data)
    requires Inv(q, s)
    ensures Inv(q, Step(q, s, DeliverData(d)))
  {
    if d in s.data {
      var s' := Step(q, s, DeliverData(d));
      DeliverDataBuffer(q, s, d);
      assert forall e :: e in s'.data ==> e in s.data;
      assert !s.spc.SWrite? && !s.spc.SCommit? ==> s.data == multiset{};
    }
  }

  lemma SendDelivered(q: Config, s: State, s': State)
    requires ConfigOk(q) && SenderOk(q, s) && ReceiverOk(q, s) && s.sendCopy.total <= s'.sendCopy.total
    requires s' == s.(sendCopy := s'.sendCopy, rres := false, sendStores := s'.sendStores)
    ensures SenderOk(q, s') && ReceiverOk(q, s')
  {
  }

  lemma ReceiveDelivered(q: Config, s: State, s': State)
    requires ConfigOk(q) && SenderOk(q, s) && ReceiverOk(q, s) && s.receiveCopy.total <= s'.receiveCopy.total
    requires s' == s.(receiveCopy := s'.receiveCopy, sres := false, receiveStores := s'.receiveStores)
    ensures SenderOk(q, s') && ReceiverOk(q, s')
  {
  }

  lemma DeliverSendKeepsInv(q: Config, s: State)
    requires Inv(q, s)
    ensures Inv(q, Step(q, s, DeliverSend))
  {
    if s.sendStores != [] {
      var s' := s.(sendCopy := s.sendStores[0], rres := false, sendStores := s.sendStores[1..]);
      assert s' == Step(q, s, DeliverSend);
      ChannelDelivers(s.sendCopy, s.sendStores, s.send);
      SendDelivered(q, s, s');
      MemoryKept(q, s, s');
    }
  }

  lemma DeliverReceiveKeepsInv(q: Config, s: State)
    requires Inv(q, s)
    ensures Inv(q, Step(q, s, DeliverReceive))
  {
    if s.receiveStores != [] {
      var s' := s.(receiveCopy := s.receiveStores[0], sres := false, receiveStores := s.receiveStores[1..]);
      assert s' == Step(q, s, DeliverReceive);
      ChannelDelivers(s.receiveCopy, s.receiveStores, s.receive);
      ReceiveDelivered(q, s, s');
      MemoryKept(q, s, s');
    }
  }

  lemma StepKeepsInv(q: Config, s: State, a: Act)
    requires Inv(q, s)
    ensures Inv(q, Step(q, s, a))
  {
    match a
    case SBegin(depth) => SenderBeginKeepsInv(q, s, depth);
    case RBegin(depth) => ReceiverBeginKeepsInv(q, s, depth);
    case SStep =>
      if s.spc.SWrite? {
        SenderWriteKeepsInv(q, s);
      } else if s.spc.SLr? || s.spc.SLrAq? {
        SenderWaitKeepsInv(q, s);
      } else if s.spc.SLocal? {
        TransferKeepsInv(q, s);
      } else if s.spc.SRemote? {
        SenderPublishKeepsInv(q, s);
      } else {
        SenderCommitKeepsInv(q, s);
      }
    case RStep =>
      if s.rpc.RRead? {
        ReceiverReadKeepsInv(q, s);
      } else if s.rpc.RLocal? {
        ReleaseKeepsInv(q, s);
      } else if s.rpc.RRemote? {
        ReceiverPublishKeepsInv(q, s);
      } else {
        ReceiverWaitKeepsInv(q, s);
      }
    case DeliverData(d) => DeliverDataKeepsInv(q, s, d);
    case DeliverSend => DeliverSendKeepsInv(q, s);
    case DeliverReceive => DeliverReceiveKeepsInv(q, s);
  }

  lemma {:induction false} ExecKeepsInv(q: Config, sched: seq<Act>)
    requires ConfigOk(q)
    ensures Inv(q, Exec(q, Init(q), sched))
  {
    if sched == [] {
      InitInv(q);
    } else {
      ExecKeepsInv(q, sched[..|sched| - 1]);
      StepKeepsInv(q, Exec(q, Init(q), sched[..|sched| - 1]), sched[|sched| - 1]);
    }
  }

  // ---- what the queue promises, over every run ----

  /** A state some run reaches. */
  ghost predicate Reachable(q: Config, s: State) {
    ConfigOk(q) && exists sched :: s == Exec(q, Init(q), sched)
  }

  lemma ReachableInv(q: Config, s: State)
    requires Reachable(q, s)
    ensures Inv(q, s)
  {
    var sched :| s == Exec(q, Init(q), sched);
    ExecKeepsInv(q, sched);
  }

  /** The true counts: no more frames are out than there are slots, and each side's copy of the
      other's count only lags behind it. */
  lemma CountsStayInBounds(q: Config, s: State)
    requires Reachable(q, s)
    ensures 0 <= s.send.total - s.receive.total <= q.slots
    ensures s.receiveCopy.total <= s.receive.total && s.sendCopy.total <= s.send.total
    ensures s.send.value == Wrap(s.send.total) && s.receive.value == Wrap(s.receive.total)
  {
    ReachableInv(q, s);
    Bounds(q, s);
  }

  ghost predicate RoomTestExact(q: Config, s: State) {
    s.spc.SLr? || s.spc.SLrAq? ==>
      (HasRoom(s.spc.tmp, s.receiveCopy) <==> s.send.total + s.spc.depth <= s.receiveCopy.total + q.slots)
  }

  ghost predicate FramesTestExact(s: State) {
    s.rpc.RLr? || s.rpc.RLrAq? ==>
      (HasFrames(s.rpc.tmp, s.sendCopy) <==> s.receive.total + s.rpc.depth <= s.sendCopy.total)
  }

  lemma TestsExact(q: Config, s: State)
    requires ConfigOk(q) && CountersOk(s) && SenderOk(q, s) && ReceiverOk(q, s)
    ensures RoomTestExact(q, s) && FramesTestExact(s)
  {
    if s.spc.SLr? || s.spc.SLrAq? {
      RoomTest(q, s, s.spc.depth, s.spc.tmp);
    }
    if s.rpc.RLr? || s.rpc.RLrAq? {
      FramesTest(q, s, s.rpc.depth, s.rpc.tmp);
    }
  }

  /** Although the counters have wrapped any number of times, the signed tests of sender and
      receiver are the comparisons of the unbounded counts. */
  lemma WrappedTestsAreExact(q: Config, s: State)
    requires Reachable(q, s)
    ensures RoomTestExact(q, s) && FramesTestExact(s)
  {
    ReachableInv(q, s);
    TestsExact(q, s);
  }

  /** Neither a word the sender is about to store nor one in flight goes to a slot of a frame the
      receiver owns (sent and not yet released). */
  lemma SenderKeepsOutOfReceiverSlots(q: Config, s: State, f: nat)
    requires Reachable(q, s) && s.receive.total <= f < s.send.total
    ensures s.spc.SWrite? ==> s.writeSlot != Slot(q, f)
    ensures forall d :: d in s.data ==> d.slot != Slot(q, f)
  {
    ReachableInv(q, s);
    Bounds(q, s);
    if s.spc.SWrite? {
      SlotsDiffer(q, f, s.produced);
    }
    forall d | d in s.data ensures d.slot != Slot(q, f) {
      SlotsDiffer(q, f, d.frame);
    }
  }

  /** The n-th frame read is the n-th frame written. */
  lemma FrameReadIsFrameWritten(q: Config, s: State, n: nat)
    requires Reachable(q, s) && n < |s.frames|
    ensures s.frames[n] == Frame(q, n)
  {
    ReachableInv(q, s);
  }

  // ---- refinement of a bounded queue ----

  /** The frames sent and not released, oldest first, as they lie in the receiver's buffer. */
  function Contents(q: Config, s: State): (c: seq<seq<int>>)
    requires Valid(q, s) && s.receive.total <= s.send.total
  {
    seq(s.send.total - s.receive.total, (i: nat) => s.buffer[Slot(q, s.receive.total + i)])
  }

  /** Frames lo, lo + 1, .., hi - 1. */
  function Frames(q: Config, lo: nat, hi: nat): (c: seq<seq<int>>)
    requires lo <= hi
    ensures |c| == hi - lo
  {
    seq(hi - lo, (i: nat) => Frame(q, lo + i))
  }

  /** What lies in the buffer between the two counts is what was sent. */
  lemma ContentsAreFrames(q: Config, s: State)
    requires Inv(q, s)
    ensures s.receive.total <= s.send.total <= s.receive.total + q.slots
    ensures Contents(q, s) == Frames(q, s.receive.total, s.send.total)
  {
    Bounds(q, s);
    forall f: nat | s.receive.total <= f < s.send.total ensures s.buffer[Slot(q, f)] == Frame(q, f) {
      forall w: nat | w < q.words ensures s.buffer[Slot(q, f)][w] == q.source(f, w) {
        assert Stored(s, f, w);
        assert Arrived(q, s, f, w);
        assert Word(q, f, w) !in s.data;
      }
    }
  }

  lemma FramesSplit(q: Config, lo: nat, mid: nat, hi: nat)
    requires lo <= mid <= hi
    ensures Frames(q, lo, hi) == Frames(q, lo, mid) + Frames(q, mid, hi)
    ensures Frames(q, lo, hi)[mid - lo..] == Frames(q, mid, hi)
  {
  }

  lemma TransferAppends(q: Config, s: State)
    requires Inv(q, s) && s.spc.SLocal?
    ensures Inv(q, SenderStep(q, s)) && s.receive.total <= s.send.total
    ensures SenderStep(q, s).receive.total <= SenderStep(q, s).send.total
    ensures Contents(q, SenderStep(q, s)) == Contents(q, s) + Frames(q, s.send.total, s.send.total + s.spc.depth)
  {
    StepKeepsInv(q, s, SStep);
    ContentsAreFrames(q, s);
    ContentsAreFrames(q, SenderStep(q, s));
    FramesSplit(q, s.receive.total, s.send.total, s.send.total + s.spc.depth);
  }

  /** What the receiver has read and not yet released is what lies first in the buffer. */
  lemma ReadFrames(q: Config, s: State)
    requires Inv(q, s) && s.rpc.RLocal?
    ensures s.receive.total + s.rpc.depth == |s.frames| <= s.send.total
    ensures s.frames[s.receive.total..] == Frames(q, s.receive.total, |s.frames|)
  {
    Bounds(q, s);
  }

  lemma ReleaseTakesOff(q: Config, s: State)
    requires Inv(q, s) && s.rpc.RLocal?
    ensures Inv(q, ReceiverStep(q, s)) && s.receive.total <= s.send.total
    ensures ReceiverStep(q, s).receive.total <= ReceiverStep(q, s).send.total
    ensures s.rpc.depth <= |Contents(q, s)| && s.rpc.depth <= |s.frames|
    ensures Contents(q, s)[..s.rpc.depth] == s.frames[|s.frames| - s.rpc.depth..]
    ensures Contents(q, ReceiverStep(q, s)) == Contents(q, s)[s.rpc.depth..]
  {
    ReleaseKeepsInv(q, s);
    ReadFrames(q, s);
    ContentsAreFrames(q, s);
    ContentsAreFrames(q, ReceiverStep(q, s));
    FramesSplit(q, s.receive.total, s.receive.total + s.rpc.depth, s.send.total);
  }

  lemma OthersKeepContents(q: Config, s: State, a: Act)
    requires Inv(q, s) && !(a == SStep && s.spc.SLocal?) && !(a == RStep && s.rpc.RLocal?)
    ensures Inv(q, Step(q, s, a)) && s.receive.total <= s.send.total
    ensures Step(q, s, a).receive.total <= Step(q, s, a).send.total
    ensures Contents(q, Step(q, s, a)) == Contents(q, s)
  {
    StepKeepsInv(q, s, a);
    CountsKept(q, s, a);
    ContentsAreFrames(q, s);
    ContentsAreFrames(q, Step(q, s, a));
  }

  /** What the buffer holds is a queue of at most `slots` frames. A transfer of the sender
      appends the frames it has written, a release of the receiver takes off the frames it has
      read, and no other step of either side, nor any delivery, changes it. */
  lemma RefinesBoundedQueue(q: Config, s: State, a: Act)
    requires Reachable(q, s)
    ensures
      var s' := Step(q, s, a);
      && s.receive.total <= s.send.total && s'.receive.total <= s'.send.total
      && |Contents(q, s)| <= q.slots
      && (a == SStep && s.spc.SLocal? ==>
            Contents(q, s') == Contents(q, s) + Frames(q, s.send.total, s.send.total + s.spc.depth))
      && (a == RStep && s.rpc.RLocal? ==>
            && s.rpc.depth <= |Contents(q, s)| && s.rpc.depth <= |s.frames|
            && Contents(q, s)[..s.rpc.depth] == s.frames[|s.frames| - s.rpc.depth..]
            && Contents(q, s') == Contents(q, s)[s.rpc.depth..])
      && (!(a == SStep && s.spc.SLocal?) && !(a == RStep && s.rpc.RLocal?) ==> Contents(q, s') == Contents(q, s))
  {
    CountsStayInBounds(q, s);
    ReachableInv(q, s);
    if a == SStep && s.spc.SLocal? {
      TransferAppends(q, s);
    } else if a == RStep && s.rpc.RLocal? {
      ReleaseTakesOff(q, s);
    } else {
      OthersKeepContents(q, s, a);
    }
  }

  lemma CountsKept(q: Config, s: State, a: Act)
    requires Valid(q, s) && !(a == SStep && s.spc.SLocal?) && !(a == RStep && s.rpc.RLocal?)
    ensures Step(q, s, a).send == s.send && Step(q, s, a).receive == s.receive
  {
  }

  // ---- progress ----

  /** Something other than a new call by a client can still happen. */
  ghost predicate CanMove(q: Config, s: State)
    requires Valid(q, s)
  {
    exists a :: Moves(q, s, a)
  }

  ghost predicate Moves(q: Config, s: State, a: Act)
    requires Valid(q, s)
  {
    !a.SBegin? && !a.RBegin? && Step(q, s, a) != s
  }

  lemma InFlightMoves(q: Config, s: State)
    requires Valid(q, s)
    requires s.data != multiset{} || s.sendStores != [] || s.receiveStores != []
    ensures CanMove(q, s)
  {
    if s.sendStores != [] {
      assert |Step(q, s, DeliverSend).sendStores| < |s.sendStores|;
      assert Moves(q, s, DeliverSend);
    } else if s.receiveStores != [] {
      assert |Step(q, s, DeliverReceive).receiveStores| < |s.receiveStores|;
      assert Moves(q, s, DeliverReceive);
    } else {
      var d :| d in s.data;
      assert Step(q, s, DeliverData(d)).data[d] < s.data[d];
      assert Moves(q, s, DeliverData(d));
    }
  }

  lemma SenderMoves(q: Config, s: State)
    requires Valid(q, s) && !s.spc.SIdle? && !(s.spc.SLrAq? && s.sres)
    ensures CanMove(q, s)
  {
    if s.data != multiset{} || s.sendStores != [] {
      InFlightMoves(q, s);
    } else {
      if s.spc.SWrite? {
        var d := Data(s.writeSlot, s.spc.word, q.source(s.produced, s.spc.word), s.produced);
        assert SenderStep(q, s).data[d] > s.data[d];
      }
      assert Moves(q, s, SStep);
    }
  }

  lemma ReceiverMoves(q: Config, s: State)
    requires Valid(q, s) && !s.rpc.RIdle? && !(s.rpc.RLrAq? && s.rres)
    ensures CanMove(q, s)
  {
    if s.rpc.RRead? {
      assert ReceiverStep(q, s).rpc != s.rpc;
    }
    assert Moves(q, s, RStep);
  }

  function Newest(copy: Counter, stores: seq<Counter>): Counter {
    if stores == [] then copy else stores[|stores| - 1]
  }

  /** Outside its own publishing step, each side's newest count is stored to the other or on the way. */
  ghost predicate Published(s: State) {
    && (!s.spc.SRemote? ==> Newest(s.sendCopy, s.sendStores) == s.send)
    && (!s.rpc.RRemote? ==> Newest(s.receiveCopy, s.receiveStores) == s.receive)
  }

  lemma StepKeepsPublished(q: Config, s: State, a: Act)
    requires Valid(q, s) && Published(s)
    ensures Published(Step(q, s, a))
  {
    if a == SStep {
      SenderKeepsPublished(q, s);
    } else if a == RStep {
      ReceiverKeepsPublished(q, s);
    } else {
      var s' := Step(q, s, a);
      assert Newest(s'.sendCopy, s'.sendStores) == Newest(s.sendCopy, s.sendStores);
      assert Newest(s'.receiveCopy, s'.receiveStores) == Newest(s.receiveCopy, s.receiveStores);
    }
  }

  lemma SenderKeepsPublished(q: Config, s: State)
    requires Valid(q, s) && Published(s)
    ensures Published(SenderStep(q, s))
  {
    var s' := SenderStep(q, s);
    assert s'.receive == s.receive && s'.rpc == s.rpc;
    assert s'.receiveCopy == s.receiveCopy && s'.receiveStores == s.receiveStores && s'.sendCopy == s.sendCopy;
    if s.spc.SRemote? {
      assert s'.sendStores == s.sendStores + [s.send] && s'.send == s.send;
    } else {
      assert s'.sendStores == s.sendStores;
    }
  }

  lemma ReceiverKeepsPublished(q: Config, s: State)
    requires Valid(q, s) && Published(s)
    ensures Published(ReceiverStep(q, s))
  {
  }

  lemma {:induction false} ExecKeepsPublished(q: Config, sched: seq<Act>)
    requires ConfigOk(q)
    ensures Published(Exec(q, Init(q), sched))
  {
    if sched != [] {
      ExecKeepsPublished(q, sched[..|sched| - 1]);
      StepKeepsPublished(q, Exec(q, Init(q), sched[..|sched| - 1]), sched[|sched| - 1]);
    }
  }

  lemma ReachablePublished(q: Config, s: State)
    requires Reachable(q, s)
    ensures Published(s)
  {
    var sched :| s == Exec(q, Init(q), sched);
    ExecKeepsPublished(q, sched);
  }

  /** When nothing can happen any more, each side either has no call under way or waits for
      frames or room that, by the true counts, are not there: no wake-up was missed. */
  lemma RestingMeansWaiting(q: Config, s: State)
    requires Reachable(q, s) && Valid(q, s)
    ensures
      || CanMove(q, s)
      || (&& (s.spc.SIdle? || (s.spc.SLrAq? && s.send.total + s.spc.depth > s.receive.total + q.slots))
          && (s.rpc.RIdle? || (s.rpc.RLrAq? && s.receive.total + s.rpc.depth > s.send.total)))
  {
    ReachableInv(q, s);
    ReachablePublished(q, s);
    if s.data != multiset{} || s.sendStores != [] || s.receiveStores != [] {
      InFlightMoves(q, s);
    } else if !s.spc.SIdle? && !(s.spc.SLrAq? && s.sres) {
      SenderMoves(q, s);
    } else if !s.rpc.RIdle? && !(s.rpc.RLrAq? && s.rres) {
      ReceiverMoves(q, s);
    } else {
      SenderLacksRoom(q, s);
      ReceiverLacksFrames(q, s);
    }
  }

  lemma SenderLacksRoom(q: Config, s: State)
    requires Inv(q, s)
    ensures s.spc.SLrAq? && s.sres ==> s.send.total + s.spc.depth > s.receiveCopy.total + q.slots
  {
    if s.spc.SLrAq? {
      RoomTest(q, s, s.spc.depth, s.spc.tmp);
    }
  }

  lemma ReceiverLacksFrames(q: Config, s: State)
    requires Inv(q, s)
    ensures s.rpc.RLrAq? && s.rres ==> s.receive.total + s.rpc.depth > s.sendCopy.total
  {
    if s.rpc.RLrAq? {
      FramesTest(q, s, s.rpc.depth, s.rpc.tmp);
    }
  }

  /** Sender and receiver never wait for each other unless they ask for more than slots + 1
      frames together; the client asks for one each. */
  lemma NeverBothWait(q: Config, s: State)
    requires Reachable(q, s) && Valid(q, s)
    requires !s.spc.SIdle? && !s.rpc.RIdle?
    requires s.spc.SLrAq? && s.rpc.RLrAq? ==> s.spc.depth + s.rpc.depth <= q.slots + 1
    ensures CanMove(q, s)
  {
    RestingMeansWaiting(q, s);
  }
}
