/** Every run of the token queue gets somewhere: each call costs a bounded number of steps, waiting
    included, and a run that has come to rest has ended every call whose frames or room are there. */
module TokenQueueProgress {
  import opened TokenQueue

  // ---- what a call costs ----

  /** A word written is a step and a delivery; a counter stored is a step, a delivery and two steps of
      the side that may have waited for it. */
  function WriteCost(q: Config, depth: nat): nat {
    2 * (depth * q.words) + 8
  }

  function ReadCost(q: Config, depth: nat): nat {
    depth * q.words + 7
  }

  /** Words still to be written or read of a call, `done` frames and `word` words in. */
  function WordsLeft(q: Config, depth: nat, done: nat, word: nat): int {
    (depth - done) * q.words - word
  }

  function SenderLeft(q: Config, s: State): int {
    match s.spc
    case SIdle => 0
    case SLr(depth, _) => WriteCost(q, depth)
    case SLrAq(depth, _) => WriteCost(q, depth) + if s.sres then -1 else 1
    case SWrite(depth, done, word) => 2 * WordsLeft(q, depth, done, word) + 6
    case SCommit(_) => 6
    case SLocal(_) => 5
    case SRemote => 4
  }

  function ReceiverLeft(q: Config, s: State): int {
    match s.rpc
    case RIdle => 0
    case RLr(depth, _) => ReadCost(q, depth)
    case RLrAq(depth, _) => ReadCost(q, depth) + if s.rres then -1 else 1
    case RRead(depth, done, word) => WordsLeft(q, depth, done, word) + 5
    case RLocal(_) => 5
    case RRemote => 4
  }

  function InFlight(s: State): int {
    |s.data| + 3 * |s.sendStores| + 3 * |s.receiveStores|
  }

  function Left(q: Config, s: State): int {
    SenderLeft(q, s) + ReceiverLeft(q, s) + InFlight(s)
  }

  /** What a call that begins adds; a call while another is under way does not begin. */
  function Granted(q: Config, s: State, a: Act): nat {
    match a
    case SBegin(depth) => if s.spc.SIdle? && depth < 0x8000_0000 then WriteCost(q, depth) else 0
    case RBegin(depth) => if s.rpc.RIdle? && depth < 0x8000_0000 then ReadCost(q, depth) else 0
    case _ => 0
  }

  lemma NextFrame(a: int, words: int)
    ensures (a - 1) * words == a * words - words
  {
  }

  lemma NextWord(q: Config, depth: nat, done: nat, word: nat)
    ensures WordsLeft(q, depth, done, word + 1) == WordsLeft(q, depth, done, word) - 1
    ensures WordsLeft(q, depth, done + 1, 0) == WordsLeft(q, depth, done, word) - (q.words - word)
    ensures done < depth && word < q.words ==> WordsLeft(q, depth, done, word) >= 1
  {
    NextFrame(depth - done, q.words);
    if done < depth && word < q.words {
      SomeWords(depth - done, q.words, word);
    }
  }

  lemma SomeWords(a: int, words: int, word: int)
    requires a >= 1 && 0 <= word < words
    ensures a * words - word >= 1
  {
    assert a * words == (a - 1) * words + words;
    NotNegative(a - 1, words);
  }

  lemma NotNegative(a: int, b: int)
    requires a >= 0 && b >= 0
    ensures a * b >= 0
  {
  }

  lemma SenderWaitLowers(q: Config, s: State)
    requires Valid(q, s) && (s.spc.SLr? || (s.spc.SLrAq? && !s.sres))
    ensures Left(q, SenderStep(q, s)) + 1 <= Left(q, s)
  {
    var depth := s.spc.depth;
    NotNegative(depth, q.words);
    assert SenderStep(q, s).spc.SWrite? ==> WordsLeft(q, depth, 0, 0) == depth * q.words;
  }

  lemma SenderWriteLowers(q: Config, s: State)
    requires Valid(q, s) && s.spc.SWrite?
    ensures Left(q, SenderStep(q, s)) + 1 <= Left(q, s)
  {
    NextWord(q, s.spc.depth, s.spc.done, s.spc.word);
  }

  lemma SenderPublishLowers(q: Config, s: State)
    requires Valid(q, s) && (s.spc.SCommit? || s.spc.SLocal? || s.spc.SRemote?) && SenderStep(q, s) != s
    ensures Left(q, SenderStep(q, s)) + 1 <= Left(q, s)
  {
  }

  lemma SenderLowers(q: Config, s: State)
    requires Valid(q, s) && SenderStep(q, s) != s
    ensures Left(q, SenderStep(q, s)) + 1 <= Left(q, s)
  {
    if s.spc.SLr? || s.spc.SLrAq? {
      SenderWaitLowers(q, s);
    } else if s.spc.SWrite? {
      SenderWriteLowers(q, s);
    } else {
      SenderPublishLowers(q, s);
    }
  }

  lemma ReceiverWaitLowers(q: Config, s: State)
    requires Valid(q, s) && (s.rpc.RLr? || (s.rpc.RLrAq? && !s.rres))
    ensures Left(q, ReceiverStep(q, s)) + 1 <= Left(q, s)
  {
    var depth := s.rpc.depth;
    NotNegative(depth, q.words);
    assert ReceiverStep(q, s).rpc.RRead? ==> WordsLeft(q, depth, 0, 0) == depth * q.words;
  }

  lemma ReceiverReadLowers(q: Config, s: State)
    requires Valid(q, s) && s.rpc.RRead?
    ensures Left(q, ReceiverStep(q, s)) + 1 <= Left(q, s)
  {
    NextWord(q, s.rpc.depth, s.rpc.done, s.rpc.word);
  }

  lemma ReceiverLowers(q: Config, s: State)
    requires Valid(q, s) && ReceiverStep(q, s) != s
    ensures Left(q, ReceiverStep(q, s)) + 1 <= Left(q, s)
  {
    if s.rpc.RLr? || s.rpc.RLrAq? {
      ReceiverWaitLowers(q, s);
    } else if s.rpc.RRead? {
      ReceiverReadLowers(q, s);
    }
  }

  lemma DataLowers(q: Config, s: State, d: Data)
    requires Valid(q, s) && d in s.data
    ensures Left(q, Step(q, s, DeliverData(d))) + 1 <= Left(q, s)
  {
  }

  /** A counter that arrives can end a wait. */
  lemma SendLowers(q: Config, s: State)
    requires Valid(q, s) && s.sendStores != []
    ensures Left(q, Step(q, s, DeliverSend)) + 1 <= Left(q, s)
  {
    var s' := Step(q, s, DeliverSend);
    assert SenderLeft(q, s') == SenderLeft(q, s);
    assert ReceiverLeft(q, s') <= ReceiverLeft(q, s) + 2;
  }

  lemma ReceiveLowers(q: Config, s: State)
    requires Valid(q, s) && s.receiveStores != []
    ensures Left(q, Step(q, s, DeliverReceive)) + 1 <= Left(q, s)
  {
    var s' := Step(q, s, DeliverReceive);
    assert ReceiverLeft(q, s') == ReceiverLeft(q, s);
    assert SenderLeft(q, s') <= SenderLeft(q, s) + 2;
  }

  lemma BeginAdds(q: Config, s: State, a: Act)
    requires Valid(q, s) && (a.SBegin? || a.RBegin?)
    ensures Left(q, Step(q, s, a)) == Left(q, s) + Granted(q, s, a)
  {
  }

  lemma StepLowers(q: Config, s: State, a: Act)
    requires Valid(q, s)
    ensures Left(q, Step(q, s, a)) + (if Moves(q, s, a) then 1 else 0) <= Left(q, s) + Granted(q, s, a)
  {
    if a.SBegin? || a.RBegin? {
      BeginAdds(q, s, a);
    } else if Step(q, s, a) != s {
      if a == SStep {
        SenderLowers(q, s);
      } else if a == RStep {
        ReceiverLowers(q, s);
      } else if a.DeliverData? {
        DataLowers(q, s, a.d);
      } else if a == DeliverSend {
        SendLowers(q, s);
      } else {
        ReceiveLowers(q, s);
      }
    }
  }

  lemma LeftIsPositive(q: Config, s: State)
    requires Valid(q, s)
    ensures Left(q, s) >= 0
  {
    if s.spc.SWrite? {
      SomeWords(s.spc.depth - s.spc.done, q.words, s.spc.word);
    } else if s.spc.SLrAq? {
      NotNegative(s.spc.depth, q.words);
    }
    if s.rpc.RRead? {
      SomeWords(s.rpc.depth - s.rpc.done, q.words, s.rpc.word);
    } else if s.rpc.RLrAq? {
      NotNegative(s.rpc.depth, q.words);
    }
  }

  // ---- over a run ----

  /** How many steps of the run, other than beginning a call, change something. */
  ghost function Moved(q: Config, sched: seq<Act>): nat
    requires ConfigOk(q)
  {
    if sched == [] then 0
    else
      var most := sched[..|sched| - 1];
      Moved(q, most) + if Moves(q, Exec(q, Init(q), most), sched[|sched| - 1]) then 1 else 0
  }

  /** What the calls begun in the run may cost, together. */
  function Allowed(q: Config, sched: seq<Act>): nat
    requires ConfigOk(q)
  {
    if sched == [] then 0
    else
      var most := sched[..|sched| - 1];
      Allowed(q, most) + Granted(q, Exec(q, Init(q), most), sched[|sched| - 1])
  }

  lemma {:induction false} MovedIsAllowed(q: Config, sched: seq<Act>)
    requires ConfigOk(q)
    ensures Moved(q, sched) + Left(q, Exec(q, Init(q), sched)) <= Allowed(q, sched)
  {
    if sched != [] {
      var most := sched[..|sched| - 1];
      MovedIsAllowed(q, most);
      StepLowers(q, Exec(q, Init(q), most), sched[|sched| - 1]);
    }
  }

  /** In every run a write of `depth` frames costs at most 2 * depth * words + 8 steps and a read
      depth * words + 7, retries and deliveries included; and when nothing more can happen, each side
      is done with its calls or waits for room or frames that are not there. */
  lemma EveryCallEnds(q: Config, sched: seq<Act>)
    requires ConfigOk(q)
    ensures Moved(q, sched) <= Allowed(q, sched)
    ensures var s := Exec(q, Init(q), sched);
      CanMove(q, s) ||
      (&& (s.spc.SIdle? || (s.spc.SLrAq? && s.send.total + s.spc.depth > s.receive.total + q.slots))
       && (s.rpc.RIdle? || (s.rpc.RLrAq? && s.receive.total + s.rpc.depth > s.send.total)))
  {
    var s := Exec(q, Init(q), sched);
    MovedIsAllowed(q, sched);
    LeftIsPositive(q, s);
    assert Reachable(q, s);
    RestingMeansWaiting(q, s);
  }
}
