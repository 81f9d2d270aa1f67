/** The pipeline of bsg_chained_core: every tile copies two buffers, in turn, to the next tile,
    adding its id to each word, and the tiles keep in step by round numbers in `valid_num` and
    `ready_num`. Steps are atomic loads and stores, in any order between the tiles. */
module Pipeline {
  import opened Arithmetic

  /** tiles: bsg_num_tiles; rounds: MAX_ROUND_NUM; words: BUF_LEN. */
  datatype Config = Config(tiles: nat, rounds: nat, words: nat)

  predicate ConfigOk(q: Config) {
    q.tiles >= 1 && q.rounds >= 1 && q.words % 2 == 0
  }

  /** A packed word: an unsigned char, an unsigned char and an unsigned short. */
  datatype Tag = Tag(value: nat, rounds: nat, cores: nat)

  function Tagged(t: Tag, id: nat, round: nat): Tag {
    t.(cores := (t.cores + id) % 0x1_0000, rounds := round % 0x100)
  }

  /** A word that a store can hit and a load can reserve. */
  datatype Flag = ValidNum(j: nat) | ReadyNum(j: nat)

  datatype Reservation = Free | Held(flag: Flag)

  datatype Pc =
    | Start
    | Init0
    | Init1
    | ValidLr
    | ValidLrAq
    | ReadyLr
    | ReadyLrAq
    | Load(i: nat)
    | Store0(i: nat, tmp0: Tag, tmp1: Tag)
    | Store1(i: nat, tmp1: Tag)
    | NotifyValid
    | Last(i: nat)
    | Advance
    | NotifyReady
    | Done

  datatype Stage = Stage(
    pc: Pc,
    round: nat,
    j: nat,
    res: Reservation,
    valid: seq<nat>,
    ready: seq<nat>,
    buffer: seq<seq<Tag>>,
    out: seq<Tag>)

  /** What a step does to another tile. */
  datatype Effect =
    | Nothing
    | StoreReady(j: nat, value: nat)
    | StoreValid(j: nat, value: nat)
    | StoreWord(j: nat, i: nat, word: Tag)

  predicate StageValid(q: Config, x: Stage) {
    && q.words % 2 == 0 && x.j < 2 && |x.valid| == 2 && |x.ready| == 2
    && |x.buffer| == 2 && |x.buffer[0]| == q.words && |x.buffer[1]| == q.words
    && (x.pc.Load? ==> x.pc.i % 2 == 0 && x.pc.i <= q.words)
    && (x.pc.Store0? || x.pc.Store1? ==> x.pc.i % 2 == 0 && x.pc.i + 1 < q.words)
    && (x.pc.Last? ==> x.pc.i <= q.words)
  }

  predicate EffectValid(q: Config, e: Effect) {
    match e
    case Nothing => true
    case StoreReady(j, _) => j < 2
    case StoreValid(j, _) => j < 2
    case StoreWord(j, i, _) => j < 2 && i < q.words
  }

  function Loop(q: Config, id: nat): Pc {
    if id != 0 then ValidLr else Process(q, id)
  }

  function Process(q: Config, id: nat): Pc {
    if id + 1 != q.tiles then ReadyLr else Last(0)
  }

  function Local(q: Config, id: nat, x: Stage): (r: (Stage, Effect))
    requires StageValid(q, x)
    ensures StageValid(q, r.0) && EffectValid(q, r.1)
  {
    match x.pc
    case Start => (x.(round := x.round + 1, pc := if id != 0 then Init0 else Loop(q, id)), Nothing)
    case Init0 => (x.(pc := Init1), StoreReady(0, x.round))
    case Init1 => (x.(pc := Loop(q, id)), StoreReady(1, x.round + 1))
    case ValidLr =>
      (x.(res := Held(ValidNum(x.j)), pc := if x.valid[x.j] == x.round then Process(q, id) else ValidLrAq), Nothing)
    case ValidLrAq =>
      if x.res == Held(ValidNum(x.j)) then (x, Nothing)
      else (x.(pc := if x.valid[x.j] == x.round then Process(q, id) else ValidLr), Nothing)
    case ReadyLr =>
      (x.(res := Held(ReadyNum(x.j)), pc := if x.ready[x.j] == x.round then Load(0) else ReadyLrAq), Nothing)
    case ReadyLrAq =>
      if x.res == Held(ReadyNum(x.j)) then (x, Nothing)
      else (x.(pc := if x.ready[x.j] == x.round then Load(0) else ReadyLr), Nothing)
    case Load(i) =>
      if i == q.words then (x.(pc := NotifyValid), Nothing)
      else
        var tmp0 := Tagged(x.buffer[x.j][i], id, x.round);
        var tmp1 := Tagged(x.buffer[x.j][i + 1], id, x.round);
        (x.(pc := Store0(i, tmp0, tmp1)), Nothing)
    case Store0(i, tmp0, tmp1) => (x.(pc := Store1(i, tmp1)), StoreWord(x.j, i, tmp0))
    case Store1(i, tmp1) => (x.(pc := Load(i + 2)), StoreWord(x.j, i + 1, tmp1))
    case NotifyValid => (x.(pc := Advance), StoreValid(x.j, x.round))
    case Last(i) =>
      if x.round + 1 == q.rounds && i < q.words then (x.(out := x.out + [x.buffer[x.j][i]], pc := Last(i + 1)), Nothing)
      else (x.(pc := Advance), Nothing)
    case Advance =>
      var x1 := x.(round := x.round + 1);
      if x.round + 1 > q.rounds then (x1.(pc := Done), Nothing)
      else if id != 0 then (x1.(pc := NotifyReady), Nothing)
      else (x1.(j := 1 - x.j, pc := Loop(q, id)), Nothing)
    case NotifyReady => (x.(j := 1 - x.j, pc := Loop(q, id)), StoreReady(x.j, x.round + 1))
    case Done => (x, Nothing)
  }

  function Clear(r: Reservation, f: Flag): Reservation {
    if r == Held(f) then Free else r
  }

  function Hit(q: Config, x: Stage, e: Effect): (x': Stage)
    requires StageValid(q, x) && EffectValid(q, e)
    ensures StageValid(q, x')
  {
    match e
    case Nothing => x
    case StoreReady(j, value) => x.(ready := x.ready[j := value], res := Clear(x.res, ReadyNum(j)))
    case StoreValid(j, value) => x.(valid := x.valid[j := value], res := Clear(x.res, ValidNum(j)))
    case StoreWord(j, i, word) => x.(buffer := x.buffer[j := x.buffer[j][i := word]])
  }

  type State = seq<Stage>

  predicate Valid(q: Config, s: State) {
    ConfigOk(q) && |s| == q.tiles && forall k :: 0 <= k < |s| ==> StageValid(q, s[k])
  }

  /** The tile an effect of tile t goes to. */
  function Target(t: nat, e: Effect): int {
    match e
    case Nothing => -1
    case StoreReady(_, _) => t - 1
    case StoreValid(_, _) => t + 1
    case StoreWord(_, _, _) => t + 1
  }

  /** One step of tile t. */
  function Step(q: Config, s: State, t: nat): (s': State)
    requires Valid(q, s)
    ensures Valid(q, s')
  {
    if t >= |s| then s
    else
      var (x, e) := Local(q, t, s[t]);
      var u := Target(t, e);
      if 0 <= u < |s| then s[t := x][u := Hit(q, s[u], e)] else s[t := x]
  }

  function Exec(q: Config, s: State, sched: seq<nat>): (s': State)
    requires Valid(q, s)
    ensures Valid(q, s')
  {
    if sched == [] then s else Step(q, Exec(q, s, sched[..|sched| - 1]), sched[|sched| - 1])
  }

  /** The words tile 0 starts with; the other tiles' buffers are zero. */
  function FirstWords(n: nat): (b: seq<Tag>)
    ensures |b| == n
  {
    seq(n, (i: nat) => Tag(i % 0x100, 0, 0))
  }

  function InitStage(q: Config, id: nat): (x: Stage)
    requires ConfigOk(q)
    ensures StageValid(q, x)
  {
    var b := if id == 0 then FirstWords(q.words) else seq(q.words, _ => Tag(0, 0, 0));
    Stage(Start, 0, 0, Free, [0, 0], [0, 0], [b, b], [])
  }

  function Init(q: Config): (s: State)
    requires ConfigOk(q)
    ensures Valid(q, s)
  {
    seq(q.tiles, (id: nat) => InitStage(q, id))
  }

  // ---- progress of a stage, and what it should hold ----

  /** How many rounds the stage has announced to the next one. */
  function Sent(x: Stage): int {
    if x.pc.Start? then 0 else if x.pc.Advance? then x.round else x.round - 1
  }

  /** Up to which round the stage has told the previous one that its buffers are free. */
  function Credit(x: Stage): int {
    match x.pc
    case Start => 0
    case Init0 => 0
    case Init1 => 1
    case NotifyReady => x.round
    case Done => x.round
    case _ => x.round + 1
  }

  /** The stage has found its data valid and has not yet finished with it. */
  predicate Consuming(x: Stage) {
    match x.pc
    case ReadyLr => true
    case ReadyLrAq => true
    case Load(_) => true
    case Store0(_, _, _) => true
    case Store1(_, _) => true
    case NotifyValid => true
    case Last(_) => true
    case Advance => true
    case _ => false
  }

  /** The stage has found the next one's buffer ready and is filling it. */
  predicate Filling(x: Stage) {
    match x.pc
    case Load(_) => true
    case Store0(_, _, _) => true
    case Store1(_, _) => true
    case NotifyValid => true
    case _ => false
  }

  /** How many words of the next stage's buffer are filled in this round. */
  function Filled(q: Config, x: Stage): nat
    requires Filling(x)
  {
    match x.pc
    case Load(i) => i
    case Store0(i, _, _) => i
    case Store1(i, _) => i + 1
    case NotifyValid => q.words
  }

  /** The last round up to n that uses buffer j. */
  function LastRound(n: int, j: nat): int {
    if n % 2 == (j + 1) % 2 then n else if n >= 1 then n - 1 else 0
  }

  function SumIds(m: nat): nat {
    if m == 0 then 0 else SumIds(m - 1) + (m - 1)
  }

  /** Word i of the buffer of stage m in round r. */
  function Expected(m: nat, r: int, i: nat): Tag {
    Tag(i % 0x100, if m == 0 then 0 else r % 0x100, SumIds(m) % 0x1_0000)
  }

  lemma TagsExpected(m: nat, r: nat, i: nat)
    ensures Tagged(Expected(m, r, i), m, r) == Expected(m + 1, r, i)
  {
    ModAdd(SumIds(m), m, 0x1_0000);
  }

  // ---- the invariant ----

  ghost predicate StageOk(q: Config, id: nat, x: Stage)
    requires StageValid(q, x)
  {
    && (x.pc.Start? <==> x.round == 0)
    && (x.pc.Done? <==> x.round == q.rounds + 1) && x.round <= q.rounds + 1
    && (x.pc.Init0? || x.pc.Init1? ==> x.round == 1)
    && (x.pc.NotifyReady? ==> x.round >= 2)
    && (id == 0 ==> !x.pc.Init0? && !x.pc.Init1? && !x.pc.NotifyReady? && !x.pc.ValidLr? && !x.pc.ValidLrAq?)
    && (id + 1 == q.tiles ==> !x.pc.ReadyLr? && !x.pc.ReadyLrAq? && !Filling(x))
    && (id + 1 < q.tiles ==> !x.pc.Last?)
    && (!x.pc.Start? && !x.pc.Done? ==> x.j == (if x.pc.NotifyReady? then x.round % 2 else (x.round + 1) % 2))
    && (x.pc.Start? ==> x.j == 0)
    && (x.pc.ValidLrAq? && x.res == Held(ValidNum(x.j)) ==> x.valid[x.j] != x.round)
    && (x.pc.ReadyLrAq? && x.res == Held(ReadyNum(x.j)) ==> x.ready[x.j] != x.round)
    && (id == 0 ==> x.buffer == [FirstWords(q.words), FirstWords(q.words)])
  }

  /** What two neighbours know of each other. */
  ghost predicate LinkOk(q: Config, a: Stage, b: Stage)
    requires StageValid(q, a) && StageValid(q, b)
  {
    && b.valid[0] == LastRound(Sent(a), 0) && b.valid[1] == LastRound(Sent(a), 1)
    && a.ready[0] == LastRound(Credit(b), 0) && a.ready[1] == LastRound(Credit(b), 1)
    && Sent(a) <= Credit(b) && b.round <= Sent(a) + 1
    && (Consuming(b) ==> b.round <= Sent(a))
    && (Filling(a) ==> a.round <= Credit(b))
  }

  ghost predicate Holds(q: Config, m: nat, b: Stage, j: nat, r: int, n: nat)
    requires StageValid(q, b) && j < 2 && n <= q.words
  {
    forall i :: 0 <= i < n ==> b.buffer[j][i] == Expected(m, r, i)
  }

  /** The buffers of stage m, as far as the stage before it has filled them. */
  ghost predicate DataOk(q: Config, m: nat, a: Stage, b: Stage)
    requires StageValid(q, a) && StageValid(q, b)
  {
    && (forall j: nat :: j < 2 && LastRound(Sent(a), j) >= 1 && !(Filling(a) && a.j == j) ==>
          Holds(q, m, b, j, LastRound(Sent(a), j), q.words))
    && (Filling(a) ==> Holds(q, m, b, a.j, a.round, Filled(q, a)))
    && (a.pc.Store0? ==> a.pc.tmp0 == Expected(m, a.round, a.pc.i))
    && (a.pc.Store0? || a.pc.Store1? ==> a.pc.tmp1 == Expected(m, a.round, a.pc.i + 1))
  }

  /** What the last stage has printed. */
  ghost predicate OutOk(q: Config, id: nat, x: Stage) {
    if id + 1 < q.tiles then x.out == []
    else
      var n := if x.round + 1 < q.rounds || x.round == 0 then 0
               else if x.round + 1 == q.rounds && x.pc.Last? then x.pc.i
               else if x.round + 1 == q.rounds && !x.pc.Advance? then 0
               else if q.rounds == 1 then 0
               else q.words;
      |x.out| == n && forall i :: 0 <= i < n ==> x.out[i] == Expected(id, q.rounds - 1, i)
  }

  ghost predicate LinkAt(q: Config, s: State, k: nat)
    requires Valid(q, s) && 1 <= k < |s|
  {
    LinkOk(q, s[k - 1], s[k]) && DataOk(q, k, s[k - 1], s[k])
  }

  ghost predicate Inv(q: Config, s: State) {
    && Valid(q, s)
    && (forall k :: 0 <= k < |s| ==> StageOk(q, k, s[k]) && OutOk(q, k, s[k]))
    && (forall k :: 1 <= k < |s| ==> LinkAt(q, s, k))
  }

  // ---- every step keeps the invariant ----

  lemma InitInv(q: Config)
    requires ConfigOk(q)
    ensures Inv(q, Init(q))
  {
  }

  predicate WaitsOnFlag(pc: Pc) {
    pc.ValidLr? || pc.ValidLrAq? || pc.ReadyLr? || pc.ReadyLrAq?
  }

  lemma StageWaits(q: Config, id: nat, x: Stage)
    requires ConfigOk(q) && id < q.tiles && StageValid(q, x) && StageOk(q, id, x) && WaitsOnFlag(x.pc)
    ensures StageOk(q, id, Local(q, id, x).0)
  {
  }

  lemma StageFills(q: Config, id: nat, x: Stage)
    requires ConfigOk(q) && id < q.tiles && StageValid(q, x) && StageOk(q, id, x) && Filling(x)
    ensures StageOk(q, id, Local(q, id, x).0)
  {
  }

  lemma StageStep(q: Config, id: nat, x: Stage)
    requires ConfigOk(q) && id < q.tiles && StageValid(q, x) && StageOk(q, id, x)
    ensures StageOk(q, id, Local(q, id, x).0)
  {
    if WaitsOnFlag(x.pc) {
      StageWaits(q, id, x);
    } else if Filling(x) {
      StageFills(q, id, x);
    } else {
      StageTurns(q, id, x);
    }
  }

  lemma StageTurns(q: Config, id: nat, x: Stage)
    requires ConfigOk(q) && id < q.tiles && StageValid(q, x) && StageOk(q, id, x) && !WaitsOnFlag(x.pc) && !Filling(x)
    ensures StageOk(q, id, Local(q, id, x).0)
  {
  }

  lemma StageHit(q: Config, id: nat, x: Stage, e: Effect)
    requires ConfigOk(q) && id < q.tiles && StageValid(q, x) && StageOk(q, id, x) && EffectValid(q, e)
    requires id == 0 ==> !e.StoreWord?
    ensures StageOk(q, id, Hit(q, x, e))
  {
  }

  /** A waiting stage sees the number it waits for exactly when its neighbour has come that far. */
  lemma ValidWait(q: Config, id: nat, a: Stage, b: Stage)
    requires ConfigOk(q) && StageValid(q, a) && StageValid(q, b) && StageOk(q, id, b) && LinkOk(q, a, b)
    requires b.pc.ValidLr? || b.pc.ValidLrAq?
    ensures b.valid[b.j] <= b.round
    ensures b.valid[b.j] == b.round <==> Sent(a) >= b.round
  {
  }

  lemma ReadyWait(q: Config, id: nat, a: Stage, b: Stage)
    requires ConfigOk(q) && StageValid(q, a) && StageValid(q, b) && StageOk(q, id, a) && LinkOk(q, a, b)
    requires a.pc.ReadyLr? || a.pc.ReadyLrAq?
    ensures a.ready[a.j] <= a.round
    ensures a.ready[a.j] == a.round <==> Credit(b) >= a.round
  {
  }

  /** Tile `id` steps; the link to the next tile. */
  lemma LinkStepsLeft(q: Config, id: nat, a: Stage, b: Stage)
    requires ConfigOk(q) && id + 1 < q.tiles && StageValid(q, a) && StageValid(q, b)
    requires StageOk(q, id, a) && StageOk(q, id + 1, b) && LinkOk(q, a, b)
    ensures
      var (a', e) := Local(q, id, a);
      LinkOk(q, a', if Target(id, e) == id + 1 then Hit(q, b, e) else b)
  {
    if a.pc.ReadyLr? || a.pc.ReadyLrAq? {
      ReadyWait(q, id, a, b);
      LinkWaitsLeft(q, id, a, b);
    } else if a.pc.NotifyValid? {
      LinkNotifiesLeft(q, id, a, b);
    } else if Filling(a) {
      LinkFillsLeft(q, id, a, b);
    } else {
      LinkRestLeft(q, id, a, b);
    }
  }

  lemma LinkWaitsLeft(q: Config, id: nat, a: Stage, b: Stage)
    requires ConfigOk(q) && id + 1 < q.tiles && StageValid(q, a) && StageValid(q, b)
    requires a.pc.ReadyLr? || a.pc.ReadyLrAq?
    requires StageOk(q, id, a) && StageOk(q, id + 1, b) && LinkOk(q, a, b)
    ensures LinkOk(q, Local(q, id, a).0, b)
  {
    ReadyWait(q, id, a, b);
  }

  lemma LinkFillsLeft(q: Config, id: nat, a: Stage, b: Stage)
    requires ConfigOk(q) && id + 1 < q.tiles && StageValid(q, a) && StageValid(q, b)
    requires Filling(a) && !a.pc.NotifyValid?
    requires StageOk(q, id, a) && StageOk(q, id + 1, b) && LinkOk(q, a, b)
    ensures
      var (a', e) := Local(q, id, a);
      LinkOk(q, a', if Target(id, e) == id + 1 then Hit(q, b, e) else b)
  {
    var (a', e) := Local(q, id, a);
    assert Sent(a') == Sent(a) && Filling(a') && a'.round == a.round && a'.ready == a.ready;
  }

  lemma LinkNotifiesLeft(q: Config, id: nat, a: Stage, b: Stage)
    requires ConfigOk(q) && id + 1 < q.tiles && StageValid(q, a) && StageValid(q, b)
    requires a.pc.NotifyValid?
    requires StageOk(q, id, a) && StageOk(q, id + 1, b) && LinkOk(q, a, b)
    ensures LinkOk(q, Local(q, id, a).0, Hit(q, b, Local(q, id, a).1))
  {
  }

  lemma LinkLooksLeft(q: Config, id: nat, a: Stage, b: Stage)
    requires ConfigOk(q) && id + 1 < q.tiles && StageValid(q, a) && StageValid(q, b) && LinkOk(q, a, b)
    requires a.pc.ValidLr? || a.pc.ValidLrAq?
    requires StageOk(q, id, a)
    ensures LinkOk(q, Local(q, id, a).0, b) && Target(id, Local(q, id, a).1) != id + 1
  {
  }

  lemma LinkTurnsLeft(q: Config, id: nat, a: Stage, b: Stage)
    requires ConfigOk(q) && id + 1 < q.tiles && StageValid(q, a) && StageValid(q, b) && LinkOk(q, a, b)
    requires !Filling(a) && !WaitsOnFlag(a.pc)
    requires StageOk(q, id, a)
    ensures LinkOk(q, Local(q, id, a).0, b) && Target(id, Local(q, id, a).1) != id + 1
  {
    assert Sent(Local(q, id, a).0) == Sent(a);
  }

  lemma LinkRestLeft(q: Config, id: nat, a: Stage, b: Stage)
    requires ConfigOk(q) && id + 1 < q.tiles && StageValid(q, a) && StageValid(q, b)
    requires !Filling(a) && !a.pc.ReadyLr? && !a.pc.ReadyLrAq?
    requires StageOk(q, id, a) && StageOk(q, id + 1, b) && LinkOk(q, a, b)
    ensures LinkOk(q, Local(q, id, a).0, b) && Target(id, Local(q, id, a).1) != id + 1
  {
    if WaitsOnFlag(a.pc) {
      LinkLooksLeft(q, id, a, b);
    } else {
      LinkTurnsLeft(q, id, a, b);
    }
  }

  /** Tile `id + 1` steps; the link to the tile before it. */
  lemma LinkStepsRight(q: Config, id: nat, a: Stage, b: Stage)
    requires ConfigOk(q) && id + 1 < q.tiles && StageValid(q, a) && StageValid(q, b)
    requires StageOk(q, id, a) && StageOk(q, id + 1, b) && LinkOk(q, a, b)
    ensures
      var (b', e) := Local(q, id + 1, b);
      LinkOk(q, if Target(id + 1, e) == id then Hit(q, a, e) else a, b')
  {
    if b.pc.Init0? || b.pc.Init1? || b.pc.NotifyReady? {
      LinkGrantsRight(q, id, a, b);
    } else {
      LinkRestRight(q, id, a, b);
    }
  }

  lemma LinkBeginsRight(q: Config, id: nat, a: Stage, b: Stage)
    requires ConfigOk(q) && id + 1 < q.tiles && StageValid(q, a) && StageValid(q, b)
    requires b.pc.Init0? || b.pc.Init1?
    requires StageOk(q, id + 1, b) && LinkOk(q, a, b)
    ensures Target(id + 1, Local(q, id + 1, b).1) == id
    ensures LinkOk(q, Hit(q, a, Local(q, id + 1, b).1), Local(q, id + 1, b).0)
  {
  }

  lemma LinkGrantsRight(q: Config, id: nat, a: Stage, b: Stage)
    requires ConfigOk(q) && id + 1 < q.tiles && StageValid(q, a) && StageValid(q, b)
    requires b.pc.Init0? || b.pc.Init1? || b.pc.NotifyReady?
    requires StageOk(q, id, a) && StageOk(q, id + 1, b) && LinkOk(q, a, b)
    ensures Target(id + 1, Local(q, id + 1, b).1) == id
    ensures LinkOk(q, Hit(q, a, Local(q, id + 1, b).1), Local(q, id + 1, b).0)
  {
    if !b.pc.NotifyReady? {
      LinkBeginsRight(q, id, a, b);
    }
  }

  lemma LinkLooksRight(q: Config, id: nat, a: Stage, b: Stage)
    requires ConfigOk(q) && id + 1 < q.tiles && StageValid(q, a) && StageValid(q, b)
    requires b.pc.ValidLr? || b.pc.ValidLrAq?
    requires StageOk(q, id + 1, b) && LinkOk(q, a, b)
    ensures LinkOk(q, a, Local(q, id + 1, b).0) && Target(id + 1, Local(q, id + 1, b).1) != id
  {
    var b' := Local(q, id + 1, b).0;
    ValidWait(q, id + 1, a, b);
    assert b'.round == b.round && b'.valid == b.valid && Credit(b') == Credit(b);
  }

  lemma LinkTurnsRight(q: Config, id: nat, a: Stage, b: Stage)
    requires ConfigOk(q) && id + 1 < q.tiles && StageValid(q, a) && StageValid(q, b)
    requires b.pc.Start? || b.pc.Last? || b.pc.Advance? || b.pc.Done?
    requires StageOk(q, id + 1, b) && LinkOk(q, a, b)
    ensures LinkOk(q, a, Local(q, id + 1, b).0) && Target(id + 1, Local(q, id + 1, b).1) != id
  {
    var b' := Local(q, id + 1, b).0;
    assert b'.valid == b.valid && Credit(b') == Credit(b);
  }

  lemma LinkCopiesRight(q: Config, id: nat, a: Stage, b: Stage)
    requires ConfigOk(q) && id + 1 < q.tiles && StageValid(q, a) && StageValid(q, b)
    requires b.pc.ReadyLr? || b.pc.ReadyLrAq? || Filling(b)
    requires StageOk(q, id + 1, b) && LinkOk(q, a, b)
    ensures LinkOk(q, a, Local(q, id + 1, b).0) && Target(id + 1, Local(q, id + 1, b).1) != id
  {
    var b' := Local(q, id + 1, b).0;
    assert b'.valid == b.valid && Credit(b') == Credit(b);
  }

  lemma LinkRestRight(q: Config, id: nat, a: Stage, b: Stage)
    requires ConfigOk(q) && id + 1 < q.tiles && StageValid(q, a) && StageValid(q, b)
    requires !b.pc.Init0? && !b.pc.Init1? && !b.pc.NotifyReady?
    requires StageOk(q, id, a) && StageOk(q, id + 1, b) && LinkOk(q, a, b)
    ensures Target(id + 1, Local(q, id + 1, b).1) != id
    ensures LinkOk(q, a, Local(q, id + 1, b).0)
  {
    if b.pc.ValidLr? || b.pc.ValidLrAq? {
      LinkLooksRight(q, id, a, b);
    } else if b.pc.Start? || b.pc.Last? || b.pc.Advance? || b.pc.Done? {
      LinkTurnsRight(q, id, a, b);
    } else {
      LinkCopiesRight(q, id, a, b);
    }
  }

  /** Effects of other tiles leave a link alone. */
  lemma LinkHit(q: Config, id: nat, a: Stage, b: Stage, e: Effect)
    requires ConfigOk(q) && StageValid(q, a) && StageValid(q, b) && LinkOk(q, a, b) && EffectValid(q, e)
    ensures !e.StoreReady? ==> LinkOk(q, Hit(q, a, e), b)
    ensures !e.StoreValid? ==> LinkOk(q, a, Hit(q, b, e))
  {
  }

  // ---- data ----

  /** The buffer a consuming stage reads holds the words of its round. */
  lemma ReadsExpected(q: Config, id: nat, a: Stage, b: Stage)
    requires ConfigOk(q) && id + 1 < q.tiles && StageValid(q, a) && StageValid(q, b)
    requires StageOk(q, id, a) && StageOk(q, id + 1, b) && LinkOk(q, a, b) && DataOk(q, id + 1, a, b)
    requires Consuming(b)
    ensures Holds(q, id + 1, b, b.j, b.round, q.words)
    ensures Filling(a) ==> a.j != b.j
  {
  }

  lemma DataFillsLeft(q: Config, id: nat, a: Stage, b: Stage)
    requires ConfigOk(q) && StageValid(q, a) && StageValid(q, b)
    requires a.pc.Store0? || a.pc.Store1?
    requires DataOk(q, id + 1, a, b)
    ensures
      var (a', e) := Local(q, id, a);
      e.StoreWord? && DataOk(q, id + 1, a', Hit(q, b, e))
  {
    var (a', e) := Local(q, id, a);
    var b' := Hit(q, b, e);
    assert LastRound(Sent(a'), 1 - a.j) == LastRound(Sent(a), 1 - a.j);
    assert Holds(q, id + 1, b, a.j, a.round, Filled(q, a));
    assert Holds(q, id + 1, b', a.j, a.round, Filled(q, a'));
    forall j: nat | j < 2 && LastRound(Sent(a'), j) >= 1 && !(Filling(a') && a'.j == j)
      ensures Holds(q, id + 1, b', j, LastRound(Sent(a'), j), q.words)
    {
      assert Holds(q, id + 1, b, j, LastRound(Sent(a), j), q.words);
    }
  }

  lemma DataLoadsLeft(q: Config, id: nat, a: Stage, b: Stage)
    requires ConfigOk(q) && StageValid(q, a) && StageValid(q, b)
    requires a.pc.Load? && Holds(q, id, a, a.j, a.round, q.words)
    requires DataOk(q, id + 1, a, b)
    ensures Local(q, id, a).1.Nothing? && DataOk(q, id + 1, Local(q, id, a).0, b)
  {
    var a' := Local(q, id, a).0;
    if a.pc.i < q.words {
      TagsExpected(id, a.round, a.pc.i);
      TagsExpected(id, a.round, a.pc.i + 1);
    }
    forall j: nat | j < 2 && LastRound(Sent(a'), j) >= 1 && !(Filling(a') && a'.j == j)
      ensures Holds(q, id + 1, b, j, LastRound(Sent(a'), j), q.words)
    {
      assert Holds(q, id + 1, b, j, LastRound(Sent(a), j), q.words);
    }
  }

  lemma DataNotifiesLeft(q: Config, id: nat, a: Stage, b: Stage)
    requires ConfigOk(q) && id + 1 < q.tiles && StageValid(q, a) && StageValid(q, b)
    requires a.pc.NotifyValid? && StageOk(q, id, a)
    requires DataOk(q, id + 1, a, b)
    ensures DataOk(q, id + 1, Local(q, id, a).0, Hit(q, b, Local(q, id, a).1))
  {
    var (a', e) := Local(q, id, a);
    var b' := Hit(q, b, e);
    assert b'.buffer == b.buffer;
    assert LastRound(Sent(a'), a.j) == a.round;
    assert LastRound(Sent(a'), 1 - a.j) == LastRound(Sent(a), 1 - a.j);
    assert Holds(q, id + 1, b, a.j, a.round, q.words);
    forall j: nat | j < 2 && LastRound(Sent(a'), j) >= 1 
      ensures Holds(q, id + 1, b', j, LastRound(Sent(a'), j), q.words)
    {
      assert j == a.j || j == 1 - a.j;
      if j == 1 - a.j {
        assert Holds(q, id + 1, b, j, LastRound(Sent(a), j), q.words);
      }
    }
  }

  lemma DataRestLeft(q: Config, id: nat, a: Stage, b: Stage)
    requires ConfigOk(q) && id + 1 < q.tiles && StageValid(q, a) && StageValid(q, b)
    requires !Filling(a) && StageOk(q, id, a)
    requires DataOk(q, id + 1, a, b)
    ensures DataOk(q, id + 1, Local(q, id, a).0, b) && Target(id, Local(q, id, a).1) != id + 1
  {
    var a' := Local(q, id, a).0;
    assert Sent(a') == Sent(a);
    forall j: nat | j < 2 && LastRound(Sent(a'), j) >= 1 && !(Filling(a') && a'.j == j)
      ensures Holds(q, id + 1, b, j, LastRound(Sent(a'), j), q.words)
    {
      assert Holds(q, id + 1, b, j, LastRound(Sent(a), j), q.words);
    }
  }

  /** Tile `id` steps; the buffers of the next tile. */
  lemma DataStepsLeft(q: Config, id: nat, a: Stage, b: Stage)
    requires ConfigOk(q) && id + 1 < q.tiles && StageValid(q, a) && StageValid(q, b)
    requires StageOk(q, id, a) && DataOk(q, id + 1, a, b)
    requires Consuming(a) ==> Holds(q, id, a, a.j, a.round, q.words)
    ensures
      var (a', e) := Local(q, id, a);
      DataOk(q, id + 1, a', if Target(id, e) == id + 1 then Hit(q, b, e) else b)
  {
    if a.pc.Store0? || a.pc.Store1? {
      DataFillsLeft(q, id, a, b);
    } else if a.pc.Load? {
      DataLoadsLeft(q, id, a, b);
    } else if a.pc.NotifyValid? {
      DataNotifiesLeft(q, id, a, b);
    } else {
      DataRestLeft(q, id, a, b);
    }
  }

  lemma DataSame(q: Config, m: nat, a: Stage, b: Stage, a': Stage, b': Stage)
    requires StageValid(q, a) && StageValid(q, b) && StageValid(q, a') && StageValid(q, b')
    requires a'.pc == a.pc && a'.round == a.round && a'.j == a.j && b'.buffer == b.buffer
    requires DataOk(q, m, a, b)
    ensures DataOk(q, m, a', b')
  {
    assert Sent(a') == Sent(a) && Filling(a') == Filling(a);
    forall j: nat | j < 2 && LastRound(Sent(a'), j) >= 1 && !(Filling(a') && a'.j == j)
      ensures Holds(q, m, b', j, LastRound(Sent(a'), j), q.words)
    {
      assert Holds(q, m, b, j, LastRound(Sent(a), j), q.words);
    }
  }

  lemma LocalKeepsBuffer(q: Config, id: nat, x: Stage)
    requires StageValid(q, x)
    ensures Local(q, id, x).0.buffer == x.buffer
  {
  }

  // ---- output ----

  lemma OutStep(q: Config, id: nat, x: Stage)
    requires ConfigOk(q) && id < q.tiles && StageValid(q, x) && StageOk(q, id, x) && OutOk(q, id, x)
    requires Consuming(x) ==> Holds(q, id, x, x.j, x.round, q.words)
    ensures OutOk(q, id, Local(q, id, x).0)
  {
  }

  // ---- all tiles together ----

  lemma Reads(q: Config, s: State, k: nat)
    requires Inv(q, s) && k < |s|
    ensures Consuming(s[k]) ==> Holds(q, k, s[k], s[k].j, s[k].round, q.words)
  {
    if Consuming(s[k]) && k > 0 {
      assert LinkAt(q, s, k);
      ReadsExpected(q, k - 1, s[k - 1], s[k]);
    }
  }

  /** What a step leaves at tile k. */
  lemma After(q: Config, s: State, t: nat, k: nat)
    requires Valid(q, s) && t < |s| && k < |s|
    ensures
      var (x, e) := Local(q, t, s[t]);
      Step(q, s, t)[k] == if k == t then x else if Target(t, e) == k then Hit(q, s[k], e) else s[k]
  {
  }

  lemma StepStage(q: Config, s: State, t: nat, k: nat)
    requires Inv(q, s) && t < |s| && k < |s|
    ensures StageOk(q, k, Step(q, s, t)[k]) && OutOk(q, k, Step(q, s, t)[k])
  {
    After(q, s, t, k);
    StageStep(q, t, s[t]);
    if k == t {
      Reads(q, s, t);
      OutStep(q, t, s[t]);
    } else {
      var e := Local(q, t, s[t]).1;
      if Target(t, e) == k {
        StageHit(q, k, s[k], e);
      }
    }
  }

  lemma StepOtherLink(q: Config, s: State, t: nat, k: nat)
    requires Inv(q, s) && t < |s| && 1 <= k < |s| && t != k && t != k - 1
    ensures LinkOk(q, Step(q, s, t)[k - 1], Step(q, s, t)[k])
  {
    assert LinkAt(q, s, k);
    After(q, s, t, k - 1);
    After(q, s, t, k);
    var e := Local(q, t, s[t]).1;
    LinkHit(q, k - 1, s[k - 1], s[k], e);
    if Target(t, e) == k - 1 {
      assert !e.StoreReady?;
    } else if Target(t, e) == k {
      assert !e.StoreValid?;
    }
  }

  lemma StepLeftLink(q: Config, s: State, t: nat)
    requires Inv(q, s) && t + 1 < |s|
    ensures LinkOk(q, Step(q, s, t)[t], Step(q, s, t)[t + 1])
  {
    assert LinkAt(q, s, t + 1);
    LinkStepsLeft(q, t, s[t], s[t + 1]);
    After(q, s, t, t);
    After(q, s, t, t + 1);
  }

  lemma StepRightLink(q: Config, s: State, k: nat, t: nat)
    requires Inv(q, s) && k + 1 == t < |s|
    ensures LinkOk(q, Step(q, s, t)[k], Step(q, s, t)[t])
  {
    assert LinkAt(q, s, t);
    LinkStepsRight(q, k, s[k], s[t]);
    After(q, s, t, k);
    After(q, s, t, t);
  }

  lemma StepLink(q: Config, s: State, t: nat, k: nat)
    requires Inv(q, s) && t < |s| && 1 <= k < |s|
    ensures LinkOk(q, Step(q, s, t)[k - 1], Step(q, s, t)[k])
  {
    if t == k - 1 {
      StepLeftLink(q, s, t);
    } else if t == k {
      StepRightLink(q, s, k - 1, t);
    } else {
      StepOtherLink(q, s, t, k);
    }
  }

  lemma StepData(q: Config, s: State, t: nat, k: nat)
    requires Inv(q, s) && t < |s| && 1 <= k < |s|
    ensures DataOk(q, k, Step(q, s, t)[k - 1], Step(q, s, t)[k])
  {
    assert LinkAt(q, s, k);
    After(q, s, t, k - 1);
    After(q, s, t, k);
    var s' := Step(q, s, t);
    if t == k - 1 {
      Reads(q, s, t);
      DataStepsLeft(q, t, s[t], s[k]);
    } else {
      LocalKeepsBuffer(q, t, s[t]);
      DataSame(q, k, s[k - 1], s[k], s'[k - 1], s'[k]);
    }
  }

  lemma StepKeepsInv(q: Config, s: State, t: nat)
    requires Inv(q, s)
    ensures Inv(q, Step(q, s, t))
  {
    if t < |s| {
      forall k: nat | k < |s| ensures StageOk(q, k, Step(q, s, t)[k]) && OutOk(q, k, Step(q, s, t)[k]) {
        StepStage(q, s, t, k);
      }
      forall k: nat | 1 <= k < |s| ensures LinkAt(q, Step(q, s, t), k)
      {
        StepLink(q, s, t, k);
        StepData(q, s, t, k);
      }
    }
  }

  lemma {:induction false} ExecKeepsInv(q: Config, sched: seq<nat>)
    requires ConfigOk(q)
    ensures Inv(q, Exec(q, Init(q), sched))
  {
    if sched == [] {
      InitInv(q);
    } else {
      ExecKeepsInv(q, sched[..|sched| - 1]);
      StepKeepsInv(q, Exec(q, Init(q), sched[..|sched| - 1]), sched[|sched| - 1]);
    }
  }

  // ---- what the pipeline promises, over every run ----

  /** A waiting tile never misses its number: what it waits on stays at or below its round, and
      equals the round as soon as its neighbour has announced it. */
  lemma WaitsNeverSkip(q: Config, sched: seq<nat>, k: nat)
    requires ConfigOk(q) && k < q.tiles
    ensures
      var s := Exec(q, Init(q), sched);
      && (s[k].pc.ValidLr? || s[k].pc.ValidLrAq? ==>
            && k > 0 && s[k].valid[s[k].j] <= s[k].round
            && (s[k].valid[s[k].j] == s[k].round <==> Sent(s[k - 1]) >= s[k].round))
      && (s[k].pc.ReadyLr? || s[k].pc.ReadyLrAq? ==>
            && k + 1 < q.tiles && s[k].ready[s[k].j] <= s[k].round
            && (s[k].ready[s[k].j] == s[k].round <==> Credit(s[k + 1]) >= s[k].round))
  {
    var s := Exec(q, Init(q), sched);
    ExecKeepsInv(q, sched);
    if s[k].pc.ValidLr? || s[k].pc.ValidLrAq? {
      assert LinkAt(q, s, k);
      ValidWait(q, k, s[k - 1], s[k]);
    } else if s[k].pc.ReadyLr? || s[k].pc.ReadyLrAq? {
      assert LinkAt(q, s, k + 1);
      ReadyWait(q, k, s[k], s[k + 1]);
    }
  }

  /** No tile stores into a buffer that the next tile has found valid and not finished with, and
      what the next tile finds there is the round it waited for, each word carrying the sum of
      the ids it has passed. */
  lemma BuffersAreNotOverwritten(q: Config, sched: seq<nat>, k: nat)
    requires ConfigOk(q) && 1 <= k < q.tiles
    ensures
      var s := Exec(q, Init(q), sched);
      && (Filling(s[k - 1]) && Consuming(s[k]) ==> s[k - 1].j != s[k].j && s[k].round + 1 == s[k - 1].round)
      && (Consuming(s[k]) ==> forall i :: 0 <= i < q.words ==> s[k].buffer[s[k].j][i] == Expected(k, s[k].round, i))
  {
    var s := Exec(q, Init(q), sched);
    ExecKeepsInv(q, sched);
    if Consuming(s[k]) {
      assert LinkAt(q, s, k);
      ReadsExpected(q, k - 1, s[k - 1], s[k]);
    }
  }

  /** The last tile, once done, has printed for every i the value i with the sum of the ids of
      all the tiles before it. */
  lemma LastTilePrints(q: Config, sched: seq<nat>, i: nat)
    requires ConfigOk(q) && q.rounds >= 2 && q.tiles >= 2 && i < q.words
    requires Exec(q, Init(q), sched)[q.tiles - 1].pc.Done?
    ensures |Exec(q, Init(q), sched)[q.tiles - 1].out| == q.words
    ensures Exec(q, Init(q), sched)[q.tiles - 1].out[i]
         == Tag(i % 0x100, (q.rounds - 1) % 0x100, ((q.tiles - 1) * (q.tiles - 2) / 2) % 0x1_0000)
  {
    ExecKeepsInv(q, sched);
    SumIdsClosed(q.tiles - 1);
  }

  lemma {:induction false} SumIdsClosed(m: nat)
    ensures SumIds(m) == m * (m - 1) / 2
  {
    if m > 0 {
      SumIdsClosed(m - 1);
      assert m * (m - 1) == (m - 1) * (m - 2) + 2 * (m - 1);
    }
  }

  // ---- no deadlock ----

  predicate Blocked(x: Stage) {
    || (x.pc.ValidLrAq? && x.res == Held(ValidNum(x.j)))
    || (x.pc.ReadyLrAq? && x.res == Held(ReadyNum(x.j)))
  }

  lemma UnblockedMoves(q: Config, s: State, t: nat)
    requires Inv(q, s) && t < |s| && !s[t].pc.Done? && !Blocked(s[t])
    ensures Step(q, s, t) != s
  {
    After(q, s, t, t);
    assert Local(q, t, s[t]).0.pc != s[t].pc;
  }

  /** Some tile furthest behind: no tile has a lower round, no earlier one the same. */
  lemma {:induction false} Furthest(s: State, n: nat) returns (t: nat)
    requires 1 <= n <= |s|
    ensures t < n
    ensures forall k :: 0 <= k < n ==> s[t].round <= s[k].round
    ensures forall k :: 0 <= k < t ==> s[t].round < s[k].round
  {
    if n == 1 {
      t := 0;
    } else {
      t := Furthest(s, n - 1);
      if s[n - 1].round < s[t].round {
        t := n - 1;
      }
    }
  }

  /** As long as some tile is not done, some tile can move: the one furthest behind waits for nobody. */
  lemma NeverStuck(q: Config, sched: seq<nat>, k: nat)
    requires ConfigOk(q) && k < q.tiles
    ensures
      var s := Exec(q, Init(q), sched);
      !s[k].pc.Done? ==> exists t :: 0 <= t < q.tiles && Step(q, s, t) != s
  {
    var s := Exec(q, Init(q), sched);
    ExecKeepsInv(q, sched);
    if !s[k].pc.Done? {
      var t := Furthest(s, |s|);
      if !Blocked(s[t]) {
        UnblockedMoves(q, s, t);
      } else if s[t].pc.ValidLrAq? {
        assert LinkAt(q, s, t);
        ValidWait(q, t, s[t - 1], s[t]);
        assert false;
      } else {
        assert LinkAt(q, s, t + 1);
        ReadyWait(q, t, s[t], s[t + 1]);
        UnblockedMoves(q, s, t + 1);
      }
    }
  }
}
