/** The codec of belief-propagation message payloads (gbp_message_payload_codec.hpp).

    All header fields are 32-bit and wrap. A float is its 32-bit pattern, so that copying it into a
    word and back is the identity. */
module Codec {
  import opened Arithmetic

  const TWO_32: int := 0x1_0000_0000

  type U32 = x: int | 0 <= x < 0x1_0000_0000

  function Cast(n: nat): U32 {
    n % TWO_32
  }

  datatype Direction = FactorToVar | VarToFactor

  datatype Segment = Segment(segmentIdx: U32, segmentCount: U32, payloadWords: U32, words: seq<U32>)

  datatype EncodedPayload = EncodedPayload(
    schemaVersion: U32, bank: U32, slot: U32, direction: Direction,
    dim: U32, etaLen: U32, lamLen: U32, segments: seq<Segment>)

  datatype DecodedPayload = DecodedPayload(
    schemaVersion: U32, bank: U32, slot: U32, direction: Direction,
    dim: U32, eta: seq<U32>, lam: seq<U32>)

  datatype Error =
    | BadVersion
    | BadBankSlot
    | DirectionMismatch
    | InvalidDim
    | LengthMismatch
    | MissingSegments
    | SegmentHeaderMismatch
    | SegmentWordUnderflow
    | PayloadLengthMismatch
    | PayloadUnderflow
    | InvalidFp32Payload
    | InvalidZeroPayload

  datatype Result<+T> = Ok(value: T) | Failed(error: Error)

  /** Decoding may also read past the end of the extracted words, which C++ leaves undefined. */
  datatype DecodeResult = Decoded(payload: DecodedPayload, wordsConsumed: nat) | Rejected(error: Error) | Undefined

  // ---- headers ----

  const SCHEMA_VERSION: U32 := 1
  const BANK_LO: U32 := 4
  const BANK_HI: U32 := 7

  function ExpectedLamLen(dim: U32): U32 {
    (dim * ((dim + 1) % TWO_32)) % TWO_32 / 2
  }

  function DirectionForSlot(slot: U32): Direction {
    if slot % 2 == 0 then FactorToVar else VarToFactor
  }

  /** The first thing wrong with a header, if anything is. */
  function HeaderError(version: U32, bank: U32, slot: U32, direction: Direction): Result<()> {
    if version != SCHEMA_VERSION then Failed(BadVersion)
    else if bank < BANK_LO || bank > BANK_HI || slot >= BANK_HI - BANK_LO + 1 || bank != BANK_LO + slot then
      Failed(BadBankSlot)
    else if direction != DirectionForSlot(slot) then Failed(DirectionMismatch)
    else Ok(())
  }

  function ShapeError(dim: U32, etaLen: U32, lamLen: U32): Result<()> {
    if dim == 0 then Failed(InvalidDim)
    else if etaLen != dim || lamLen != ExpectedLamLen(dim) then Failed(LengthMismatch)
    else Ok(())
  }

  // ---- payload words ----

  /** The exponent bits are not all ones. */
  predicate IsFinite(word: U32) {
    word / 0x80_0000 % 0x100 != 0xFF
  }

  function WordsError(words: seq<U32>): Result<()> {
    if exists i :: 0 <= i < |words| && !IsFinite(words[i]) then Failed(InvalidFp32Payload)
    else if forall i :: 0 <= i < |words| ==> words[i] == 0 then Failed(InvalidZeroPayload)
    else Ok(())
  }

  /** A finite float: below its sign bit it is less than infinity. */
  lemma FiniteIs(word: U32)
    ensures IsFinite(word) <==> word % 0x8000_0000 < 0x7F80_0000
  {
    var sign, rest := word / 0x8000_0000, word % 0x8000_0000;
    assert word == 0x8000_0000 * sign + rest && 0 <= sign < 2;
    assert word / 0x80_0000 == 0x100 * sign + rest / 0x80_0000;
  }

  lemma WordsOutcome(words: seq<U32>)
    ensures WordsError(words) == Failed(InvalidFp32Payload)
       <==> exists i :: 0 <= i < |words| && words[i] % 0x8000_0000 >= 0x7F80_0000
    ensures WordsError(words) == Failed(InvalidZeroPayload) <==> forall i :: 0 <= i < |words| ==> words[i] == 0
    ensures WordsError(words).Failed? ==> WordsError(words).error in {InvalidFp32Payload, InvalidZeroPayload}
  {
    forall i | 0 <= i < |words| ensures IsFinite(words[i]) <==> words[i] % 0x8000_0000 < 0x7F80_0000 {
      FiniteIs(words[i]);
    }
  }

  method ValidatePayloadWords(words: seq<U32>) returns (r: Result<()>)
    ensures r == WordsError(words)
    ensures r == Failed(InvalidFp32Payload) <==> exists i :: 0 <= i < |words| && words[i] % 0x8000_0000 >= 0x7F80_0000
    ensures r == Failed(InvalidZeroPayload) <==> forall i :: 0 <= i < |words| ==> words[i] == 0
    ensures r.Failed? ==> r.error in {InvalidFp32Payload, InvalidZeroPayload}
  {
    WordsOutcome(words);
    var allZero := true;
    for i := 0 to |words|
      invariant forall j :: 0 <= j < i ==> IsFinite(words[j])
      invariant allZero <==> forall j :: 0 <= j < i ==> words[j] == 0
    {
      if !IsFinite(words[i]) {
        return Failed(InvalidFp32Payload);
      }
      if words[i] != 0 {
        allZero := false;
      }
    }
    if allZero {
      return Failed(InvalidZeroPayload);
    }
    return Ok(());
  }

  // ---- segments ----

  function SegmentError(x: Segment, idx: nat, count: nat): Result<()> {
    if x.segmentCount != count || x.segmentIdx != idx then Failed(SegmentHeaderMismatch)
    else if |x.words| < x.payloadWords then Failed(SegmentWordUnderflow)
    else Ok(())
  }

  /** The first thing wrong with the segments idx, idx + 1, .., count - 1. */
  function SegmentsError(segments: seq<Segment>, idx: nat, count: nat): Result<()>
    requires idx <= count <= |segments|
    decreases count - idx
  {
    if idx == count then Ok(())
    else if SegmentError(segments[idx], idx, count).Failed? then SegmentError(segments[idx], idx, count)
    else SegmentsError(segments, idx + 1, count)
  }

  /** The lengths the first n segments declare, added without wrapping. */
  function Declared(segments: seq<Segment>, n: nat): (d: nat)
    requires n <= |segments|
  {
    if n == 0 then 0 else Declared(segments, n - 1) + segments[n - 1].payloadWords
  }

  predicate Covered(segments: seq<Segment>, n: nat)
    requires n <= |segments|
  {
    forall i :: 0 <= i < n ==> segments[i].payloadWords <= |segments[i].words|
  }

  /** The words the first n segments carry, one after the other. */
  function Carried(segments: seq<Segment>, n: nat): (w: seq<U32>)
    requires n <= |segments| && Covered(segments, n)
    ensures |w| == Declared(segments, n)
  {
    if n == 0 then []
    else Carried(segments, n - 1) + segments[n - 1].words[..segments[n - 1].payloadWords]
  }

  lemma {:induction false} NoErrorMeansCovered(segments: seq<Segment>, idx: nat, count: nat)
    requires idx <= count <= |segments| && SegmentsError(segments, idx, count).Ok?
    ensures forall i :: idx <= i < count ==> SegmentError(segments[i], i, count).Ok?
    decreases count - idx
  {
    if idx < count {
      NoErrorMeansCovered(segments, idx + 1, count);
    }
  }

  function SegmentCount(segments: seq<Segment>): (n: nat)
    ensures n <= |segments|
  {
    if |segments| < TWO_32 then |segments| else Cast(|segments|)
  }

  /** The first `required` words carried, if the segments are in order and the lengths they declare
      add up, in 32 bits, to `required`. */
  function Extract(segments: seq<Segment>, required: U32): (r: Result<seq<U32>>)
    ensures r.Ok? ==> |r.value| == required
  {
    var n := SegmentCount(segments);
    if segments == [] then Failed(MissingSegments)
    else if SegmentsError(segments, 0, n).Failed? then Failed(SegmentsError(segments, 0, n).error)
    else
      NoErrorMeansCovered(segments, 0, n);
      if Cast(Declared(segments, n)) != required then Failed(PayloadLengthMismatch)
      else Ok(Carried(segments, n)[..required])
  }

  function Min(a: int, b: int): int {
    if a < b then a else b
  }

  /** Taking as many words of the next segment as are still required takes the required words of
      all that is carried. */
  lemma TakeMore(segments: seq<Segment>, idx: nat, required: U32)
    requires idx < |segments| && Covered(segments, idx + 1)
    ensures
      var had := Min(required, Declared(segments, idx));
      var take := Min(segments[idx].payloadWords, required - had);
      && 0 <= take <= |segments[idx].words|
      && Carried(segments, idx + 1)[..Min(required, Declared(segments, idx + 1))]
         == Carried(segments, idx)[..had] + segments[idx].words[..take]
  {
  }

  /** The words taken from the first n segments. */
  function Taken(segments: seq<Segment>, n: nat, required: U32): (w: seq<U32>)
    requires n <= |segments| && Covered(segments, n)
    ensures |w| == Min(required, Declared(segments, n))
  {
    Carried(segments, n)[..Min(required, Declared(segments, n))]
  }

  /** A segment that is in order and long enough: what the loop does with it. */
  lemma NextSegment(segments: seq<Segment>, idx: nat, count: nat, required: U32)
    requires idx < count <= |segments| && Covered(segments, idx) && SegmentError(segments[idx], idx, count).Ok?
    ensures Covered(segments, idx + 1)
    ensures SegmentsError(segments, idx, count) == SegmentsError(segments, idx + 1, count)
    ensures Cast(Cast(Declared(segments, idx)) + segments[idx].payloadWords) == Cast(Declared(segments, idx + 1))
    ensures
      var take := Min(segments[idx].payloadWords, required - |Taken(segments, idx, required)|);
      && 0 <= take <= |segments[idx].words|
      && Taken(segments, idx + 1, required) == Taken(segments, idx, required) + segments[idx].words[..take]
  {
    DeclareMore(segments, idx);
    TakeMore(segments, idx, required);
  }

  lemma DeclareMore(segments: seq<Segment>, idx: nat)
    requires idx < |segments|
    ensures Cast(Cast(Declared(segments, idx)) + segments[idx].payloadWords) == Cast(Declared(segments, idx + 1))
  {
    ModAdd(Declared(segments, idx), segments[idx].payloadWords, TWO_32);
  }

  lemma ExtractFails(segments: seq<Segment>, required: U32, error: Error)
    requires segments != [] && SegmentsError(segments, 0, SegmentCount(segments)) == Failed(error)
    ensures Extract(segments, required) == Failed(error)
  {
  }

  lemma ExtractEnds(segments: seq<Segment>, required: U32, out: seq<U32>)
    requires segments != [] && SegmentsError(segments, 0, SegmentCount(segments)).Ok?
    requires Covered(segments, SegmentCount(segments))
    requires var n := SegmentCount(segments);
      out == Carried(segments, n)[..Min(required, Declared(segments, n))]
    ensures var n := SegmentCount(segments);
      if Cast(Declared(segments, n)) != required then Extract(segments, required) == Failed(PayloadLengthMismatch)
      else |out| == required && Extract(segments, required) == Ok(out)
  {
  }

  method AppendWords(out: seq<U32>, words: seq<U32>, take: nat) returns (r: seq<U32>)
    requires take <= |words|
    ensures r == out + words[..take]
  {
    r := out;
    for wordIdx := 0 to take
      invariant r == out + words[..wordIdx]
    {
      r := r + [words[wordIdx]];
    }
  }

  lemma {:induction false} NoUnderflow(segments: seq<Segment>, idx: nat, count: nat)
    requires idx <= count <= |segments|
    ensures SegmentsError(segments, idx, count) != Failed(PayloadUnderflow)
    decreases count - idx
  {
    if idx < count {
      NoUnderflow(segments, idx + 1, count);
    }
  }

  /** What is declared is there, so the only length error is a wrong sum. */
  lemma NeverUnderflows(segments: seq<Segment>, required: U32)
    ensures Extract(segments, required) != Failed(PayloadUnderflow)
  {
    NoUnderflow(segments, 0, SegmentCount(segments));
  }

  /** The last length check of the source never fires. */
  method ExtractPayloadWords(segments: seq<Segment>, required: U32) returns (r: Result<seq<U32>>)
    ensures r == Extract(segments, required)
    ensures r != Failed(PayloadUnderflow)
  {
    NeverUnderflows(segments, required);
    if segments == [] {
      return Failed(MissingSegments);
    }
    var out: seq<U32> := [];
    var declared: U32 := 0;
    var count: U32 := Cast(|segments|);
    var idx := 0;
    while idx < count
      invariant idx <= count == SegmentCount(segments)
      invariant SegmentsError(segments, 0, count) == SegmentsError(segments, idx, count)
      invariant Covered(segments, idx)
      invariant declared == Cast(Declared(segments, idx))
      invariant out == Taken(segments, idx, required)
    {
      var segment := segments[idx];
      if SegmentError(segment, idx, count).Failed? {
        ExtractFails(segments, required, SegmentError(segment, idx, count).error);
      }
      if segment.segmentCount != count || segment.segmentIdx != idx {
        return Failed(SegmentHeaderMismatch);
      }
      if |segment.words| < segment.payloadWords {
        return Failed(SegmentWordUnderflow);
      }
      NextSegment(segments, idx, count, required);
      declared := Cast(declared + segment.payloadWords);
      var take := Min(segment.payloadWords, required - |out|);
      out := AppendWords(out, segment.words, take);
      idx := idx + 1;
    }
    ExtractEnds(segments, required, out);
    if declared != required {
      return Failed(PayloadLengthMismatch);
    }
    if |out| != required {
      return Failed(PayloadUnderflow);
    }
    return Ok(out);
  }

  // ---- encode and decode ----

  function Encode(d: DecodedPayload): Result<EncodedPayload> {
    var etaLen, lamLen := Cast(|d.eta|), Cast(|d.lam|);
    var words := d.eta + d.lam;
    if HeaderError(d.schemaVersion, d.bank, d.slot, d.direction).Failed? then
      Failed(HeaderError(d.schemaVersion, d.bank, d.slot, d.direction).error)
    else if ShapeError(d.dim, etaLen, lamLen).Failed? then Failed(ShapeError(d.dim, etaLen, lamLen).error)
    else if WordsError(words).Failed? then Failed(WordsError(words).error)
    else Ok(EncodedPayload(d.schemaVersion, d.bank, d.slot, d.direction, d.dim, etaLen, lamLen,
                           [Segment(0, 1, Cast(|words|), words)]))
  }

  function Decode(e: EncodedPayload): DecodeResult {
    if HeaderError(e.schemaVersion, e.bank, e.slot, e.direction).Failed? then
      Rejected(HeaderError(e.schemaVersion, e.bank, e.slot, e.direction).error)
    else if ShapeError(e.dim, e.etaLen, e.lamLen).Failed? then
      Rejected(ShapeError(e.dim, e.etaLen, e.lamLen).error)
    else
      Finish(e, Extract(e.segments, Cast(e.etaLen + e.lamLen)))
  }

  /** Decoding, once the header is checked and the words are extracted. */
  function Finish(e: EncodedPayload, extracted: Result<seq<U32>>): DecodeResult {
    match extracted
    case Failed(error) => Rejected(error)
    case Ok(words) =>
      if WordsError(words).Failed? then Rejected(WordsError(words).error)
      else if e.etaLen + e.lamLen > |words| then Undefined
      else Decoded(DecodedPayload(e.schemaVersion, e.bank, e.slot, DirectionForSlot(e.slot), e.dim,
                                  words[..e.etaLen], words[e.etaLen..e.etaLen + e.lamLen]),
                   Cast(e.etaLen + e.lamLen))
  }

  method EncodePayload(d: DecodedPayload) returns (r: Result<EncodedPayload>)
    ensures r == Encode(d)
  {
    var header := HeaderError(d.schemaVersion, d.bank, d.slot, d.direction);
    if header.Failed? {
      return Failed(header.error);
    }
    var etaLen, lamLen := Cast(|d.eta|), Cast(|d.lam|);
    var shape := ShapeError(d.dim, etaLen, lamLen);
    if shape.Failed? {
      return Failed(shape.error);
    }
    ghost var all := d.eta + d.lam;
    var words: seq<U32> := [];
    for i := 0 to |d.eta|
      invariant words == d.eta[..i]
      invariant forall j :: 0 <= j < i ==> IsFinite(all[j])
    {
      assert all[i] == d.eta[i];
      if !IsFinite(d.eta[i]) {
        return Failed(InvalidFp32Payload);
      }
      words := words + [d.eta[i]];
    }
    for i := 0 to |d.lam|
      invariant words == d.eta + d.lam[..i]
      invariant forall j :: 0 <= j < |d.eta| + i ==> IsFinite(all[j])
    {
      assert all[|d.eta| + i] == d.lam[i];
      if !IsFinite(d.lam[i]) {
        return Failed(InvalidFp32Payload);
      }
      words := words + [d.lam[i]];
    }
    assert words == all;
    var payload := ValidatePayloadWords(words);
    if payload.Failed? {
      return Failed(payload.error);
    }
    var segment := Segment(0, 1, Cast(|words|), words);
    return Ok(EncodedPayload(d.schemaVersion, d.bank, d.slot, d.direction, d.dim, etaLen, lamLen, [segment]));
  }

  method DecodePayload(e: EncodedPayload) returns (r: DecodeResult)
    ensures r == Decode(e)
  {
    var header := HeaderError(e.schemaVersion, e.bank, e.slot, e.direction);
    if header.Failed? {
      return Rejected(header.error);
    }
    var shape := ShapeError(e.dim, e.etaLen, e.lamLen);
    if shape.Failed? {
      return Rejected(shape.error);
    }
    var total: U32 := Cast(e.etaLen + e.lamLen);
    var extracted := ExtractPayloadWords(e.segments, total);
    if extracted.Failed? {
      return Rejected(extracted.error);
    }
    r := FillOutput(e, extracted.value);
  }

  method FillOutput(e: EncodedPayload, words: seq<U32>) returns (r: DecodeResult)
    ensures r == Finish(e, Ok(words))
  {
    var payload := ValidatePayloadWords(words);
    if payload.Failed? {
      return Rejected(payload.error);
    }
    var eta, lam: seq<U32> := [], [];
    for etaIdx := 0 to e.etaLen
      invariant etaIdx <= |words| && eta == words[..etaIdx]
    {
      if etaIdx >= |words| {
        return Undefined;
      }
      eta := eta + [words[etaIdx]];
    }
    for lamIdx := 0 to e.lamLen
      invariant e.etaLen + lamIdx <= |words| && lam == words[e.etaLen..e.etaLen + lamIdx]
    {
      if e.etaLen + lamIdx >= |words| {
        return Undefined;
      }
      lam := lam + [words[e.etaLen + lamIdx]];
    }
    return Decoded(DecodedPayload(e.schemaVersion, e.bank, e.slot, DirectionForSlot(e.slot), e.dim, eta, lam),
                   Cast(e.etaLen + e.lamLen));
  }

  // ---- which messages pass, in terms of their fields ----

  /** Slots 0 to 3 are the banks 4 to 7. */
  predicate GoodSlot(bank: U32, slot: U32) {
    4 <= bank <= 7 && slot == bank - 4
  }

  /** Even slots go from factor to variable. */
  predicate GoodHeader(version: U32, bank: U32, slot: U32, direction: Direction) {
    version == 1 && GoodSlot(bank, slot) && (direction == FactorToVar <==> slot % 2 == 0)
  }

  /** eta has dim words and lam half of dim * (dim + 1), in 32 bits. */
  predicate GoodLengths(dim: U32, etaLen: int, lamLen: int) {
    etaLen == dim && lamLen == dim * (dim + 1) % 0x1_0000_0000 / 2
  }

  ghost predicate GoodWords(words: seq<U32>) {
    && (forall i :: 0 <= i < |words| ==> words[i] % 0x8000_0000 < 0x7F80_0000)
    && (exists i :: 0 <= i < |words| && words[i] != 0)
  }

  lemma TimesWhole(a: nat)
    ensures a * 0x1_0000_0000 % 0x1_0000_0000 == 0
  {
    DivModIs(a * 0x1_0000_0000, 0x1_0000_0000, a, 0);
  }

  lemma TimesReduced(a: nat, b: nat)
    requires b <= 0x1_0000_0000
    ensures a * (b % 0x1_0000_0000) % 0x1_0000_0000 == a * b % 0x1_0000_0000
  {
    if b == 0x1_0000_0000 {
      TimesWhole(a);
    } else {
      DivModIs(b, 0x1_0000_0000, 0, b);
    }
  }

  lemma ExpectedLamLenIs(dim: U32)
    ensures ExpectedLamLen(dim) == dim * (dim + 1) % 0x1_0000_0000 / 2
  {
    TimesReduced(dim, dim + 1);
  }

  lemma HeaderOutcome(version: U32, bank: U32, slot: U32, direction: Direction)
    ensures var r := HeaderError(version, bank, slot, direction);
      && (r.Ok? <==> GoodHeader(version, bank, slot, direction))
      && (version != 1 ==> r == Failed(BadVersion))
      && (version == 1 && !GoodSlot(bank, slot) ==> r == Failed(BadBankSlot))
      && (version == 1 && GoodSlot(bank, slot) && r.Failed? ==> r == Failed(DirectionMismatch))
  {
  }

  lemma ShapeOutcome(dim: U32, etaLen: U32, lamLen: U32)
    ensures var r := ShapeError(dim, etaLen, lamLen);
      && (r.Ok? <==> dim != 0 && GoodLengths(dim, etaLen, lamLen))
      && (dim == 0 ==> r == Failed(InvalidDim))
      && (dim != 0 && !GoodLengths(dim, etaLen, lamLen) ==> r == Failed(LengthMismatch))
  {
    ExpectedLamLenIs(dim);
  }

  /** Encoding succeeds exactly on good fields, with these contents. */
  lemma EncodesIff(d: DecodedPayload)
    ensures Encode(d).Ok? <==>
      && GoodHeader(d.schemaVersion, d.bank, d.slot, d.direction)
      && d.dim != 0 && GoodLengths(d.dim, |d.eta| % 0x1_0000_0000, |d.lam| % 0x1_0000_0000)
      && GoodWords(d.eta + d.lam)
    ensures Encode(d).Ok? ==>
      var e := Encode(d).value;
      && e.schemaVersion == 1 && e.bank == d.bank && e.slot == d.slot && e.direction == d.direction
      && e.dim == e.etaLen == d.dim && e.lamLen == |d.lam| % 0x1_0000_0000
      && e.segments == [Segment(0, 1, (|d.eta| + |d.lam|) % 0x1_0000_0000, d.eta + d.lam)]
  {
    HeaderOutcome(d.schemaVersion, d.bank, d.slot, d.direction);
    ShapeOutcome(d.dim, Cast(|d.eta|), Cast(|d.lam|));
    WordsOutcome(d.eta + d.lam);
  }

  ghost predicate SomeNotFinite(words: seq<U32>) {
    exists i :: 0 <= i < |words| && words[i] % 0x8000_0000 >= 0x7F80_0000
  }

  predicate AllZero(words: seq<U32>) {
    forall i :: 0 <= i < |words| ==> words[i] == 0
  }

  /** The errors of encoding, in their order. */
  lemma EncodeFails(d: DecodedPayload)
    ensures d.schemaVersion != 1 ==> Encode(d) == Failed(BadVersion)
    ensures d.schemaVersion == 1 && !GoodSlot(d.bank, d.slot) ==> Encode(d) == Failed(BadBankSlot)
    ensures d.schemaVersion == 1 && GoodSlot(d.bank, d.slot) ==>
      !GoodHeader(d.schemaVersion, d.bank, d.slot, d.direction) ==> Encode(d) == Failed(DirectionMismatch)
    ensures GoodHeader(d.schemaVersion, d.bank, d.slot, d.direction) ==>
      var lengths := GoodLengths(d.dim, |d.eta| % 0x1_0000_0000, |d.lam| % 0x1_0000_0000);
      && (d.dim == 0 ==> Encode(d) == Failed(InvalidDim))
      && (d.dim != 0 && !lengths ==> Encode(d) == Failed(LengthMismatch))
      && (d.dim != 0 && lengths && SomeNotFinite(d.eta + d.lam) ==> Encode(d) == Failed(InvalidFp32Payload))
      && (d.dim != 0 && lengths && AllZero(d.eta + d.lam) ==> Encode(d) == Failed(InvalidZeroPayload))
  {
    HeaderOutcome(d.schemaVersion, d.bank, d.slot, d.direction);
    ShapeOutcome(d.dim, Cast(|d.eta|), Cast(|d.lam|));
    WordsOutcome(d.eta + d.lam);
  }

  /** Segment i of n says so and has the words it declares. */
  predicate GoodSegment(x: Segment, i: int, n: int) {
    x.segmentCount == n && x.segmentIdx == i && x.payloadWords <= |x.words|
  }

  ghost predicate GoodSegments(segments: seq<Segment>, n: nat) {
    n <= |segments| && forall i :: 0 <= i < n ==> GoodSegment(segments[i], i, n)
  }

  /** What is wrong with a segment that is not good. */
  function SegmentFault(x: Segment, i: int, n: int): Error {
    if x.segmentCount == n && x.segmentIdx == i then SegmentWordUnderflow else SegmentHeaderMismatch
  }

  /** Segment i is the first that is not good. */
  ghost predicate FirstBad(segments: seq<Segment>, i: nat, n: nat) {
    i < n <= |segments| && !GoodSegment(segments[i], i, n) && forall j :: 0 <= j < i ==> GoodSegment(segments[j], j, n)
  }

  lemma {:induction false} SegmentsOutcome(segments: seq<Segment>, idx: nat, count: nat)
    requires idx <= count <= |segments| && forall j :: 0 <= j < idx ==> GoodSegment(segments[j], j, count)
    ensures SegmentsError(segments, idx, count).Ok? <==> GoodSegments(segments, count)
    ensures forall i: nat :: FirstBad(segments, i, count) ==>
      SegmentsError(segments, idx, count) == Failed(SegmentFault(segments[i], i, count))
    decreases count - idx
  {
    if idx < count && GoodSegment(segments[idx], idx, count) {
      SegmentsOutcome(segments, idx + 1, count);
    }
  }

  /** Word k of segment i follows the words of the segments before it. */
  lemma {:induction false} CarriedAt(segments: seq<Segment>, n: nat, i: nat, k: nat)
    requires i < n <= |segments| && Covered(segments, n) && k < segments[i].payloadWords
    ensures 0 <= Declared(segments, i) + k < |Carried(segments, n)|
    ensures Carried(segments, n)[Declared(segments, i) + k] == segments[i].words[k]
  {
    if i < n - 1 {
      CarriedAt(segments, n - 1, i, k);
    }
  }

  ghost predicate CarriesGood(segments: seq<Segment>, n: nat, required: int) {
    && GoodSegments(segments, n) && 0 <= required <= Declared(segments, n)
    && GoodWords(Carried(segments, n)[..required])
  }

  lemma ModAtMost(a: nat, m: nat)
    requires m > 0
    ensures a % m <= a
  {
    DivMod(a, m);
    MulBound(a / m, m);
  }

  lemma SegmentCountIs(segments: seq<Segment>)
    ensures SegmentCount(segments) == |segments| % 0x1_0000_0000
  {
    if |segments| < TWO_32 {
      DivModIs(|segments|, TWO_32, 0, |segments|);
    }
  }

  /** The words come out exactly if every segment the 32-bit count reaches is in order and the lengths
      they declare add up, in 32 bits; they are the first ones carried. */
  lemma ExtractOutcome(segments: seq<Segment>, required: U32)
    ensures var n := |segments| % 0x1_0000_0000; n <= |segments|
    ensures var n, r := |segments| % 0x1_0000_0000, Extract(segments, required);
      && (r.Ok? <==> segments != [] && GoodSegments(segments, n)
                     && Declared(segments, n) % 0x1_0000_0000 == required)
      && (r.Ok? ==> required <= Declared(segments, n) && r.value == Carried(segments, n)[..required])
      && (segments == [] ==> r == Failed(MissingSegments))
      && (segments != [] ==> forall i: nat :: FirstBad(segments, i, n) ==> r == Failed(SegmentFault(segments[i], i, n)))
      && (segments != [] && GoodSegments(segments, n) && r.Failed? ==> r == Failed(PayloadLengthMismatch))
  {
    var n := SegmentCount(segments);
    SegmentCountIs(segments);
    SegmentsOutcome(segments, 0, n);
    ModAtMost(Declared(segments, n), TWO_32);
  }

  lemma GoodWordsIff(words: seq<U32>)
    ensures WordsError(words).Ok? <==> GoodWords(words)
  {
    WordsOutcome(words);
  }

  lemma AcceptedHeader(e: EncodedPayload, required: U32)
    requires required == (e.etaLen + e.lamLen) % 0x1_0000_0000
    ensures Accepted(e) <==>
      && GoodHeader(e.schemaVersion, e.bank, e.slot, e.direction)
      && e.dim != 0 && GoodLengths(e.dim, e.etaLen, e.lamLen)
      && Extract(e.segments, required).Ok? && WordsError(Extract(e.segments, required).value).Ok?
  {
    HeaderOutcome(e.schemaVersion, e.bank, e.slot, e.direction);
    ShapeOutcome(e.dim, e.etaLen, e.lamLen);
  }

  lemma ExtractedIsGood(segments: seq<Segment>, required: U32)
    ensures var n, r := |segments| % 0x1_0000_0000, Extract(segments, required);
      n <= |segments| &&
      (r.Ok? && WordsError(r.value).Ok? <==>
        segments != [] && Declared(segments, n) % 0x1_0000_0000 == required && CarriesGood(segments, n, required))
  {
    ExtractOutcome(segments, required);
    if Extract(segments, required).Ok? {
      GoodWordsIff(Extract(segments, required).value);
    }
  }

  /** Decoding lets a message through exactly if its header and lengths are good, every segment the
      32-bit count reaches is in order, the lengths they declare add up in 32 bits, and that many of
      the words they carry are finite and not all zero. */
  lemma AcceptedIff(e: EncodedPayload)
    ensures var n, required := |e.segments| % 0x1_0000_0000, (e.etaLen + e.lamLen) % 0x1_0000_0000;
      n <= |e.segments| &&
      (Accepted(e) <==>
        && GoodHeader(e.schemaVersion, e.bank, e.slot, e.direction)
        && e.dim != 0 && GoodLengths(e.dim, e.etaLen, e.lamLen)
        && e.segments != [] && Declared(e.segments, n) % 0x1_0000_0000 == required
        && CarriesGood(e.segments, n, required))
  {
    var required: U32 := (e.etaLen + e.lamLen) % 0x1_0000_0000;
    AcceptedHeader(e, required);
    ExtractedIsGood(e.segments, required);
  }

  /** What is decoded: the carried words, cut after dim. */
  lemma DecodedIs(e: EncodedPayload)
    requires Decode(e).Decoded?
    ensures var n, r := |e.segments| % 0x1_0000_0000, Decode(e);
      && r.wordsConsumed == e.etaLen + e.lamLen && n <= |e.segments| && CarriesGood(e.segments, n, r.wordsConsumed)
      && r.payload.eta + r.payload.lam == Carried(e.segments, n)[..r.wordsConsumed]
      && r.payload.(eta := [], lam := []) == DecodedPayload(1, e.bank, e.slot, e.direction, e.dim, [], [])
      && |r.payload.eta| == e.dim && |r.payload.lam| == e.lamLen
  {
    ReadsOutOfBoundsIff(e);
    AcceptedIff(e);
    SumWraps(e.etaLen, e.lamLen);
    ExtractOutcome(e.segments, e.etaLen + e.lamLen);
    CutAndJoin(Carried(e.segments, |e.segments| % 0x1_0000_0000)[..e.etaLen + e.lamLen], e.etaLen);
  }

  lemma CutAndJoin(w: seq<U32>, k: nat)
    requires k <= |w|
    ensures w[..k] + w[k..|w|] == w
  {
  }

  /** The errors of decoding, in their order. */
  lemma DecodeFailsEarly(e: EncodedPayload)
    ensures e.schemaVersion != 1 ==> Decode(e) == Rejected(BadVersion)
    ensures e.schemaVersion == 1 && !GoodSlot(e.bank, e.slot) ==> Decode(e) == Rejected(BadBankSlot)
    ensures e.schemaVersion == 1 && GoodSlot(e.bank, e.slot) ==>
      !GoodHeader(e.schemaVersion, e.bank, e.slot, e.direction) ==> Decode(e) == Rejected(DirectionMismatch)
    ensures GoodHeader(e.schemaVersion, e.bank, e.slot, e.direction) ==>
      && (e.dim == 0 ==> Decode(e) == Rejected(InvalidDim))
      && (e.dim != 0 && !GoodLengths(e.dim, e.etaLen, e.lamLen) ==> Decode(e) == Rejected(LengthMismatch))
  {
    HeaderOutcome(e.schemaVersion, e.bank, e.slot, e.direction);
    ShapeOutcome(e.dim, e.etaLen, e.lamLen);
  }

  /** The header and the lengths are good: what decoding comes to then. */
  lemma DecodeGoes(e: EncodedPayload, required: U32)
    requires GoodHeader(e.schemaVersion, e.bank, e.slot, e.direction)
    requires e.dim != 0 && GoodLengths(e.dim, e.etaLen, e.lamLen)
    requires required == (e.etaLen + e.lamLen) % 0x1_0000_0000
    ensures Decode(e) == Finish(e, Extract(e.segments, required))
  {
    HeaderOutcome(e.schemaVersion, e.bank, e.slot, e.direction);
    ShapeOutcome(e.dim, e.etaLen, e.lamLen);
  }

  lemma DecodeFailsInSegments(e: EncodedPayload)
    requires GoodHeader(e.schemaVersion, e.bank, e.slot, e.direction)
    requires e.dim != 0 && GoodLengths(e.dim, e.etaLen, e.lamLen)
    ensures e.segments == [] ==> Decode(e) == Rejected(MissingSegments)
    ensures var n, required := |e.segments| % 0x1_0000_0000, (e.etaLen + e.lamLen) % 0x1_0000_0000;
      && n <= |e.segments|
      && (e.segments != [] ==> forall i: nat :: FirstBad(e.segments, i, n) ==>
            Decode(e) == Rejected(SegmentFault(e.segments[i], i, n)))
      && (e.segments != [] && GoodSegments(e.segments, n) && Declared(e.segments, n) % 0x1_0000_0000 != required ==>
            Decode(e) == Rejected(PayloadLengthMismatch))
  {
    var required: U32 := (e.etaLen + e.lamLen) % 0x1_0000_0000;
    DecodeGoes(e, required);
    ExtractOutcome(e.segments, required);
  }

  lemma DecodeFailsOnWords(e: EncodedPayload, n: nat, required: U32)
    requires GoodHeader(e.schemaVersion, e.bank, e.slot, e.direction)
    requires e.dim != 0 && GoodLengths(e.dim, e.etaLen, e.lamLen)
    requires n == |e.segments| % 0x1_0000_0000 <= |e.segments| && required == (e.etaLen + e.lamLen) % 0x1_0000_0000
    requires e.segments != [] && GoodSegments(e.segments, n) && Declared(e.segments, n) % 0x1_0000_0000 == required
    ensures required <= Declared(e.segments, n)
    ensures SomeNotFinite(Carried(e.segments, n)[..required]) ==> Decode(e) == Rejected(InvalidFp32Payload)
    ensures AllZero(Carried(e.segments, n)[..required]) ==> Decode(e) == Rejected(InvalidZeroPayload)
  {
    DecodeGoes(e, required);
    ExtractOutcome(e.segments, required);
    WordsOutcome(Extract(e.segments, required).value);
  }

  // ---- what the codec promises ----

  lemma ExtractSingle(words: seq<U32>, required: U32)
    ensures Extract([Segment(0, 1, Cast(|words|), words)], required)
         == if Cast(|words|) != required then Failed(PayloadLengthMismatch) else Ok(words[..required])
  {
    var x := Segment(0, 1, Cast(|words|), words);
    assert SegmentsError([x], 1, 1).Ok?;
    assert SegmentsError([x], 0, 1).Ok?;
    NoErrorMeansCovered([x], 0, 1);
    assert Declared([x], 0) == 0 && Carried([x], 0) == [];
    assert Declared([x], 1) == Cast(|words|);
    assert Carried([x], 1) == words[..Cast(|words|)];
    if Cast(|words|) == required {
      assert words[..required][..required] == words[..required];
    }
  }

  lemma CastSum(a: nat, b: nat)
    ensures Cast(a + b) == Cast(Cast(a) + Cast(b))
  {
    ModAdd(a, b, TWO_32);
    ModAdd(b, Cast(a), TWO_32);
  }

  lemma EncodedHeader(d: DecodedPayload)
    requires Encode(d).Ok?
    ensures
      var e := Encode(d).value;
      var words := d.eta + d.lam;
      && e.etaLen == Cast(|d.eta|) && e.lamLen == Cast(|d.lam|) && d.direction == DirectionForSlot(d.slot)
      && e.segments == [Segment(0, 1, Cast(|words|), words)]
      && WordsError(words).Ok?
      && Decode(e) == Finish(e, Extract(e.segments, Cast(e.etaLen + e.lamLen)))
  {
  }

  /** What was encoded decodes to the same fields and words exactly when the two vectors have, in
      all, fewer than 2^32 words. */
  lemma RoundTripIff(d: DecodedPayload)
    requires Encode(d).Ok?
    ensures Decode(Encode(d).value) == Decoded(d, |d.eta| + |d.lam|) <==> |d.eta| + |d.lam| < TWO_32
  {
    var e := Encode(d).value;
    var words := d.eta + d.lam;
    EncodedHeader(d);
    CastSum(|d.eta|, |d.lam|);
    ExtractSingle(words, Cast(e.etaLen + e.lamLen));
    if |words| < TWO_32 {
      CastSmall(|d.eta|, |d.lam|);
      assert words[..|words|] == words;
      assert words[..e.etaLen] == d.eta && words[e.etaLen..e.etaLen + e.lamLen] == d.lam;
    }
  }

  lemma CastSmall(a: nat, b: nat)
    requires a + b < TWO_32
    ensures Cast(a) == a && Cast(b) == b && Cast(a + b) == a + b
  {
  }

  ghost predicate WellFormed(segments: seq<Segment>) {
    0 < |segments| < TWO_32 && forall i :: 0 <= i < |segments| ==> SegmentError(segments[i], i, |segments|).Ok?
  }

  lemma {:induction false} WellFormedHasNoError(segments: seq<Segment>, idx: nat)
    requires WellFormed(segments) && idx <= |segments|
    ensures SegmentsError(segments, idx, |segments|).Ok?
    decreases |segments| - idx
  {
    if idx < |segments| {
      WellFormedHasNoError(segments, idx + 1);
    }
  }

  lemma ExtractWellFormed(segments: seq<Segment>, required: U32)
    requires WellFormed(segments)
    ensures Covered(segments, |segments|)
    ensures
      var words := Carried(segments, |segments|);
      Extract(segments, required)
      == if Cast(|words|) != required then Failed(PayloadLengthMismatch) else Ok(words[..required])
  {
    WellFormedHasNoError(segments, 0);
  }

  /** However the same words are cut into well-formed segments, they decode to the same. */
  lemma SegmentationDoesNotMatter(e: EncodedPayload, segments: seq<Segment>)
    requires WellFormed(e.segments) && WellFormed(segments)
    requires Covered(e.segments, |e.segments|) && Covered(segments, |segments|)
    requires Carried(e.segments, |e.segments|) == Carried(segments, |segments|)
    ensures Decode(e.(segments := segments)) == Decode(e)
  {
    ExtractWellFormed(e.segments, Cast(e.etaLen + e.lamLen));
    ExtractWellFormed(segments, Cast(e.etaLen + e.lamLen));
    SameExtract(e, segments);
  }

  lemma SameExtract(e: EncodedPayload, segments: seq<Segment>)
    requires Extract(e.segments, Cast(e.etaLen + e.lamLen)) == Extract(segments, Cast(e.etaLen + e.lamLen))
    ensures Decode(e.(segments := segments)) == Decode(e)
  {
  }

  /** Words of one encoding, cut anywhere into well-formed segments, still decode to what was encoded. */
  lemma EncodedThenCut(d: DecodedPayload, segments: seq<Segment>)
    requires Encode(d).Ok? && |d.eta| + |d.lam| < TWO_32
    requires WellFormed(segments) && Covered(segments, |segments|)
    requires Carried(segments, |segments|) == d.eta + d.lam
    ensures Decode(Encode(d).value.(segments := segments)) == Decoded(d, |d.eta| + |d.lam|)
  {
    RoundTripIff(d);
    SingleCarried(d);
    SegmentationDoesNotMatter(Encode(d).value, segments);
  }

  lemma SingleCarried(d: DecodedPayload)
    requires Encode(d).Ok? && |d.eta| + |d.lam| < TWO_32
    ensures WellFormed(Encode(d).value.segments) && Covered(Encode(d).value.segments, 1)
    ensures |Encode(d).value.segments| == 1 && Carried(Encode(d).value.segments, 1) == d.eta + d.lam
  {
    EncodedHeader(d);
    CastSmall(|d.eta|, |d.lam|);
    CarriedOne(Segment(0, 1, |d.eta + d.lam|, d.eta + d.lam));
  }

  lemma CarriedOne(x: Segment)
    requires x.payloadWords == |x.words|
    ensures Carried([x], 1) == x.words
  {
    assert Carried([x], 0) == [];
    assert x.words[..|x.words|] == x.words;
  }

  /** dim + dim * (dim + 1) / 2, without wrapping. */
  function PayloadLength(dim: U32): nat {
    dim + dim * (dim + 1) / 2
  }

  lemma SmallDim(dim: U32)
    requires dim * (dim + 1) < TWO_32
    ensures dim + 1 < TWO_32 && ExpectedLamLen(dim) == dim * (dim + 1) / 2
    ensures dim < 0x1_0000 && PayloadLength(dim) < TWO_32
  {
    var p := dim * (dim + 1);
    MulBound(dim, dim + 1);
    DivModIs(p, TWO_32, 0, p);
    DivModIs(dim + 1, TWO_32, 0, dim + 1);
    MulBound(dim - 0xFFFF, dim + 1);
    assert p == 0xFFFF * (dim + 1) + (dim - 0xFFFF) * (dim + 1);
  }

  lemma DecodedFacts(e: EncodedPayload)
    requires Decode(e).Decoded?
    ensures e.etaLen == e.dim && e.lamLen == ExpectedLamLen(e.dim) && e.dim > 0
    ensures Cast(Declared(e.segments, SegmentCount(e.segments))) == Cast(e.etaLen + e.lamLen)
  {
    assert Extract(e.segments, Cast(e.etaLen + e.lamLen)).Ok?;
  }

  /** When decoding succeeds and dim * (dim + 1) fits in 32 bits, the lengths the segments declare
      add up to dim + dim * (dim + 1) / 2 exactly when their sum fits in 32 bits. */
  lemma DeclaredSumIff(e: EncodedPayload)
    requires Decode(e).Decoded? && e.dim * (e.dim + 1) < TWO_32
    ensures
      var declared := Declared(e.segments, SegmentCount(e.segments));
      declared == PayloadLength(e.dim) <==> declared < TWO_32
  {
    DecodedFacts(e);
    SumIff(e.dim, Declared(e.segments, SegmentCount(e.segments)));
  }

  lemma SumIff(dim: U32, declared: nat)
    requires dim * (dim + 1) < TWO_32 && Cast(declared) == Cast(dim + ExpectedLamLen(dim))
    ensures declared == PayloadLength(dim) <==> declared < TWO_32
  {
    SmallDim(dim);
    CastFits(declared, PayloadLength(dim));
  }

  lemma CastFits(declared: nat, x: nat)
    requires Cast(declared) == Cast(x) && x < TWO_32
    ensures declared == x <==> declared < TWO_32
  {
    DivModIs(x, TWO_32, 0, x);
    if declared < TWO_32 {
      DivModIs(declared, TWO_32, 0, declared);
    }
  }

  // ---- where the 32-bit arithmetic is not enough ----

  /** Every check of decode lets e through. */
  predicate Accepted(e: EncodedPayload) {
    && HeaderError(e.schemaVersion, e.bank, e.slot, e.direction).Ok?
    && ShapeError(e.dim, e.etaLen, e.lamLen).Ok?
    && var extracted := Extract(e.segments, Cast(e.etaLen + e.lamLen));
    && extracted.Ok? && WordsError(extracted.value).Ok?
  }

  /** Decoding what the checks let through reads past the end of the extracted words exactly when
      the sum of the two lengths wraps, and otherwise succeeds. */
  lemma ReadsOutOfBoundsIff(e: EncodedPayload)
    ensures Decode(e).Undefined? <==> Accepted(e) && e.etaLen + e.lamLen >= TWO_32
    ensures Decode(e).Decoded? <==> Accepted(e) && e.etaLen + e.lamLen < TWO_32
  {
    SumWraps(e.etaLen, e.lamLen);
  }

  lemma SumWraps(a: U32, b: U32)
    ensures Cast(a + b) == a + b <==> a + b < TWO_32
    ensures a + b >= TWO_32 ==> Cast(a + b) < a
  {
    DivModIs(a + b, TWO_32, if a + b < TWO_32 then 0 else 1, if a + b < TWO_32 then a + b else a + b - TWO_32);
  }

  /** Dimensions up to 2^31 rule it out. */
  lemma HalfRangeStaysInBounds(e: EncodedPayload)
    requires e.dim <= 0x8000_0000
    ensures !Decode(e).Undefined?
  {
    ReadsOutOfBoundsIff(e);
    assert ExpectedLamLen(e.dim) < 0x8000_0000;
  }

  const ONE: U32 := 0x3F80_0000

  function Ones(n: nat): (w: seq<U32>)
    ensures |w| == n && forall i :: 0 <= i < n ==> w[i] == ONE
  {
    seq(n, _ => ONE)
  }

  /** Two words pass every check, and the loop over eta then asks for 0xFFFFFFFC of them. */
  lemma ReadsOutOfBounds()
    ensures
      var e := EncodedPayload(1, 4, 0, FactorToVar, 0xFFFF_FFFC, 0xFFFF_FFFC, 6, [Segment(0, 1, 2, Ones(2))]);
      Decode(e).Undefined?
  {
    var e := EncodedPayload(1, 4, 0, FactorToVar, 0xFFFF_FFFC, 0xFFFF_FFFC, 6, [Segment(0, 1, 2, Ones(2))]);
    var words := Ones(2);
    ExtractSingle(words, 2);
    assert words[..2] == words && words[0] == ONE && words[1] == ONE;
    assert ExpectedLamLen(0xFFFF_FFFC) == 6;
    ReadsOutOfBoundsIff(e);
  }

  /** A payload of 2^32 words: it encodes, and does not decode. */
  lemma RoundTripFails()
    ensures
      var d := DecodedPayload(1, 4, 0, FactorToVar, 0xFFFF_FFFD, Ones(0xFFFF_FFFD), Ones(3));
      Encode(d).Ok? && Decode(Encode(d).value) == Rejected(InvalidZeroPayload)
  {
    var d := DecodedPayload(1, 4, 0, FactorToVar, 0xFFFF_FFFD, Ones(0xFFFF_FFFD), Ones(3));
    var words := d.eta + d.lam;
    assert words[0] == ONE && forall i :: 0 <= i < |words| ==> words[i] == ONE;
    assert ExpectedLamLen(0xFFFF_FFFD) == 3;
    EncodedHeader(d);
    ExtractSingle(words, 0);
    assert words[..0] == [];
  }

  lemma TwoSegments(x: Segment, y: Segment)
    requires x.payloadWords <= |x.words| && y.payloadWords <= |y.words|
    ensures Declared([x, y], 2) == x.payloadWords + y.payloadWords
    ensures Carried([x, y], 2) == x.words[..x.payloadWords] + y.words[..y.payloadWords]
  {
    var s := [x, y];
    assert Declared(s, 0) == 0 && Carried(s, 0) == [];
    assert s[0] == x && s[1] == y;
    assert Declared(s, 1) == x.payloadWords;
    assert Carried(s, 1) == x.words[..x.payloadWords];
  }

  lemma ExtractTwo(x: Segment, y: Segment, required: U32)
    requires SegmentError(x, 0, 2).Ok? && SegmentError(y, 1, 2).Ok?
    requires Cast(x.payloadWords + y.payloadWords) == required
    ensures Extract([x, y], required) == Ok((x.words[..x.payloadWords] + y.words[..y.payloadWords])[..required])
  {
    var s := [x, y];
    TwoSegments(x, y);
    ExtractWellFormed(s, required);
  }

  /** Segments that declare 2^32 words too many: they decode. */
  lemma DeclaredLengthsWrap()
    ensures
      var x := Segment(0, 2, 0xFFFF_FFFF, Ones(0xFFFF_FFFF));
      var y := Segment(1, 2, 3, Ones(3));
      var e := EncodedPayload(1, 4, 0, FactorToVar, 1, 1, 1, [x, y]);
      Decode(e).Decoded? && Declared(e.segments, 2) == TWO_32 + PayloadLength(1)
  {
    var x := Segment(0, 2, 0xFFFF_FFFF, Ones(0xFFFF_FFFF));
    var y := Segment(1, 2, 3, Ones(3));
    TwoSegments(x, y);
    ExtractTwo(x, y, 2);
    var words := (x.words[..0xFFFF_FFFF] + y.words[..3])[..2];
    assert words[0] == ONE && words[1] == ONE;
  }
}
