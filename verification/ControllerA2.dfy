/** Candidate C1: the word arithmetic of controller A2, as an instance of the machine. */
module ControllerA2 {
  import opened Foundations
  import opened Words
  import opened CubeGeometry
  import opened Machine
  import opened Evaluation
  import opened Injection
  import KeySchedule
  import AmountMapper

  // ----- domain entry and moves -----

  /** The low five bits, as a diagonal slot. */
  function Low5(v: bv64): Slot {
    Low3(v) + (if v & 8 != 0 then 8 else 0) + (if v & 16 != 0 then 16 else 0)
  }

  function DiagonalSlots(c: ControllerState, domain: Domain, length: bv64): seq<Slot> {
    var dc := DomainCode(domain) as bv64;
    [Low5((c.feedback as bv64) ^ length ^ dc),
     Low5((c.transcript >> 13) + dc * 7),
     Low5((c.transcript >> 37) + dc * 11)]
  }

  function EnterWords(c: ControllerState, domain: Domain, length: bv64, d: seq<byte>): ControllerState {
    var turn := DomainCode(domain);
    var axis := XorTurnAdd16(c.axis, EnterPair(length, d), 5 + (turn & 7) as nat, EnteredAxisSum(c.transcript, domain));
    var amount := AddTurnXor(c.amount, EnterPairSum(length, d), 9 + ((turn >> 2) & 7) as nat,
      EnteredAmountMix(c.feedback, c.axis, domain));
    var feedback := XorTurnAdd32(c.feedback, EnterWord(domain, d), 11 + (turn & 15) as nat,
      EnteredFeedbackSum(axis, amount, length));
    var transcript := XorTurnAdd64(Xor64(c.transcript, length), Raised32(EnterWord(domain, d)), 17 + (turn & 31) as nat,
      EnteredTranscriptSum(axis, amount, feedback));
    ControllerState(axis, amount, feedback, transcript)
  }

  function EnterCode(domain: Domain): bv16 {
    Pair(DomainCode(domain), Rotl8(DomainCode(domain), 3))
  }

  function EnterPair(length: bv64, d: seq<byte>): bv16 {
    Spread(length) ^ Pair(Nth(d, 1), Nth(d, 0))
  }

  function EnterPairSum(length: bv64, d: seq<byte>): bv16 {
    Spread(length) + Pair(Nth(d, 2), Nth(d, 1))
  }

  /** The three diagonal bytes and the domain. */
  function EnterWord(domain: Domain, d: seq<byte>): bv32 {
    (Nth(d, 0) as bv32) | ((Nth(d, 1) as bv32) << 8) | ((Nth(d, 2) as bv32) << 16) | ((DomainCode(domain) as bv32) << 24)
  }

  function EnteredAxisSum(transcript: bv64, domain: Domain): bv16 {
    Low16(transcript) + EnterCode(domain)
  }

  function EnteredAmountMix(feedback: bv32, axis: bv16, domain: Domain): bv16 {
    HighHalf(feedback) ^ Rotl16(axis, 3) ^ (EnterCode(domain) + 0x2F6B)
  }

  function EnteredFeedbackSum(axis: bv16, amount: bv16, length: bv64): bv32 {
    (axis as bv32) * 269 + (amount as bv32) * 271 + Low32(length)
  }

  function EnteredTranscriptSum(axis: bv16, amount: bv16, feedback: bv32): bv64 {
    ((feedback as bv64) << 29) + ((axis as bv64) << 7) + (amount as bv64)
  }

  /** How far from the cursor three words point. */
  function Offsets(control: bv16, feedback: bv32, transcript: bv64, phase: Phase, domain: byte, lane: nat): (nat, nat, nat) {
    var (c0, c1) := (Byte16(control, 0), Byte16(control, 1));
    var (f0, f1) := (Byte32(feedback, lane), Byte32(feedback, lane + 1));
    var (t0, t1) := (Byte64(transcript, lane), Byte64(transcript, lane + 3));
    (c0 as nat + f0 as nat + t1 as nat + phase + 3 * lane,
     c1 as nat + f1 as nat + t0 as nat + 2 * phase + 5 * lane,
     (c0 >> 3) as nat + (c1 >> 2) as nat + (f0 >> 1) as nat + domain as nat + 3 * phase + 7 * lane)
  }

  /** The coordinate moved by (dx, dy, dz), wrapping around. */
  function Moved(c: Coord, d: (nat, nat, nat)): Coord {
    Coord((c.x + d.0) % 8, (c.y + d.1) % 8, (c.z + d.2) % 8)
  }

  function CoordFromWords(cursor: Coord, control: bv16, feedback: bv32, transcript: bv64, phase: Phase, domain: byte, lane: nat): Coord {
    Moved(cursor, Offsets(control, feedback, transcript, phase, domain, lane))
  }

  /** axis_coord_0, axis_coord_1, amount_coord_0, amount_coord_1. */
  function ProbeCoords(x: Context<ControllerState>): seq<Coord> {
    var (c, dc) := (x.injected, DomainCode(x.domain));
    [CoordFromWords(x.cursor, c.axis, c.feedback, c.transcript, x.phase, dc, 0),
     CoordFromWords(x.cursor, Rotl16(c.axis, 7), Rotl32(c.feedback, 11), Rotl64(c.transcript, 19), x.phase, dc, 3),
     CoordFromWords(x.cursor, c.amount, Rotl32(c.feedback, 17), Rotl64(c.transcript, 29), x.phase, dc, 5),
     CoordFromWords(x.cursor, Rotl16(c.amount, 9), Rotl32(c.feedback, 23), Rotl64(c.transcript, 41), x.phase, dc, 7)]
  }

  function AxisWord(x: Context<ControllerState>, probed: seq<byte>): bv16 {
    var (p0, p1) := (Nth(probed, 0), Nth(probed, 1));
    XorTurnAdd16(x.injected.axis, Pair(p0, p1), 1 + (x.phase + p0 as nat) % 16, AxisWordSum(x.injected.feedback, x.cursor, x.domain, x.phase))
  }

  function AxisWordSum(feedback: bv32, cursor: Coord, domain: Domain, phase: Phase): bv16 {
    Low16(feedback as bv64) + CoordinateWord(cursor) + Wrap16(DomainCode(domain) as nat * 193 + phase * 71)
  }

  function SecondAxis(x: Context<ControllerState>, probed: seq<byte>): bool {
    var axisBit := AxisBit(x.domain, x.phase, Nth(probed, 1), Byte64(x.injected.transcript, x.phase + 2));
    SelectorBit(Xor8(AxisData(AxisWord(x, probed), Nth(probed, 0), Nth(probed, 1)), Byte64(x.injected.transcript, x.phase)), axisBit,
      SelectorRest(x.injected.axis, x.injected.feedback, ControlBit(x.domain, x.phase, Nth(probed, 0)), axisBit))
  }

  function AxisData(word: bv16, p0: byte, p1: byte): byte {
    Byte16(word, 0) ^ Byte16(word, 1) ^ Rotl8(p0, 1) ^ Rotl8(p1, 5)
  }

  function AxisBit(domain: Domain, phase: Phase, p1: byte, transcribed: byte): (bit: nat)
    ensures bit < 8
  {
    (p1 as nat + transcribed as nat + phase + DomainCode(domain) as nat) % 8
  }

  function ControlBit(domain: Domain, phase: Phase, p0: byte): (bit: nat)
    ensures bit < 16
  {
    (p0 as nat + phase + DomainCode(domain) as nat) % 16
  }

  function SelectorBit(data: byte, axisBit: nat, rest: bv32): bool
    requires axisBit < 8
  {
    LowBit(Shifted(data, axisBit), rest)
  }

  /** The byte shifted right by `k` bits. */
  function Shifted(data: byte, k: nat): byte {
    if k == 0 then data else Shifted(data, k - 1) >> 1
  }

  function LowBit(data: byte, rest: bv32): bool {
    ((data as bv32) ^ rest) & 1 != 0
  }

  function SelectorRest(control: bv16, feedback: bv32, controlBit: nat, axisBit: nat): bv32
    requires controlBit < 16
  {
    ((control >> controlBit) as bv32) ^ (feedback >> ((axisBit + 11) % 32))
  }

  function AmountWord(x: Context<ControllerState>, axis: Axis, probed: seq<byte>): bv16 {
    AmountWordFrom(x.injected.axis, x.injected.amount, x.injected.feedback, Byte64(x.injected.transcript, x.phase + 4),
                   x.phase, x.domain, axis, probed)
  }

  function AmountWordFrom(control: bv16, amount: bv16, feedback: bv32, transcribed: byte,
                          phase: Phase, domain: Domain, axis: Axis, probed: seq<byte>): bv16 {
    AddTurnXor(amount, AmountWordPair(control, probed), AmountTurn(phase, Nth(probed, 3)),
      AmountWordMix(feedback, transcribed, domain, axis))
  }

  function AmountTurn(phase: Phase, p1: byte): nat {
    3 + (phase + p1 as nat) % 16
  }

  function AmountWordPair(control: bv16, probed: seq<byte>): bv16 {
    Pair(Nth(probed, 2), Nth(probed, 3)) + Rotl16(control, 5)
  }

  /** The byte in both halves of a word, by the multiplication with 0x101. */
  function Twice(b: byte): bv16 {
    (b as bv16) * 257
  }

  function AmountWordMix(feedback: bv32, transcribed: byte, domain: Domain, axis: Axis): bv16 {
    Xor16(Xor16(HighHalf(feedback), Twice(transcribed)), AmountCode(axis, domain))
  }

  function AmountCode(axis: Axis, domain: Domain): bv16 {
    Wrap16(AxisCode(axis) * 0x2D3B + DomainCode(domain) as nat * 0x013D)
  }

  function Xor16(a: bv16, b: bv16): bv16 {
    a ^ b
  }

  /** The 16-bit lane of the transcript that a phase reads. */
  function TranscriptLane(transcript: bv64, phase: nat): bv16 {
    LaneAt(transcript, phase % 4)
  }

  /** Lane `k`, reached by shifting one lane at a time. */
  function LaneAt(transcript: bv64, k: nat): bv16
    decreases k
  {
    if k == 0 then Low16(transcript) else LaneAt(transcript >> 16, k - 1)
  }

  function SeedNumber(word: bv16): AmountMapper.Seed {
    AmountMapper.Join((Byte16(word, 1), Byte16(word, 0)))
  }

  function TurnedPack(cursor: Coord, axis: Axis, probed: seq<byte>): bv16 {
    Rotl16(Pair(Nth(probed, 2), Nth(probed, 3)) + CoordinateWord(cursor), 7 + AxisCode(axis))
  }

  function PermutationSeed(x: Context<ControllerState>, axis: Axis, probed: seq<byte>): AmountMapper.Seed {
    SeedNumber(Xor16(Xor16(AmountWord(x, axis, probed), TurnedPack(x.cursor, axis, probed)),
                     TranscriptLane(x.injected.transcript, x.phase)))
  }

  /** The slot before 7 is folded away. */
  function RawSlot(x: Context<ControllerState>, axis: Axis, probed: seq<byte>): (slot: nat)
    ensures slot < 8
  {
    SlotOf(AmountWord(x, axis, probed), SlotMask(x.injected.amount, x.injected.feedback, x.phase, probed))
  }

  function SlotOf(word: bv16, mask: bv16): (slot: nat)
    ensures slot < 8
  {
    Low3((word ^ mask) as bv64)
  }

  function SlotMask(amount: bv16, feedback: bv32, phase: Phase, probed: seq<byte>): bv16 {
    Rotl16(amount, Nth(probed, 2) as nat % 16) ^ Twice(Nth(probed, 3))
    ^ Low16((feedback >> (phase % 2 * 16)) as bv64)
  }

  function FoldedSlot(x: Context<ControllerState>, axis: Axis, probed: seq<byte>): (slot: nat)
    ensures slot < 7
  {
    (Nth(probed, 2) as nat + Rotl8(Nth(probed, 3), 3) as nat + Byte64(x.injected.transcript, x.phase + 6) as nat
     + AxisCode(axis) + x.phase) % 7
  }

  function AmountSlot(x: Context<ControllerState>, axis: Axis, probed: seq<byte>): (slot: nat)
    ensures slot < 7
  {
    var slot := RawSlot(x, axis, probed);
    if slot == 7 then FoldedSlot(x, axis, probed) else slot
  }

  function ChooseAmount(x: Context<ControllerState>, axis: Axis, probed: seq<byte>, scanned: seq<byte>): Amount {
    var seed := PermutationSeed(x, axis, probed);
    AmountMapper.AmountOrderIsPermutation(seed);
    AmountMapper.AmountOrder(seed)[AmountSlot(x, axis, probed)]
  }

  /** The first `n` rounds of the positional line feedback. */
  function LineFeedback(e: Effect, phase: Phase, n: nat): bv32
    requires n <= 8
  {
    if n == 0 then LineStart(e, phase) else LineRound(e, phase, LineFeedback(e, phase, n - 1), n - 1)
  }

  function LinePartner(e: Effect, phase: Phase, i: nat): nat {
    (i + e.decision.amount + AxisCode(e.decision.axis) + phase) % 8
  }

  function LaneWord(before: byte, after: byte, position: bv16): bv32 {
    (before as bv32) | ((after as bv32) << 8) | ((position as bv32) << 16)
  }

  function OffsetWord(lane: bv32, weight: bv16, turn: nat): bv32 {
    Rotl32(lane + 0x0101_0101 * (weight as bv32), turn)
  }

  function StartWord(cursor: bv16, axis: bv32, amount: bv32, phase: bv32): bv32 {
    (cursor as bv32) | (axis << 16) | (amount << 20) | (phase << 24)
  }

  function LineLane(e: Effect, phase: Phase, i: nat): bv32 {
    var partner := LinePartner(e, phase, i);
    LaneWord(Nth(e.lineBefore, i), Nth(e.lineAfter, partner), Wrap16(i * 29 + partner * 17))
  }

  function LineOffset(e: Effect, phase: Phase, i: nat): bv32 {
    OffsetWord(LineLane(e, phase, i), Wrap16(i + 1), 1 + LinePartner(e, phase, i))
  }

  /** What round `i` makes of the value so far. */
  function LineRound(e: Effect, phase: Phase, value: bv32, i: nat): bv32 {
    XorTurnAdd32(value, LineLane(e, phase, i), 3 + i + e.decision.amount, LineOffset(e, phase, i))
  }

  function LineStart(e: Effect, phase: Phase): bv32 {
    StartWord(CoordinateWord(e.cursorAfter), Bits(AxisCode(e.decision.axis)), Bits(e.decision.amount), Bits(phase))
  }

  function Bits(n: nat): bv32
    requires n < 256
  {
    n as bv32
  }

  /** The loop over the eight positions. */
  method PositionalLineFeedback(e: Effect, phase: Phase) returns (value: bv32)
    ensures value == LineFeedback(e, phase, 8)
  {
    hide LineRound, LineStart;
    value := LineStart(e, phase);
    for i := 0 to 8
      invariant value == LineFeedback(e, phase, i)
    {
      value := LineRound(e, phase, value, i);
    }
  }

  /** Two effects of the same decision on the same line contents. */
  predicate SameLines(e: Effect, f: Effect) {
    e.decision == f.decision && e.lineBefore == f.lineBefore && e.lineAfter == f.lineAfter
  }

  lemma LineRoundSeparates(e: Effect, f: Effect, phase: Phase, v: bv32, w: bv32, i: nat)
    requires SameLines(e, f)
    ensures LineRound(e, phase, v, i) == LineRound(f, phase, w, i) <==> v == w
  {
    SameRound(e, f, phase, i);
    hide XorTurnAdd32, LineLane, LineOffset;
    RoundSeparates32(v, w, LineLane(e, phase, i), 3 + i + e.decision.amount, LineOffset(e, phase, i));
  }

  lemma SameRound(e: Effect, f: Effect, phase: Phase, i: nat)
    requires SameLines(e, f)
    ensures LineLane(e, phase, i) == LineLane(f, phase, i) && LineOffset(e, phase, i) == LineOffset(f, phase, i)
  {
    hide LaneWord, OffsetWord, Wrap16, AxisCode, Nth;
  }

  lemma {:induction false} LineFoldSeparates(e: Effect, f: Effect, phase: Phase, n: nat)
    requires n <= 8 && SameLines(e, f)
    ensures LineFeedback(e, phase, n) == LineFeedback(f, phase, n) <==> LineStart(e, phase) == LineStart(f, phase)
  {
    hide LineRound, LineStart, SameLines;
    if n == 0 {
    } else {
      LineFoldSeparates(e, f, phase, n - 1);
      LineRoundSeparates(e, f, phase, LineFeedback(e, phase, n - 1), LineFeedback(f, phase, n - 1), n - 1);
    }
  }

  lemma LowWordKept(p: bv16, q: bv16, a: bv32, m: bv32, h: bv32)
    ensures StartWord(p, a, m, h) == StartWord(q, a, m, h) <==> p == q
  {
  }

  /** On equal lines and decisions the feedback separates cursors: it is equal exactly for one cursor. */
  lemma LineFeedbackSeparates(e: Effect, f: Effect, phase: Phase)
    requires SameLines(e, f)
    ensures LineFeedback(e, phase, 8) == LineFeedback(f, phase, 8) <==> e.cursorAfter == f.cursorAfter
  {
    LineFoldSeparates(e, f, phase, 8);
    StartSeparates(e, f, phase);
    hide *;
  }

  lemma StartSeparates(e: Effect, f: Effect, phase: Phase)
    requires SameLines(e, f)
    ensures LineStart(e, phase) == LineStart(f, phase) <==> e.cursorAfter == f.cursorAfter
  {
    hide StartWord, CoordinateWord, AxisCode, Bits;
    LowWordKept(CoordinateWord(e.cursorAfter), CoordinateWord(f.cursorAfter),
                Bits(AxisCode(e.decision.axis)), Bits(e.decision.amount), Bits(phase));
    CoordinateWordIsInjective(e.cursorAfter, f.cursorAfter);
  }

  lemma CoordinateWordIsInjective(c: Coord, d: Coord)
    ensures CoordinateWord(c) == CoordinateWord(d) ==> c == d
  {
    DigitWord(c.x, d.x);
    DigitWord(c.y, d.y);
    DigitWord(c.z, d.z);
    ThreeDigits(c.x as bv16, c.y as bv16, c.z as bv16, d.x as bv16, d.y as bv16, d.z as bv16);
  }

  lemma DigitWord(a: Digit, b: Digit)
    ensures a as bv16 < 8
    ensures a as bv16 == b as bv16 ==> a == b
  {
    assert a == 0 || a == 1 || a == 2 || a == 3 || a == 4 || a == 5 || a == 6 || a == 7;
    assert b == 0 || b == 1 || b == 2 || b == 3 || b == 4 || b == 5 || b == 6 || b == 7;
  }

  lemma ThreeDigits(x: bv16, y: bv16, z: bv16, u: bv16, v: bv16, w: bv16)
    requires x < 8 && y < 8 && z < 8 && u < 8 && v < 8 && w < 8
    ensures ((x << 10) | (y << 5) | z) == ((u << 10) | (v << 5) | w) ==> x == u && y == v && z == w
  {
  }

  function EventSymbol(x: Context<ControllerState>): bv16 {
    Pair(x.symbol, Wrap8(x.phase) ^ DomainCode(x.domain))
  }

  function EventAt(x: Context<ControllerState>, e: Effect): bv32 {
    JoinedWords(EventSymbol(x), CoordinateWord(e.cursorAfter))
  }

  function NextFeedback(x: Context<ControllerState>, e: Effect, line: bv32): bv32 {
    XorTurnAdd32(line, FeedbackInput(x, e), 5 + e.decision.amount + AxisCode(e.decision.axis), FeedbackSum(x, e))
  }

  function FeedbackInput(x: Context<ControllerState>, e: Effect): bv32 {
    x.injected.feedback ^ EventAt(x, e)
  }

  function FeedbackSum(x: Context<ControllerState>, e: Effect): bv32 {
    (AxisWord(x, e.probed) as bv32) * 277 + (AmountWord(x, e.decision.axis, e.probed) as bv32) * 281
    + (Nth(e.probedAfter, 1) as bv32) * 0x0101_0101 + (Nth(e.probedAfter, 3) as bv32) * 0x0001_0001
  }

  function NextAxisWord(x: Context<ControllerState>, e: Effect, feedback: bv32): bv16 {
    AddTurnXor(Low16(feedback as bv64), AxisInput(x, e), 3 + e.decision.amount, AxisMix(x, e))
  }

  function AxisInput(x: Context<ControllerState>, e: Effect): bv16 {
    x.injected.axis + AxisWord(x, e.probed)
  }

  function AxisMix(x: Context<ControllerState>, e: Effect): bv16 {
    Rotl16(x.injected.amount, 5 + AxisCode(e.decision.axis)) ^ Twice(Nth(e.probedAfter, 1)) ^ EventSymbol(x)
  }

  function NextAmountWord(x: Context<ControllerState>, e: Effect, feedback: bv32): bv16 {
    XorTurnAdd16(HighHalf(feedback), AmountInput(x, e), 7 + AxisCode(e.decision.axis) + x.phase, AmountSum(x, e))
  }

  function HighHalf(v: bv32): bv16 {
    Low16((v >> 16) as bv64)
  }

  function AmountInput(x: Context<ControllerState>, e: Effect): bv16 {
    x.injected.amount ^ AmountWord(x, e.decision.axis, e.probed)
  }

  function AmountSum(x: Context<ControllerState>, e: Effect): bv16 {
    Rotl16(x.injected.axis, 9 + e.decision.amount) + Twice(Nth(e.probedAfter, 3))
    + (CoordinateWord(e.cursorAfter) ^ EventSymbol(x))
  }

  /** The line feedback below the event of the move. */
  function MoveWord(line: bv32, event: bv32): bv64 {
    (line as bv64) | ((event as bv64) << 32)
  }

  function TranscriptMix(p0: byte, p2: byte, axis: bv16, amount: bv16, feedback: bv32): bv64 {
    Rotl64(((feedback as bv64) << 16) | (axis as bv64), 29) + (amount as bv64) * 0x0001_0001_0001_0001
      + ((p0 as bv64) << 7) + ((p2 as bv64) << 47)
  }

  function NextTranscript(x: Context<ControllerState>, e: Effect, line: bv32, axis: bv16, amount: bv16, feedback: bv32): bv64 {
    XorTurnAdd64(MoveWord(line, EventAt(x, e)), x.injected.transcript, 13 + e.decision.amount + 7 * AxisCode(e.decision.axis),
      TranscriptMix(Nth(e.probed, 0), Nth(e.probed, 2), axis, amount, feedback))
  }

  function UpdatedWith(x: Context<ControllerState>, e: Effect, line: bv32): ControllerState {
    var feedback := NextFeedback(x, e, line);
    var axis, amount := NextAxisWord(x, e, feedback), NextAmountWord(x, e, feedback);
    ControllerState(axis, amount, feedback, NextTranscript(x, e, line, axis, amount, feedback))
  }

  function UpdateWords(x: Context<ControllerState>, e: Effect): ControllerState {
    UpdatedWith(x, e, LineFeedback(e, x.phase, 8))
  }

  /** The controller after a move, with its line feedback computed by the loop. */
  method NextController(x: Context<ControllerState>, e: Effect) returns (next: ControllerState)
    ensures next == C1().update(x, e)
  {
    hide UpdatedWith, LineFeedback;
    var line := PositionalLineFeedback(e, x.phase);
    next := UpdatedWith(x, e, line);
  }

  // ----- return pass -----

  function MixedWords(c: ControllerState, cursor: bv16, index: bv64): bv64 {
    XorAll(c.transcript, Raised32(c.feedback), Raised16(c.axis, false), Raised16(c.amount, true), (cursor as bv64) << 49, index)
  }

  function XorAll(a: bv64, b: bv64, c: bv64, d: bv64, e: bv64, f: bv64): bv64 {
    Xor64(Xor64(Xor64(Xor64(Xor64(a, b), c), d), e), f)
  }

  function Xor64(a: bv64, b: bv64): bv64 {
    a ^ b
  }

  function Raised32(v: bv32): bv64 {
    (v as bv64) << 17
  }

  function Raised16(v: bv16, high: bool): bv64 {
    if high then (v as bv64) << 33 else (v as bv64) << 1
  }

  function FingerprintStart(s: State<ControllerState>): bv64 {
    MixedWords(s.controller, CoordinateWord(s.cursor), Wrap64(s.symbolIndex))
  }

  function FingerprintRound(value: bv64, cell: byte, i: nat): bv64 {
    XorTurnAdd64(value, (cell as bv64) ^ Wrap64(i * 131), 1 + i % 32, (cell as bv64) * Wrap64(257 + 2 * i))
  }

  function FingerprintTo(s: State<ControllerState>, n: nat): bv64
    requires n <= CELLS
  {
    if n == 0 then FingerprintStart(s) else FingerprintRound(FingerprintTo(s, n - 1), s.cells[n - 1], n - 1)
  }

  /** The loop over the 512 cells. */
  method StateFingerprint(s: State<ControllerState>) returns (value: bv64)
    ensures value == FingerprintTo(s, CELLS)
  {
    hide FingerprintRound, FingerprintStart;
    value := FingerprintStart(s);
    for i := 0 to CELLS
      invariant value == FingerprintTo(s, i)
    {
      value := FingerprintRound(value, s.cells[i], i);
    }
  }

  lemma FingerprintRoundSeparates(v: bv64, w: bv64, cell: byte, i: nat)
    ensures FingerprintRound(v, cell, i) == FingerprintRound(w, cell, i) <==> v == w
  {
    hide XorTurnAdd64, Wrap64;
    RoundSeparates64(v, w, (cell as bv64) ^ Wrap64(i * 131), 1 + i % 32, (cell as bv64) * Wrap64(257 + 2 * i));
  }

  lemma {:induction false} CellFoldSeparates(a: State<ControllerState>, b: State<ControllerState>, n: nat)
    requires n <= CELLS && a.cells == b.cells
    ensures FingerprintTo(a, n) == FingerprintTo(b, n) <==> FingerprintStart(a) == FingerprintStart(b)
  {
    hide FingerprintRound, FingerprintStart;
    if n == 0 {
    } else {
      CellFoldSeparates(a, b, n - 1);
      FingerprintRoundSeparates(FingerprintTo(a, n - 1), FingerprintTo(b, n - 1), a.cells[n - 1], n - 1);
    }
  }

  /** The two controllers differ in exactly one of their four words. */
  predicate OneWordDiffers(c: ControllerState, d: ControllerState) {
    || (c.axis != d.axis && c == d.(axis := c.axis))
    || (c.amount != d.amount && c == d.(amount := c.amount))
    || (c.feedback != d.feedback && c == d.(feedback := c.feedback))
    || (c.transcript != d.transcript && c == d.(transcript := c.transcript))
  }

  lemma RaisedKeeps32(v: bv32, w: bv32)
    ensures Raised32(v) == Raised32(w) ==> v == w
  {
  }

  lemma RaisedKeeps16(v: bv16, w: bv16, high: bool)
    ensures Raised16(v, high) == Raised16(w, high) ==> v == w
  {
  }

  lemma UnXor(v: bv64, w: bv64, x: bv64)
    ensures Xor64(v, x) == Xor64(w, x) <==> v == w
    ensures Xor64(x, v) == Xor64(x, w) <==> v == w
  {
    XorBack64(v, x);
    XorBack64(w, x);
    hide Xor64;
  }

  lemma XorBack64(v: bv64, x: bv64)
    ensures Xor64(Xor64(v, x), x) == v
    ensures Xor64(x, v) == Xor64(v, x)
  {
    TakeXor64(v, x, Xor64(v, x));
  }

  lemma UnXorAll(v: bv64, w: bv64, d: bv64, e: bv64, f: bv64)
    ensures Xor64(Xor64(Xor64(v, d), e), f) == Xor64(Xor64(Xor64(w, d), e), f) <==> v == w
  {
    hide *;
    UnXor(Xor64(Xor64(v, d), e), Xor64(Xor64(w, d), e), f);
    UnXor(Xor64(v, d), Xor64(w, d), e);
    UnXor(v, w, d);
  }

  lemma FirstWordShows(a: bv64, b: bv64, c: bv64, d: bv64, e: bv64, f: bv64, x: bv64)
    requires x != a
    ensures XorAll(x, b, c, d, e, f) != XorAll(a, b, c, d, e, f)
  {
    hide Xor64;
    UnXorAll(Xor64(Xor64(x, b), c), Xor64(Xor64(a, b), c), d, e, f);
    UnXor(Xor64(x, b), Xor64(a, b), c);
    UnXor(x, a, b);
  }

  lemma SecondWordShows(a: bv64, b: bv64, c: bv64, d: bv64, e: bv64, f: bv64, x: bv64)
    requires x != b
    ensures XorAll(a, x, c, d, e, f) != XorAll(a, b, c, d, e, f)
  {
    hide Xor64;
    UnXorAll(Xor64(Xor64(a, x), c), Xor64(Xor64(a, b), c), d, e, f);
    UnXor(Xor64(a, x), Xor64(a, b), c);
    UnXor(x, b, a);
  }

  lemma ThirdWordShows(a: bv64, b: bv64, c: bv64, d: bv64, e: bv64, f: bv64, x: bv64)
    requires x != c
    ensures XorAll(a, b, x, d, e, f) != XorAll(a, b, c, d, e, f)
  {
    hide Xor64;
    UnXorAll(Xor64(Xor64(a, b), x), Xor64(Xor64(a, b), c), d, e, f);
    UnXor(x, c, Xor64(a, b));
  }

  lemma FourthWordShows(a: bv64, b: bv64, c: bv64, d: bv64, e: bv64, f: bv64, x: bv64)
    requires x != d
    ensures XorAll(a, b, c, x, e, f) != XorAll(a, b, c, d, e, f)
  {
    hide Xor64;
    var front := Xor64(Xor64(a, b), c);
    UnXor(Xor64(Xor64(front, x), e), Xor64(Xor64(front, d), e), f);
    UnXor(Xor64(front, x), Xor64(front, d), e);
    UnXor(x, d, front);
  }

  lemma OneWordShows(c: ControllerState, d: ControllerState, cursor: bv16, index: bv64)
    requires OneWordDiffers(c, d)
    ensures MixedWords(c, cursor, index) != MixedWords(d, cursor, index)
  {
    hide XorAll, Raised16, Raised32;
    var (t, f, a, m) := (d.transcript, Raised32(d.feedback), Raised16(d.axis, false), Raised16(d.amount, true));
    var e := (cursor as bv64) << 49;
    if c.transcript != d.transcript {
      FirstWordShows(t, f, a, m, e, index, c.transcript);
    } else if c.feedback != d.feedback {
      RaisedKeeps32(c.feedback, d.feedback);
      SecondWordShows(t, f, a, m, e, index, Raised32(c.feedback));
    } else if c.axis != d.axis {
      RaisedKeeps16(c.axis, d.axis, false);
      ThirdWordShows(t, f, a, m, e, index, Raised16(c.axis, false));
    } else {
      RaisedKeeps16(c.amount, d.amount, true);
      FourthWordShows(t, f, a, m, e, index, Raised16(c.amount, true));
    }
  }

  /** Over equal cells the fingerprint loses nothing of the words it starts from; in particular a change of
      any one controller word changes it. */
  lemma FingerprintSeparates(a: State<ControllerState>, b: State<ControllerState>)
    requires a.cells == b.cells
    ensures FingerprintTo(a, CELLS) == FingerprintTo(b, CELLS) <==> FingerprintStart(a) == FingerprintStart(b)
    ensures a.cursor == b.cursor && a.symbolIndex == b.symbolIndex && OneWordDiffers(a.controller, b.controller) ==>
              FingerprintTo(a, CELLS) != FingerprintTo(b, CELLS)
  {
    hide FingerprintTo, CoordinateWord, Wrap64, OneWordDiffers, MixedWords;
    CellFoldSeparates(a, b, CELLS);
    if OneWordDiffers(a.controller, b.controller) {
      OneWordShows(a.controller, b.controller, CoordinateWord(a.cursor), Wrap64(a.symbolIndex));
    }
  }

  /** So two snapshots that differ in one controller word enter the return pass with different boundaries. */
  lemma BoundarySeparates(a: State<ControllerState>, b: State<ControllerState>, length: u64)
    requires a.cells == b.cells && a.cursor == b.cursor && a.symbolIndex == b.symbolIndex
    requires OneWordDiffers(a.controller, b.controller)
    ensures Boundary(a, length) != Boundary(b, length)
  {
    hide FingerprintTo, Wrap64, Bound, OneWordDiffers, FingerprintStart;
    FingerprintSeparates(a, b);
    BoundKeeps(FingerprintTo(a, CELLS), FingerprintTo(b, CELLS), Wrap64(length), Wrap64(a.symbolIndex));
  }

  lemma BoundKeeps(v: bv64, w: bv64, length: bv64, index: bv64)
    ensures Bound(v, length, index) == Bound(w, length, index) <==> v == w
  {
    hide LengthWord, Xor64;
    UnXor(Xor64(v, LengthWord(length)), Xor64(w, LengthWord(length)), index);
    UnXor(v, w, LengthWord(length));
  }

  function Boundary(s: State<ControllerState>, length: u64): bv64 {
    Bound(FingerprintTo(s, CELLS), Wrap64(length), Wrap64(s.symbolIndex))
  }

  function Bound(fingerprint: bv64, length: bv64, index: bv64): bv64 {
    Xor64(Xor64(fingerprint, LengthWord(length)), index)
  }

  function LengthWord(length: bv64): bv64 {
    length * 0x9E37_79B1_85EB_CA87
  }

  /** The boundary of the return pass, with the fingerprint computed by the loop. */
  method ReturnBoundary(s: State<ControllerState>, length: u64) returns (boundary: bv64)
    ensures boundary == C1().boundary(s, length)
  {
    hide Bound, FingerprintTo;
    var fingerprint := StateFingerprint(s);
    boundary := Bound(fingerprint, Wrap64(length), Wrap64(s.symbolIndex));
  }

  function SelectorCoord(selector: bv64, index: nat, lane: nat): Coord {
    var mixed := Rotl64(selector + Wrap64(index + 1) * 0x9E37_79B1_85EB_CA87 + Wrap64(lane + 1) * 0xD134_2543_DE82_EF95,
                        index * 11 + lane * 17);
    Coord(Low3(mixed), Low3(mixed >> 21), Low3(mixed >> 43))
  }

  function ControllerBytes(c: ControllerState): (bytes: seq<byte>)
    ensures |bytes| == 16
  {
    [Byte16(c.axis, 0), Byte16(c.axis, 1), Byte16(c.amount, 0), Byte16(c.amount, 1),
     Byte32(c.feedback, 0), Byte32(c.feedback, 1), Byte32(c.feedback, 2), Byte32(c.feedback, 3),
     Byte64(c.transcript, 0), Byte64(c.transcript, 1), Byte64(c.transcript, 2), Byte64(c.transcript, 3),
     Byte64(c.transcript, 4), Byte64(c.transcript, 5), Byte64(c.transcript, 6), Byte64(c.transcript, 7)]
  }

  function InitSymbol(s: State<ControllerState>, length: u64, index: nat): byte {
    var (c0, c1) := (InitCoord(s, length, index, 0), InitCoord(s, length, index, 1));
    Xor8(InitMask(s.controller, s.previousAxis, c0, c1, length, index),
         Plus8(Cell(s.cells, c0), Rotl8(Cell(s.cells, c1), index + 3)))
  }

  /** The two cells an initial symbol is formed from. */
  function InitCoord(s: State<ControllerState>, length: u64, index: nat, lane: nat): Coord {
    var selector := InitSelector(s.controller, s.symbolIndex, length, index);
    SelectorCoord(if lane == 0 then selector else Rotl64(selector, 29), index, lane)
  }

  function InitSelector(c: ControllerState, symbolIndex: u64, length: u64, index: nat): bv64 {
    c.transcript ^ ((c.feedback as bv64) << 17) ^ ((c.axis as bv64) << 49) ^ ((c.amount as bv64) << 3)
    ^ Rotl64(Wrap64(length), index + 7) ^ Wrap64(symbolIndex)
  }

  function InitMask(c: ControllerState, previous: Axis, c0: Coord, c1: Coord, length: u64, index: nat): byte {
    var bytes := ControllerBytes(c);
    var geometry := Wrap8(c0.x * 3 + c0.y * 5 + c0.z * 7 + c1.x * 11 + c1.y * 13 + c1.z * 17 + AxisCode(previous) * 19);
    bytes[index % 16] ^ Rotl8(bytes[(index * 7 + 5) % 16], index) ^ Byte64(Wrap64(length), index)
      ^ geometry ^ Wrap8(index * 0x5B + 0xD3)
  }

  function ReturnedSymbol(snapshot: State<ControllerState>, current: State<ControllerState>, message: byte, length: u64, reverse: nat): byte {
    Xor8(message, ReturnMask(snapshot, current, length, reverse))
  }

  function ReturnMask(snapshot: State<ControllerState>, current: State<ControllerState>, length: u64, reverse: nat): byte {
    var probe := Cell(current.cells, ReturnCoord(snapshot.controller.transcript, current.controller, reverse));
    Xor8(Xor8(ControllerBytes(snapshot.controller)[(reverse * 5 + 3) % 16], Rotl8(probe, reverse)), ReturnTag(length, reverse))
  }

  function ReturnTag(length: u64, reverse: nat): byte {
    Byte64(Wrap64(length), reverse + 3) ^ Wrap8(reverse * 0x3D + 0xC6)
  }

  function ReturnCoord(snapshot: bv64, current: ControllerState, reverse: nat): Coord {
    var selector := current.transcript ^ Rotl64(snapshot, 23)
      ^ ((current.feedback as bv64) << 29) ^ (Wrap64(reverse) * 0xA076_1D64_78BD_642F);
    SelectorCoord(selector, reverse, 4)
  }

  function SealedSymbol(snapshot: State<ControllerState>, current: State<ControllerState>, length: u64, index: nat): byte {
    var probe := Cell(current.cells, SealCoord(snapshot.controller.transcript, current.controller.transcript, index));
    Xor8(Xor8(ControllerBytes(snapshot.controller)[(index * 3 + 1) % 16], ControllerBytes(current.controller)[(index * 11 + 7) % 16]),
         Xor8(probe, SealTag(length, index)))
  }

  function SealTag(length: u64, index: nat): byte {
    Byte64(Wrap64(length), index + 1) ^ Wrap8(index * 0x71 + 0x8B)
  }

  function SealCoord(before: bv64, after: bv64, index: nat): Coord {
    SelectorCoord(after ^ Rotl64(before, 41) ^ (Wrap64(index) * 0x8EBC_6AF0_9C88_C6E3), index, 6)
  }

  // ----- finalization -----

  function BindingSymbol(b: byte, length: u64, i: nat): byte {
    Xor8(b, BindingTag(length, i))
  }

  function BindingTag(length: u64, i: nat): byte {
    Byte64(Wrap64(length), i) ^ Wrap8(i * 29 + 0x53)
  }

  function OutputCoord(selector: bv64, round: nat, lane: nat): Coord {
    var mixed := Rotl64(selector + Wrap64(round + 1) * 0x9E37_79B1_85EB_CA87, lane * 13 + round);
    Coord(Low3(mixed), Low3(mixed >> 17), Low3(mixed >> 41))
  }

  function OutputCoords(c: ControllerState, round: nat): seq<Coord> {
    var selector := c.transcript ^ ((c.feedback as bv64) << 19) ^ ((c.axis as bv64) << 3) ^ ((c.amount as bv64) << 43);
    [OutputCoord(selector, round, 0), OutputCoord(Rotl64(selector, 23), round, 1), OutputCoord(Rotl64(selector, 47), round, 2)]
  }

  function OutputMix(c: ControllerState, round: nat, x: byte, y: byte, z: byte): byte {
    Sum3(CubeMix(x, Rotl8(y, round), Rotl8(z, round + 3)), ControllerMix(c, round), Wrap8(round * 37))
  }

  function CubeMix(x: byte, y: byte, z: byte): byte {
    (x + y) ^ z
  }

  function ControllerMix(c: ControllerState, round: nat): byte {
    Byte64(c.transcript, round) ^ Byte32(c.feedback, round + 1) ^ Byte16(c.axis, round) ^ Byte16(c.amount, round + 1)
  }

  function OutputByte(c: ControllerState, round: nat, cells: seq<byte>): byte {
    OutputMix(c, round, Nth(cells, 0), Nth(cells, 1), Nth(cells, 2))
  }

  function Echo(b: byte, round: nat): byte {
    b ^ Wrap8(round)
  }

  /** Candidate C1 as an instance of the machine. */
  function C1(): Mixing<ControllerState> {
    Mixing(
      DiagonalSlots, EnterWords, InjectSymbol, ProbeCoords, SecondAxis,
      (x: Context<ControllerState>, axis: Axis, probed: seq<byte>) => [],
      ChooseAmount, UpdateWords, ControllerBytes, BindingSymbol, OutputCoords, OutputByte, Echo,
      Boundary,
      (boundary: bv64, c: ControllerState) => boundary ^ Rotl64(c.transcript, 17),
      (boundary: bv64, c: ControllerState) => boundary ^ Rotl64(c.transcript, 43),
      InitSymbol, ReturnedSymbol, SealedSymbol)
  }

  function InitialController(cursor: Coord, d: seq<byte>, seed: bv64): ControllerState {
    var axis := Low16(seed) ^ Pair(0, Nth(d, 0)) ^ Pair(Nth(d, 9), 0) ^ 0x6D35;
    var amount := Low16(seed >> 16) ^ Pair(0, Nth(d, 17)) ^ Pair(Nth(d, 26), 0) ^ 0xB7E1;
    var feedback := Rotl32(Low32(seed) ^ 0xD1A5_6E2B, 9) + Rotl32(Low32(seed >> 32) ^ 0x3C8F_725D, 17)
      + (CoordinateWord(cursor) as bv32);
    var transcript := XorTurnAdd64(seed, 0x6B5D_39A7_C2E1_4F83, 19, InitialSum(axis, amount, feedback));
    ControllerState(axis, amount, feedback, transcript)
  }

  function InitialSum(axis: bv16, amount: bv16, feedback: bv32): bv64 {
    ((feedback as bv64) << 16) + (axis as bv64) + ((amount as bv64) << 48)
  }

  /** The research initial state over a starting cube, from its body diagonals and a 64-bit seed. */
  function InitialState(cells: Cells, seed: bv64): State<ControllerState> {
    var d := Diagonals(cells);
    var cursor := Coord(Low3(seed ^ (d[3] as bv64)), Low3((seed >> 11) ^ (d[12] as bv64)), Low3((seed >> 23) ^ (d[21] as bv64)));
    var remainder := (seed + (d[7] as bv64)) as nat % 3;
    var previous := if remainder == 0 then X else if remainder == 1 then Y else Z;
    State(cells, cursor, previous, InitialController(cursor, d, seed), 0)
  }

  const PUBLIC_BOOTSTRAP_SEED: bv64 := 0x5056_4331_5052_4631

  lemma C1Binding()
    ensures BindingWidth(C1(), 16)
  {
  }

  /** Candidate C1 on n bytes, from any starting state: it returns 32 bytes after exactly 704 + 16n
      moves and 2n + 72 counted symbols, keeps every cell value, and is undone by its trace. */
  lemma CandidateC1(c1: Mixing<ControllerState>, start: State<ControllerState>, key: KeySchedule.Key, message: Message)
    requires c1 == C1()
    ensures Completed(start, Evaluate(c1, start, key, message, DEFAULT_PROFILE), 704 + 16 * |message|, 2 * |message| + 72)
  {
    C1Binding();
    hide *;
    DefaultEvaluation(c1, start, key, message);
  }
}
