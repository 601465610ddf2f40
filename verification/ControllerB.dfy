/** Controller B: four ring lanes and a path word, with competitive scoring of axis and amount.

    It turns the same cube, so every theorem about the machine applies to it unchanged. */
module ControllerB {
  import opened Foundations
  import opened Words
  import opened CubeGeometry
  import opened Machine
  import opened Evaluation
  import opened Injection
  import A2 = ControllerA2
  import KeySchedule

  datatype ControllerStateB = ControllerStateB(lane0: bv32, lane1: bv32, lane2: bv32, lane3: bv32, path: bv64)

  // ----- mixing words -----

  function Xor32(a: bv32, b: bv32): bv32 {
    a ^ b
  }

  function Folded(x: bv32): bv32 {
    x ^ (x >> 13)
  }

  function Unfolded(x: bv32): bv32 {
    x ^ (x >> 13) ^ (x >> 26)
  }

  function Multiplied(x: bv32): bv32 {
    x * 0x85EB_CA6B
  }

  /** Multiplication by the inverse of the multiplier modulo 2^32. */
  function Divided(x: bv32): bv32 {
    x * 0xA5CB_9243
  }

  /** x ^ rotl(x, 7) ^ x>>16, the last step of the mixing word. */
  function Scatter(x: bv32): bv32 {
    Xor32(Xor32(x, Rotl32(x, 7)), Half(x))
  }

  function Half(x: bv32): bv32 {
    x >> 16
  }

  /** The mixing word before its last step. */
  function Head(a: bv32, b: bv32, c: bv32, rotation: nat): bv32 {
    var x0 := Rotl32(Plus32(Plus32(a, 0x9E37_79B9), c), rotation);
    var x1 := Xor32(x0, Rotl32(b + 0x7F4A_7C15, rotation + 11));
    var x2 := Plus32(x1, Rotl32(c ^ 0xD1B5_4A35, rotation + 19));
    Multiplied(Folded(x2))
  }

  function Mix32(a: bv32, b: bv32, c: bv32, rotation: nat): bv32 {
    Scatter(Head(a, b, c, rotation))
  }

  // ----- what the mixing word keeps of its first argument -----

  /** The first argument that gives `z` before the last step. */
  function Unhead(z: bv32, b: bv32, c: bv32, rotation: nat): bv32 {
    var x1 := Minus32(Unfolded(Divided(z)), Rotl32(c ^ 0xD1B5_4A35, rotation + 19));
    var x0 := Xor32(x1, Rotl32(b + 0x7F4A_7C15, rotation + 11));
    Minus32(Minus32(Rotr32(x0, rotation), c), 0x9E37_79B9)
  }

  lemma ProductBack(x: bv32)
    ensures Divided(x * 0x85EB_CA6B) == x
    ensures Multiplied(x * 0xA5CB_9243) == x
  {
  }

  lemma MultipliedBack(x: bv32)
    ensures Divided(Multiplied(x)) == x
  {
    ProductBack(x);
    hide Divided;
  }

  lemma DividedBack(x: bv32)
    ensures Multiplied(Divided(x)) == x
  {
    ProductBack(x);
    hide Multiplied;
  }

  lemma ShiftParts(x: bv32)
    ensures (x ^ (x >> 13)) >> 13 == (x >> 13) ^ (x >> 26)
    ensures (x ^ (x >> 13)) >> 26 == x >> 26
  {
  }

  lemma ShiftedParts(x: bv32)
    ensures (x ^ (x >> 13) ^ (x >> 26)) >> 13 == (x >> 13) ^ (x >> 26)
  {
  }

  lemma Telescopes(x: bv32, p: bv32, q: bv32)
    ensures (x ^ p) ^ (p ^ q) ^ q == x
    ensures (x ^ p ^ q) ^ (p ^ q) == x
  {
  }

  lemma FoldedBack(x: bv32)
    ensures Unfolded(Folded(x)) == x
  {
    ShiftParts(x);
    Telescopes(x, x >> 13, x >> 26);
  }

  lemma UnfoldedBack(x: bv32)
    ensures Folded(Unfolded(x)) == x
  {
    ShiftedParts(x);
    Telescopes(x, x >> 13, x >> 26);
  }

  lemma XorBack(a: bv32, b: bv32)
    ensures Xor32(Xor32(a, b), b) == a
  {
    TakeXor32(a, b, Xor32(a, b));
  }

  /** Before its last step the mixing word is a bijection of its first argument. */
  lemma HeadIsBijective(a: bv32, z: bv32, b: bv32, c: bv32, rotation: nat)
    ensures Unhead(Head(a, b, c, rotation), b, c, rotation) == a
    ensures Head(Unhead(z, b, c, rotation), b, c, rotation) == z
  {
    HeadBack(a, b, c, rotation);
    UnheadBack(z, b, c, rotation);
    hide *;
  }

  lemma HeadBack(a: bv32, b: bv32, c: bv32, rotation: nat)
    ensures Unhead(Head(a, b, c, rotation), b, c, rotation) == a
  {
    hide Plus32, Minus32, Rotl32, Rotr32, Xor32, Folded, Unfolded, Multiplied, Divided;
    var (m1, m2) := (Rotl32(b + 0x7F4A_7C15, rotation + 11), Rotl32(c ^ 0xD1B5_4A35, rotation + 19));
    var x0 := Rotl32(Plus32(Plus32(a, 0x9E37_79B9), c), rotation);
    var x2 := Plus32(Xor32(x0, m1), m2);
    MultipliedBack(Folded(x2));
    FoldedBack(x2);
    PlusMinus32(Xor32(x0, m1), m2);
    XorBack(x0, m1);
    Rotations32(Plus32(Plus32(a, 0x9E37_79B9), c), rotation);
    PlusMinus32(Plus32(a, 0x9E37_79B9), c);
    PlusMinus32(a, 0x9E37_79B9);
  }

  lemma UnheadBack(z: bv32, b: bv32, c: bv32, rotation: nat)
    ensures Head(Unhead(z, b, c, rotation), b, c, rotation) == z
  {
    hide Plus32, Minus32, Rotl32, Rotr32, Xor32, Folded, Unfolded, Multiplied, Divided;
    var (m1, m2) := (Rotl32(b + 0x7F4A_7C15, rotation + 11), Rotl32(c ^ 0xD1B5_4A35, rotation + 19));
    var x2 := Unfolded(Divided(z));
    var x0 := Xor32(Minus32(x2, m2), m1);
    MinusPlus32(Minus32(Rotr32(x0, rotation), c), 0x9E37_79B9);
    MinusPlus32(Rotr32(x0, rotation), c);
    Rotations32(x0, rotation);
    XorBack(Minus32(x2, m2), m1);
    MinusPlus32(x2, m2);
    UnfoldedBack(Divided(z));
    DividedBack(z);
  }

  /** The one nonzero word that the last step maps to zero. */
  const KERNEL: bv32 := 0xDDBB_7755

  lemma TurnStep(x: bv32, n: nat)
    ensures n == 0 ==> RotateLeft32(x, n) == x
    ensures n > 0 ==> RotateLeft32(x, n) == Left32(RotateLeft32(x, n - 1))
  {
  }

  lemma LeftSteps(x: bv32)
    ensures Left32(x) == (x << 1) | (x >> 31)
    ensures Left32((x << 1) | (x >> 31)) == (x << 2) | (x >> 30)
    ensures Left32((x << 2) | (x >> 30)) == (x << 3) | (x >> 29)
    ensures Left32((x << 3) | (x >> 29)) == (x << 4) | (x >> 28)
    ensures Left32((x << 4) | (x >> 28)) == (x << 5) | (x >> 27)
    ensures Left32((x << 5) | (x >> 27)) == (x << 6) | (x >> 26)
    ensures Left32((x << 6) | (x >> 26)) == (x << 7) | (x >> 25)
  {
  }

  function Turn7(x: bv32): bv32 {
    (x << 7) | (x >> 25)
  }

  lemma TurnBySeven(x: bv32)
    ensures Rotl32(x, 7) == Turn7(x)
  {
    LeftSteps(x);
    hide RotateLeft32, Left32;
    TurnStep(x, 0);
    TurnStep(x, 1);
    TurnStep(x, 2);
    TurnStep(x, 3);
    TurnStep(x, 4);
    TurnStep(x, 5);
    TurnStep(x, 6);
    TurnStep(x, 7);
  }

  lemma KernelOfScatter(d: bv32)
    requires d ^ ((d << 7) | (d >> 25)) ^ (d >> 16) == 0
    ensures d == 0 || d == 0xDDBB_7755
  {
  }

  lemma PartsAreLinear(x: bv32, y: bv32)
    ensures Turn7(Xor32(x, y)) == Xor32(Turn7(x), Turn7(y))
    ensures Half(Xor32(x, y)) == Xor32(Half(x), Half(y))
  {
  }

  lemma XorAssociates(a: bv32, b: bv32, c: bv32)
    ensures Xor32(Xor32(a, b), c) == Xor32(a, Xor32(b, c))
  {
  }

  lemma XorCommutes(a: bv32, b: bv32)
    ensures Xor32(a, b) == Xor32(b, a)
  {
  }

  lemma Crossed(a: bv32, b: bv32, c: bv32, d: bv32)
    ensures Xor32(Xor32(a, b), Xor32(c, d)) == Xor32(Xor32(a, c), Xor32(b, d))
  {
    hide *;
    XorAssociates(a, b, Xor32(c, d));
    XorAssociates(b, c, d);
    XorCommutes(b, c);
    XorAssociates(c, b, d);
    XorAssociates(a, c, Xor32(b, d));
  }

  lemma SixWords(x: bv32, p: bv32, h: bv32, y: bv32, q: bv32, k: bv32)
    ensures Xor32(Xor32(x, p), h) == Xor32(Xor32(y, q), k) <==>
            Xor32(Xor32(Xor32(x, y), Xor32(p, q)), Xor32(h, k)) == 0
  {
    hide *;
    Crossed(x, y, p, q);
    Crossed(Xor32(x, p), Xor32(y, q), h, k);
    XorIsZero(Xor32(Xor32(x, p), h), Xor32(Xor32(y, q), k));
  }

  lemma ZeroOrKernel(d: bv32)
    ensures Xor32(Xor32(d, Turn7(d)), Half(d)) == 0 <==> d == 0 || d == KERNEL
  {
    if Xor32(Xor32(d, Turn7(d)), Half(d)) == 0 { KernelOfScatter(d); }
  }

  lemma XorZero(x: bv32)
    ensures Xor32(x, 0) == x && Xor32(x, x) == 0
  {
  }

  lemma XorIsZero(x: bv32, y: bv32)
    ensures Xor32(x, y) == 0 <==> x == y
  {
    if Xor32(x, y) == 0 { XorMoves(x, y, 0); }
    hide *;
    XorZero(x);
  }

  lemma XorIs(x: bv32, y: bv32, k: bv32)
    ensures Xor32(x, y) == k <==> y == Xor32(x, k)
  {
    if Xor32(x, y) == k { XorMoves(x, y, k); }
    if y == Xor32(x, k) { XorMoves(x, k, y); }
    hide *;
  }

  lemma XorMoves(x: bv32, y: bv32, k: bv32)
    requires Xor32(x, y) == k
    ensures Xor32(x, k) == y
  {
    TakeXor32(y, x, k);
  }

  lemma ScatterParts(x: bv32)
    ensures Scatter(x) == Xor32(Xor32(x, Turn7(x)), Half(x))
  {
    TurnBySeven(x);
    hide Xor32, Rotl32, Turn7, Half;
  }

  /** The last step merges words in pairs: exactly those that differ by the kernel. */
  lemma ScatterMergesPairs(x: bv32, y: bv32)
    ensures Scatter(x) == Scatter(y) <==> x == y || y == Xor32(x, KERNEL)
  {
    hide *;
    ScatterParts(x);
    ScatterParts(y);
    PartsAreLinear(x, y);
    SixWords(x, Turn7(x), Half(x), y, Turn7(y), Half(y));
    ZeroOrKernel(Xor32(x, y));
    XorIsZero(x, y);
    XorIs(x, y, KERNEL);
  }

  /** Whether the mixing word merges two different first arguments. */
  predicate Merges(v: bv32, w: bv32, b: bv32, c: bv32, rotation: nat) {
    Head(w, b, c, rotation) == Xor32(Head(v, b, c, rotation), KERNEL)
  }

  /** Two first arguments are mixed alike exactly when they are equal or merge. */
  lemma Mix32MergesExactly(v: bv32, w: bv32, b: bv32, c: bv32, rotation: nat)
    ensures Mix32(v, b, c, rotation) == Mix32(w, b, c, rotation) <==> v == w || Merges(v, w, b, c, rotation)
    ensures !Merges(v, v, b, c, rotation)
  {
    hide Head, Unhead, Scatter, Xor32;
    ScatterMergesPairs(Head(v, b, c, rotation), Head(w, b, c, rotation));
    HeadIsBijective(v, 0, b, c, rotation);
    HeadIsBijective(w, 0, b, c, rotation);
    KernelMoves(Head(v, b, c, rotation));
  }

  lemma KernelMoves(x: bv32)
    ensures Xor32(x, KERNEL) != x
  {
  }

  /** The mixing word is no bijection: each first argument has exactly one other that is mixed alike, whatever
      the other arguments. */
  lemma Mix32IsTwoToOne(a: bv32, b: bv32, c: bv32, rotation: nat) returns (other: bv32)
    ensures other != a && Mix32(other, b, c, rotation) == Mix32(a, b, c, rotation)
    ensures forall x :: Mix32(x, b, c, rotation) == Mix32(a, b, c, rotation) ==> x == a || x == other
  {
    hide Head, Unhead, Scatter, Xor32, Mix32;
    other := Unhead(Xor32(Head(a, b, c, rotation), KERNEL), b, c, rotation);
    HeadIsBijective(a, Xor32(Head(a, b, c, rotation), KERNEL), b, c, rotation);
    KernelMoves(Head(a, b, c, rotation));
    Mix32MergesExactly(a, other, b, c, rotation);
    forall x | Mix32(x, b, c, rotation) == Mix32(a, b, c, rotation) ensures x == a || x == other {
      Mix32MergesExactly(a, x, b, c, rotation);
      HeadIsBijective(x, 0, b, c, rotation);
    }
  }

  function Fold64(v: bv64): bv32 {
    Low32(v ^ (v >> 32) ^ Rotl64(v, 17) ^ Rotl64(v, 41))
  }

  /** The low 32 bits of v ^ v>>32. */
  function FoldHalves(v: bv64): bv32 {
    Low32(v ^ (v >> 32))
  }

  function Joined(low: bv32, high: bv32): bv64 {
    (low as bv64) | ((high as bv64) << 32)
  }

  function Word32(n: nat): bv32 {
    (n % 0x1_0000_0000) as bv32
  }

  function Bytes32(b0: byte, b1: byte, b2: byte, b3: byte): bv32 {
    (b0 as bv32) | ((b1 as bv32) << 8) | ((b2 as bv32) << 16) | ((b3 as bv32) << 24)
  }

  function Lane(c: ControllerStateB, i: nat): bv32 {
    var k := i % 4;
    if k == 0 then c.lane0 else if k == 1 then c.lane1 else if k == 2 then c.lane2 else c.lane3
  }

  // ----- domain entry and injection -----

  /** The eight diagonal entries a domain change reads, two for each lane. */
  function DiagonalSlotsB(c: ControllerStateB, domain: Domain, length: bv64): seq<Slot> {
    seq(8, (k: nat) requires k < 8 => if k % 2 == 0 then FirstSlot(c, domain, k / 2) else SecondSlot(c, domain, k / 2))
  }

  function FirstSlot(c: ControllerStateB, domain: Domain, i: nat): Slot {
    A2.Low5((Lane(c, i) as bv64) + Wrap64(i * 7 + DomainCode(domain) as nat))
  }

  function SecondSlot(c: ControllerStateB, domain: Domain, i: nat): Slot {
    A2.Low5(((Lane(c, i + 2) >> 11) as bv64) + Wrap64(i * 13 + DomainCode(domain) as nat))
  }

  function EnteredLane(c: ControllerStateB, domain: Domain, length: bv64, d: seq<byte>, i: nat): bv32 {
    var dc := DomainCode(domain);
    var boundary := Bytes32(Nth(d, 2 * i), Nth(d, 2 * i + 1), dc, Wrap8(i));
    Mix32(Lane(c, i) ^ boundary, Lane(c, i + 1) + FoldHalves(length), Fold64(c.path ^ length) ^ Lane(c, i + 3),
          7 + i * 6 + (dc & 3) as nat)
  }

  function EnterWordsB(c: ControllerStateB, domain: Domain, length: bv64, d: seq<byte>): ControllerStateB {
    var dc := DomainCode(domain);
    var (l0, l1) := (EnteredLane(c, domain, length, d, 0), EnteredLane(c, domain, length, d, 1));
    var (l2, l3) := (EnteredLane(c, domain, length, d, 2), EnteredLane(c, domain, length, d, 3));
    var path := XorTurnAdd64(A2.Xor64(c.path, length), Joined(l0, l2), 13 + (dc & 31) as nat, EnteredPathSum(domain, Joined(l1, l3)));
    ControllerStateB(l0, l1, l2, l3, path)
  }

  function EnteredPathSum(domain: Domain, lanes: bv64): bv64 {
    Rotl64(lanes, 43) + (DomainCode(domain) as bv64) * 0x0101_0101_0101_0101
  }

  function SymbolEvent(symbol: byte, domain: Domain): bv32 {
    Bytes32(symbol, Rotl8(symbol, 3), DomainCode(domain), Rotl8(DomainCode(domain), 5))
  }

  function PlaceEvent(c: ControllerStateB, cursor: Coord, index: u64): bv32 {
    FoldHalves(Wrap64(index)) ^ ((CoordinateWord(cursor) as bv32) << 11) ^ Fold64(c.path)
  }

  function InjectSymbolB(c: ControllerStateB, cursor: Coord, index: u64, symbol: byte, domain: Domain): ControllerStateB {
    var dc := DomainCode(domain);
    var (event0, event1) := (SymbolEvent(symbol, domain), PlaceEvent(c, cursor, index));
    var l0 := Mix32(c.lane0 + event0, c.lane2 ^ event1, c.lane3, 5 + index % 8);
    var l1 := Mix32(c.lane1 ^ event1, c.lane3 + event0, l0, 11 + (symbol & 7) as nat);
    var l2 := Mix32(c.lane2 + !event0, c.lane0 ^ Rotl32(event1, 9), l1, 17 + (dc & 7) as nat);
    var l3 := Mix32(c.lane3 ^ Rotl32(event0, 13), c.lane1 + event1, l2, 23 + ((symbol ^ dc) & 7) as nat);
    var path := XorTurnAdd64(A2.Raised32(event0), A2.Xor64(c.path, Joined(l0, l2)), 19 + (index + dc as nat) % 32,
      InjectedPathSum(Joined(l1, l3), event1));
    ControllerStateB(l0, l1, l2, l3, path)
  }

  function InjectedPathSum(lanes: bv64, event: bv32): bv64 {
    Rotl64(lanes ^ (event as bv64), 37) + 0xA076_1D64_78BD_642F
  }

  // ----- probes and scores -----

  function CoordinateB(cursor: Coord, a: bv32, b: bv32, path: bv64, phase: Phase, dc: byte, lane: nat): Coord {
    var p := Fold64(Rotl64(path, lane * 9 + phase));
    var m0 := Mix32(a, b, p ^ (dc as bv32), 3 + lane);
    var m1 := Mix32(b, p, a ^ Word32(phase), 11 + lane);
    A2.Moved(cursor, (Low3(m0 as bv64), Low3((m0 >> 11) as bv64) + lane, Low3((m1 >> 21) as bv64) + phase + dc as nat))
  }

  function AmountCoord(x: Context<ControllerStateB>): Coord {
    var (c, dc) := (x.injected, DomainCode(x.domain));
    CoordinateB(x.cursor, c.lane1, c.lane3, Rotl64(c.path, 31), x.phase, dc, 5)
  }

  /** axis_coord_0, axis_coord_1, amount_coord_0, amount_coord_1. */
  function ProbeCoordsB(x: Context<ControllerStateB>): seq<Coord> {
    var (c, dc) := (x.injected, DomainCode(x.domain));
    [CoordinateB(x.cursor, c.lane0, c.lane2, c.path, x.phase, dc, 0),
     CoordinateB(x.cursor, c.lane2, c.lane0, Rotl64(c.path, 23), x.phase, dc, 3),
     AmountCoord(x),
     CoordinateB(x.cursor, c.lane3, c.lane1, Rotl64(c.path, 47), x.phase, dc, 7)]
  }

  function SecondAxisB(x: Context<ControllerStateB>, probed: seq<byte>): bool {
    var (c, dc) := (x.injected, DomainCode(x.domain));
    var (first, second) := (ChooseOtherAxis(x.previousAxis, false), ChooseOtherAxis(x.previousAxis, true));
    var fold := Fold64(c.path);
    var event := Bytes32(Nth(probed, 0), Nth(probed, 1), Wrap8(x.phase), dc);
    var score0 := Mix32(c.lane0, c.lane2 ^ event, fold + Word32(AxisCode(first)) * 0x9E37_79B9, 7);
    var score1 := Mix32(c.lane2, c.lane0 + event, Rotl32(fold, 13) + Word32(AxisCode(second)) * 0x7F4A_7C15, 19);
    score1 < score0
  }

  /** The cells scanned for the seven candidate amounts. */
  function ScanCoords(x: Context<ControllerStateB>, axis: Axis, probed: seq<byte>): seq<Coord> {
    var (c, dc) := (AmountCoord(x), DomainCode(x.domain) as nat);
    seq(7, (i: nat) requires i < 7 =>
      Coord((c.x + (i + 1) + AxisCode(axis)) % 8, (c.y + 3 * (i + 1) + x.phase) % 8, (c.z + 5 * (i + 1) + dc) % 8))
  }

  /** A 32-bit score; scores are only ever compared. */
  type Score = n: nat | n <= MAX_SCORE

  const MAX_SCORE := 0xFFFF_FFFF

  function AmountWordB(x: Context<ControllerStateB>, axis: Axis, probed: seq<byte>, scanned: seq<byte>, candidate: nat): bv32
    requires candidate > 0
  {
    CandidateWord(x, axis, Nth(probed, 2), Nth(probed, 3), Nth(scanned, candidate - 1), candidate)
  }

  function CandidateWord(x: Context<ControllerStateB>, axis: Axis, p2: byte, p3: byte, scanned: byte, candidate: nat): bv32 {
    var c := x.injected;
    var event := Bytes32(p2, p3, scanned, Wrap8(candidate));
    Mix32(c.lane1 + Word32(candidate) * 0x9E37_79B9, c.lane3 ^ Rotl32(event, candidate),
          Fold64(c.path) + event + Word32(AxisCode(axis)) * 0xD1B5_4A35, 3 + candidate * 4 + x.phase)
  }

  function ScoreOf(word: bv32): Score {
    word as nat
  }

  function AmountScores(x: Context<ControllerStateB>, axis: Axis, probed: seq<byte>, scanned: seq<byte>): (scores: seq<Score>)
    ensures |scores| == 7
  {
    hide AmountWordB;
    seq(7, (i: nat) requires i < 7 => ScoreOf(AmountWordB(x, axis, probed, scanned, i + 1)))
  }

  /** The best score and the amount selected after the first `n` candidates. */
  function Selected(scores: seq<Score>, n: nat): (Score, Amount)
    requires n <= |scores| == 7
  {
    if n == 0 then (MAX_SCORE, 1)
    else
      var (best, selected) := Selected(scores, n - 1);
      if scores[n - 1] < best then (scores[n - 1], n) else (best, selected)
  }

  /** `a` is the first amount whose score is least. */
  predicate FirstLeast(scores: seq<Score>, a: Amount)
    requires |scores| == 7
  {
    && (forall j :: 0 <= j < 7 ==> scores[a - 1] <= scores[j])
    && (forall j :: 0 <= j < a - 1 ==> scores[a - 1] < scores[j])
  }

  /** What the selection loop keeps: before any score is below the initial bound, amount 1 stands. */
  lemma {:induction false} SelectedSoFar(scores: seq<Score>, n: nat)
    requires n <= |scores| == 7
    ensures var (best, a) := Selected(scores, n);
      && (forall j :: 0 <= j < n ==> best <= scores[j])
      && (best == MAX_SCORE ==> a == 1)
      && (best != MAX_SCORE ==> a <= n && scores[a - 1] == best && forall j :: 0 <= j < a - 1 ==> best < scores[j])
  {
    if n == 0 {
    } else {
      SelectedSoFar(scores, n - 1);
    }
  }

  /** The selected amount is the first with the least of the seven scores, also when no score is below the bound. */
  lemma SelectedIsFirstLeast(scores: seq<Score>)
    requires |scores| == 7
    ensures FirstLeast(scores, Selected(scores, 7).1)
  {
    SelectedSoFar(scores, 7);
    var (best, a) := Selected(scores, 7);
    if best == MAX_SCORE {
      forall j | 0 <= j < 7 ensures scores[j] == MAX_SCORE {}
    }
  }

  method SelectAmount(scores: seq<Score>) returns (selected: Amount)
    requires |scores| == 7
    ensures selected == Selected(scores, 7).1
    ensures FirstLeast(scores, selected)
  {
    var best: Score := MAX_SCORE;
    selected := 1;
    for candidate := 1 to 8
      invariant (best, selected) == Selected(scores, candidate - 1)
    {
      if scores[candidate - 1] < best {
        best := scores[candidate - 1];
        selected := candidate;
      }
    }
    SelectedIsFirstLeast(scores);
  }

  function ChooseAmountB(x: Context<ControllerStateB>, axis: Axis, probed: seq<byte>, scanned: seq<byte>): Amount {
    Selected(AmountScores(x, axis, probed, scanned), 7).1
  }

  // ----- the update after a move -----

  function EventWordB(before: byte, after: byte, position: bv32): bv32 {
    (before as bv32) | ((after as bv32) << 8) | (position << 16)
  }

  /** The event of round `i`: both images of the line, one read backwards. */
  function LineEventB(e: Effect, i: nat): bv32
    requires i < 8
  {
    var j := (7 + e.decision.amount + AxisCode(e.decision.axis) - i) % 8;
    EventWordB(Nth(e.lineBefore, i), Nth(e.lineAfter, j), Word32(i * 37 + j * 23))
  }

  function RoundWeight(i: nat): bv32 {
    Word32(i + 1) * 0x0102_0408
  }

  function LineRoundB(e: Effect, value: bv32, i: nat): bv32
    requires i < 8
  {
    Mix32(value, LineEventB(e, i), RoundWeight(i), 5 + i + e.decision.amount)
  }

  /** The first `n` rounds of the positional line feedback. */
  function LineFeedbackB(e: Effect, phase: Phase, n: nat): bv32
    requires n <= 8
  {
    if n == 0 then A2.LineStart(e, phase) else LineRoundB(e, LineFeedbackB(e, phase, n - 1), n - 1)
  }

  /** The loop over the eight positions. */
  method PositionalLineFeedbackB(e: Effect, phase: Phase) returns (value: bv32)
    ensures value == LineFeedbackB(e, phase, 8)
  {
    hide LineRoundB, A2.LineStart;
    value := A2.LineStart(e, phase);
    for i := 0 to 8
      invariant value == LineFeedbackB(e, phase, i)
    {
      value := LineRoundB(e, value, i);
    }
  }

  lemma SameEventB(e: Effect, f: Effect, i: nat)
    requires i < 8 && A2.SameLines(e, f)
    ensures LineEventB(e, i) == LineEventB(f, i)
  {
    hide EventWordB, Word32, AxisCode, Nth;
  }

  /** Round `i` merges the values that two effects have reached. */
  predicate RoundMerges(e: Effect, f: Effect, phase: Phase, i: nat)
    requires i < 8
  {
    Merges(LineFeedbackB(e, phase, i), LineFeedbackB(f, phase, i), LineEventB(e, i), RoundWeight(i), 5 + i + e.decision.amount)
  }

  lemma {:induction false} LineFoldMerges(e: Effect, f: Effect, phase: Phase, n: nat)
    requires n <= 8 && A2.SameLines(e, f)
    ensures LineFeedbackB(e, phase, n) == LineFeedbackB(f, phase, n) <==>
            A2.LineStart(e, phase) == A2.LineStart(f, phase) || exists i: nat :: i < n && RoundMerges(e, f, phase, i)
  {
    hide Mix32, Merges, LineEventB, RoundWeight, A2.LineStart;
    if n == 0 {
    } else {
      var (v, w) := (LineFeedbackB(e, phase, n - 1), LineFeedbackB(f, phase, n - 1));
      LineFoldMerges(e, f, phase, n - 1);
      SameEventB(e, f, n - 1);
      Mix32MergesExactly(v, w, LineEventB(e, n - 1), RoundWeight(n - 1), 5 + (n - 1) + e.decision.amount);
      assert RoundMerges(e, f, phase, n - 1) == Merges(v, w, LineEventB(e, n - 1), RoundWeight(n - 1), 5 + (n - 1) + e.decision.amount);
    }
  }

  /** On equal lines and decisions two cursors give equal feedback exactly if they are one cursor or some
      round merges their values; unlike in controller A2 a round can (`MergeWitness.LineFeedbackCanMerge`). */
  lemma LineFeedbackMerges(e: Effect, f: Effect, phase: Phase)
    requires A2.SameLines(e, f)
    ensures LineFeedbackB(e, phase, 8) == LineFeedbackB(f, phase, 8) <==>
            e.cursorAfter == f.cursorAfter || exists i: nat :: i < 8 && RoundMerges(e, f, phase, i)
  {
    hide *;
    LineFoldMerges(e, f, phase, 8);
    A2.StartSeparates(e, f, phase);
  }

  /** The only other start word that round 0 mixes like that of `e`. */
  function PartnerStart(e: Effect, phase: Phase): bv32 {
    var (b, c, rotation) := (LineEventB(e, 0), RoundWeight(0), 5 + e.decision.amount);
    Unhead(Xor32(Head(A2.LineStart(e, phase), b, c, rotation), KERNEL), b, c, rotation)
  }

  lemma StartMerges(e: Effect, f: Effect, phase: Phase)
    ensures RoundMerges(e, f, phase, 0) ==
            Merges(A2.LineStart(e, phase), A2.LineStart(f, phase), LineEventB(e, 0), RoundWeight(0), 5 + e.decision.amount)
  {
    hide Merges, LineEventB, RoundWeight, A2.LineStart;
  }

  /** Round 0 merges exactly the partners, a condition on the two moves alone; their feedback is then equal. */
  lemma PartnersMerge(e: Effect, f: Effect, phase: Phase)
    requires A2.SameLines(e, f)
    ensures RoundMerges(e, f, phase, 0) <==> A2.LineStart(f, phase) == PartnerStart(e, phase)
    ensures A2.LineStart(f, phase) == PartnerStart(e, phase) ==> LineFeedbackB(e, phase, 8) == LineFeedbackB(f, phase, 8)
  {
    LineFeedbackMerges(e, f, phase);
    StartMerges(e, f, phase);
    var (b, c, rotation) := (LineEventB(e, 0), RoundWeight(0), 5 + e.decision.amount);
    var (v, w) := (A2.LineStart(e, phase), A2.LineStart(f, phase));
    HeadIsBijective(w, Xor32(Head(v, b, c, rotation), KERNEL), b, c, rotation);
    hide RoundMerges, LineFeedbackB, LineEventB, RoundWeight, A2.LineStart, Head, Unhead, Xor32;
  }

  function UpdatedLane0(x: Context<ControllerStateB>, e: Effect, feedback: bv32, event: bv32): bv32 {
    var c := x.injected;
    Mix32(c.lane0 ^ feedback, c.lane1 + event, c.lane3 ^ (Nth(e.probedAfter, 1) as bv32), 5 + e.decision.amount)
  }

  function UpdatedLane1(x: Context<ControllerStateB>, e: Effect, feedback: bv32, event: bv32, l0: bv32): bv32 {
    var c := x.injected;
    Mix32(c.lane1 + Rotl32(feedback, 7), c.lane2 ^ event, l0 + (Nth(e.probedAfter, 3) as bv32),
          11 + AxisCode(e.decision.axis))
  }

  function UpdatedLane2(x: Context<ControllerStateB>, e: Effect, feedback: bv32, event: bv32, l1: bv32): bv32 {
    var c := x.injected;
    Mix32(c.lane2 ^ Rotl32(feedback, 13), c.lane3 + event, l1 ^ (CoordinateWord(e.cursorAfter) as bv32), 17 + x.phase)
  }

  function UpdatedLane3(x: Context<ControllerStateB>, e: Effect, feedback: bv32, event: bv32, l2: bv32): bv32 {
    var c := x.injected;
    Mix32(c.lane3 + Rotl32(feedback, 19), c.lane0 ^ event,
          l2 + (Nth(e.probedAfter, 1) as bv32) * 257 + (Nth(e.probedAfter, 3) as bv32),
          23 + e.decision.amount + AxisCode(e.decision.axis))
  }

  function UpdatedPath(x: Context<ControllerStateB>, e: Effect, feedback: bv32, event: bv32, left: bv64, right: bv64): bv64 {
    XorTurnAdd64(Widened(feedback), A2.Xor64(x.injected.path, left), 17 + e.decision.amount, UpdatedPathSum(e, event, right))
  }

  function Widened(v: bv32): bv64 {
    v as bv64
  }

  function UpdatedPathSum(e: Effect, event: bv32, right: bv64): bv64 {
    Rotl64(right ^ ((event as bv64) << 29), 41 + AxisCode(e.decision.axis))
    + (CoordinateWord(e.cursorAfter) as bv64) * 0x0001_0001_0001_0001
  }

  function UpdateWordsB(x: Context<ControllerStateB>, e: Effect): ControllerStateB {
    UpdatedWith(x, e, LineFeedbackB(e, x.phase, 8))
  }

  /** The controller after a move, with its line feedback computed by the loop. */
  method NextControllerB(x: Context<ControllerStateB>, e: Effect) returns (next: ControllerStateB)
    ensures next == B().update(x, e)
  {
    hide UpdatedWith, LineFeedbackB;
    var feedback := PositionalLineFeedbackB(e, x.phase);
    next := UpdatedWith(x, e, feedback);
  }

  function UpdatedWith(x: Context<ControllerStateB>, e: Effect, feedback: bv32): ControllerStateB {
    var event := Bytes32(x.symbol, Wrap8(x.phase), DomainCode(x.domain), Wrap8(e.decision.amount));
    var l0 := UpdatedLane0(x, e, feedback, event);
    var l1 := UpdatedLane1(x, e, feedback, event, l0);
    var l2 := UpdatedLane2(x, e, feedback, event, l1);
    var l3 := UpdatedLane3(x, e, feedback, event, l2);
    ControllerStateB(l0, l1, l2, l3, UpdatedPath(x, e, feedback, event, Joined(l0, l2), Joined(l1, l3)))
  }

  // ----- return pass -----

  function FingerprintLaneB(value: bv64, lane: bv32, i: nat): bv64 {
    XorTurnAdd64(value, lane as bv64, 9 + 11 * i, LaneWeight(lane))
  }

  function LaneWeight(lane: bv32): bv64 {
    (lane as bv64) * 0x9E37_79B1_85EB_CA87
  }

  function FingerprintCellB(value: bv64, cell: byte, i: nat): bv64 {
    XorTurnAdd64(value, (cell as bv64) ^ Wrap64(i * 193), 1 + i % 32, (cell as bv64) * Wrap64(263 + 2 * i))
  }

  function FingerprintStartB(s: State<ControllerStateB>): bv64 {
    MixedPath(s.controller.path, CoordinateWord(s.cursor), Wrap64(s.symbolIndex))
  }

  function MixedPath(path: bv64, cursor: bv16, index: bv64): bv64 {
    A2.Xor64(A2.Xor64(path, (cursor as bv64) << 47), index)
  }

  function FingerprintLanes(s: State<ControllerStateB>, n: nat): bv64 {
    if n == 0 then FingerprintStartB(s)
    else FingerprintLaneB(FingerprintLanes(s, n - 1), Lane(s.controller, n - 1), n - 1)
  }

  function FingerprintCells(s: State<ControllerStateB>, n: nat): bv64
    requires n <= CELLS
  {
    if n == 0 then FingerprintLanes(s, 4) else FingerprintCellB(FingerprintCells(s, n - 1), s.cells[n - 1], n - 1)
  }

  /** The loop over the four lanes, then the loop over the 512 cells. */
  method StateFingerprintB(s: State<ControllerStateB>) returns (value: bv64)
    ensures value == FingerprintCells(s, CELLS)
  {
    hide FingerprintLaneB, FingerprintCellB, FingerprintStartB, Lane;
    value := FingerprintStartB(s);
    for i := 0 to 4
      invariant value == FingerprintLanes(s, i)
    {
      value := FingerprintLaneB(value, Lane(s.controller, i), i);
    }
    for i := 0 to CELLS
      invariant value == FingerprintCells(s, i)
    {
      value := FingerprintCellB(value, s.cells[i], i);
    }
  }

  predicate SameLanes(c: ControllerStateB, d: ControllerStateB) {
    c.(path := 0) == d.(path := 0)
  }

  lemma LaneSeparates(v: bv64, w: bv64, lane: bv32, i: nat)
    ensures FingerprintLaneB(v, lane, i) == FingerprintLaneB(w, lane, i) <==> v == w
  {
    hide XorTurnAdd64, LaneWeight;
    RoundSeparates64(v, w, lane as bv64, 9 + 11 * i, LaneWeight(lane));
  }

  lemma CellSeparates(v: bv64, w: bv64, cell: byte, i: nat)
    ensures FingerprintCellB(v, cell, i) == FingerprintCellB(w, cell, i) <==> v == w
  {
    hide XorTurnAdd64, Wrap64;
    RoundSeparates64(v, w, (cell as bv64) ^ Wrap64(i * 193), 1 + i % 32, (cell as bv64) * Wrap64(263 + 2 * i));
  }

  lemma {:induction false} LaneFoldSeparates(a: State<ControllerStateB>, b: State<ControllerStateB>, n: nat)
    requires SameLanes(a.controller, b.controller)
    ensures FingerprintLanes(a, n) == FingerprintLanes(b, n) <==> FingerprintStartB(a) == FingerprintStartB(b)
  {
    hide FingerprintLaneB, FingerprintStartB;
    if n == 0 {
    } else {
      LaneFoldSeparates(a, b, n - 1);
      LaneSeparates(FingerprintLanes(a, n - 1), FingerprintLanes(b, n - 1), Lane(a.controller, n - 1), n - 1);
    }
  }

  lemma PathShows(p: bv64, q: bv64, cursor: bv16, index: bv64)
    ensures MixedPath(p, cursor, index) == MixedPath(q, cursor, index) <==> p == q
  {
    hide A2.Xor64;
    var word := (cursor as bv64) << 47;
    A2.UnXor(A2.Xor64(p, word), A2.Xor64(q, word), index);
    A2.UnXor(p, q, word);
  }

  /** Over equal cells and lanes the fingerprint loses nothing of the word it starts from; in particular a
      change of the path changes it. */
  lemma FingerprintSeparatesB(a: State<ControllerStateB>, b: State<ControllerStateB>)
    requires a.cells == b.cells && SameLanes(a.controller, b.controller)
    ensures FingerprintCells(a, CELLS) == FingerprintCells(b, CELLS) <==> FingerprintStartB(a) == FingerprintStartB(b)
    ensures a.cursor == b.cursor && a.symbolIndex == b.symbolIndex ==>
              (FingerprintCells(a, CELLS) == FingerprintCells(b, CELLS) <==>
              a.controller.path == b.controller.path)
  {
    hide FingerprintCells, FingerprintLanes, CoordinateWord, Wrap64, MixedPath;
    CellsKeepLanes(a, b, CELLS);
    LaneFoldSeparates(a, b, 4);
    PathShows(a.controller.path, b.controller.path, CoordinateWord(a.cursor), Wrap64(a.symbolIndex));
  }

  /** The controllers differ in lane `k` only. */
  predicate OnlyLaneDiffers(c: ControllerStateB, d: ControllerStateB, k: nat) {
    k < 4 && c.path == d.path && forall i: nat :: i < 4 && i != k ==> Lane(c, i) == Lane(d, i)
  }

  lemma {:induction false} LanesBefore(a: State<ControllerStateB>, b: State<ControllerStateB>, k: nat, n: nat)
    requires n <= k && OnlyLaneDiffers(a.controller, b.controller, k) && FingerprintStartB(a) == FingerprintStartB(b)
    ensures FingerprintLanes(a, n) == FingerprintLanes(b, n)
  {
    hide FingerprintLaneB, FingerprintStartB, Lane;
    if n > 0 { LanesBefore(a, b, k, n - 1); }
  }

  lemma {:induction false} LanesAfter(a: State<ControllerStateB>, b: State<ControllerStateB>, k: nat, n: nat)
    requires k < n <= 4 && OnlyLaneDiffers(a.controller, b.controller, k)
    ensures FingerprintLanes(a, n) == FingerprintLanes(b, n) <==> FingerprintLanes(a, k + 1) == FingerprintLanes(b, k + 1)
  {
    hide FingerprintLaneB, FingerprintStartB, Lane;
    if n > k + 1 {
      LanesAfter(a, b, k, n - 1);
      LaneSeparates(FingerprintLanes(a, n - 1), FingerprintLanes(b, n - 1), Lane(a.controller, n - 1), n - 1);
    }
  }

  lemma {:induction false} CellsKeepLanes(a: State<ControllerStateB>, b: State<ControllerStateB>, n: nat)
    requires n <= CELLS && a.cells == b.cells
    ensures FingerprintCells(a, n) == FingerprintCells(b, n) <==> FingerprintLanes(a, 4) == FingerprintLanes(b, 4)
  {
    hide FingerprintCellB, FingerprintLanes;
    if n > 0 {
      CellsKeepLanes(a, b, n - 1);
      CellSeparates(FingerprintCells(a, n - 1), FingerprintCells(b, n - 1), a.cells[n - 1], n - 1);
    }
  }

  /** States that differ in one lane have equal fingerprints exactly when that one lane round maps the two
      lanes together, from the value both have reached before it. */
  lemma OneLaneShowsExactly(a: State<ControllerStateB>, b: State<ControllerStateB>, k: nat)
    requires a.cells == b.cells && a.cursor == b.cursor && a.symbolIndex == b.symbolIndex
    requires OnlyLaneDiffers(a.controller, b.controller, k)
    ensures FingerprintLanes(a, k) == FingerprintLanes(b, k)
    ensures FingerprintCells(a, CELLS) == FingerprintCells(b, CELLS) <==>
            FingerprintLaneB(FingerprintLanes(a, k), Lane(a.controller, k), k)
            == FingerprintLaneB(FingerprintLanes(a, k), Lane(b.controller, k), k)
  {
    assert FingerprintStartB(a) == FingerprintStartB(b) by {
      hide MixedPath, CoordinateWord, Wrap64, Lane;
    }
    hide FingerprintCells, FingerprintLaneB, FingerprintStartB, Lane, OnlyLaneDiffers;
    CellsKeepLanes(a, b, CELLS);
    LaneIndex(a, b, k);
    LanesAfter(a, b, k, 4);
    LanesBefore(a, b, k, k);
  }

  lemma LaneIndex(a: State<ControllerStateB>, b: State<ControllerStateB>, k: nat)
    requires OnlyLaneDiffers(a.controller, b.controller, k)
    ensures k < 4
  {
  }

  function BoundaryB(s: State<ControllerStateB>, length: u64): bv64 {
    BoundB(FingerprintCells(s, CELLS), Wrap64(length), Wrap64(s.symbolIndex))
  }

  function BoundB(fingerprint: bv64, length: bv64, index: bv64): bv64 {
    fingerprint ^ (length * 0xD134_2543_DE82_EF95) ^ index
  }

  /** The boundary of the return pass, with the fingerprint computed by the loops. */
  method ReturnBoundaryB(s: State<ControllerStateB>, length: u64) returns (boundary: bv64)
    ensures boundary == B().boundary(s, length)
  {
    hide BoundB, FingerprintCells;
    var fingerprint := StateFingerprintB(s);
    boundary := BoundB(fingerprint, Wrap64(length), Wrap64(s.symbolIndex));
  }

  function ControllerBytesB(c: ControllerStateB): (bytes: seq<byte>)
    ensures |bytes| == 24
  {
    LaneBytes(c.lane0) + LaneBytes(c.lane1) + LaneBytes(c.lane2) + LaneBytes(c.lane3) + PathBytes(c.path)
  }

  function LaneBytes(lane: bv32): (bytes: seq<byte>)
    ensures |bytes| == 4
  {
    [Byte32(lane, 0), Byte32(lane, 1), Byte32(lane, 2), Byte32(lane, 3)]
  }

  function PathBytes(path: bv64): (bytes: seq<byte>)
    ensures |bytes| == 8
  {
    [Byte64(path, 0), Byte64(path, 1), Byte64(path, 2), Byte64(path, 3),
     Byte64(path, 4), Byte64(path, 5), Byte64(path, 6), Byte64(path, 7)]
  }

  function InitSymbolB(s: State<ControllerStateB>, length: u64, index: nat): byte {
    var c := s.controller;
    var bytes := ControllerBytesB(c);
    var selector := c.path ^ ((c.lane0 as bv64) << 32) ^ (c.lane3 as bv64)
      ^ Rotl64(Wrap64(length), index + 11) ^ Wrap64(s.symbolIndex);
    var (c0, c1) := (A2.SelectorCoord(selector, index, 2), A2.SelectorCoord(Rotl64(selector, 37), index, 3));
    var geometry := Wrap8(c0.x * 5 + c0.y * 7 + c0.z * 11 + c1.x * 13 + c1.y * 17 + c1.z * 19 + AxisCode(s.previousAxis) * 23);
    bytes[index % 24]
      ^ Rotl8(bytes[(index * 11 + 7) % 24], index + 1)
      ^ (Rotl8(Cell(s.cells, c0), 1) + Rotl8(Cell(s.cells, c1), index + 5))
      ^ Byte64(Wrap64(length), index + 2)
      ^ geometry ^ Wrap8(index * 0x6D + 0xB7)
  }

  function ReturnedSymbolB(snapshot: State<ControllerStateB>, current: State<ControllerStateB>, message: byte, length: u64, reverse: nat): byte {
    Xor8(message, ReturnMaskB(snapshot, current, length, reverse))
  }

  function ReturnMaskB(snapshot: State<ControllerStateB>, current: State<ControllerStateB>, length: u64, reverse: nat): byte {
    var bytes := ControllerBytesB(snapshot.controller);
    var c := current.controller;
    var selector := c.path ^ Rotl64(snapshot.controller.path, 31) ^ ((c.lane1 as bv64) << 32) ^ (c.lane2 as bv64)
      ^ (Wrap64(reverse) * 0xE703_7ED1_A0B4_28DB);
    var probe := Cell(current.cells, A2.SelectorCoord(selector, reverse, 5));
    bytes[(reverse * 7 + 5) % 24] ^ Rotl8(probe, reverse + 2)
      ^ Byte64(Wrap64(length), reverse + 5) ^ Wrap8(reverse * 0x47 + 0xC6)
  }

  function SealedSymbolB(snapshot: State<ControllerStateB>, current: State<ControllerStateB>, length: u64, index: nat): byte {
    var (before, after) := (ControllerBytesB(snapshot.controller), ControllerBytesB(current.controller));
    var selector := current.controller.path ^ Rotl64(snapshot.controller.path, 47)
      ^ (Wrap64(index) * 0x5899_65CC_7537_4CC3);
    before[(index * 5 + 2) % 24] ^ after[(index * 13 + 9) % 24]
      ^ Rotl8(Cell(current.cells, A2.SelectorCoord(selector, index, 7)), index + 1)
      ^ Byte64(Wrap64(length), index + 4) ^ Wrap8(index * 0x79 + 0x8B)
  }

  // ----- finalization -----

  function BindingSymbolB(b: byte, length: u64, i: nat): byte {
    Xor8(b, BindingTagB(length, i))
  }

  function BindingTagB(length: u64, i: nat): byte {
    Byte64(Wrap64(length), i) ^ Wrap8(i * 31 + 0xA7)
  }

  function OutputCoordsB(c: ControllerStateB, round: nat): seq<Coord> {
    var selector := c.path ^ ((c.lane0 as bv64) << 32) ^ (c.lane3 as bv64);
    [A2.OutputCoord(selector, round, 3), A2.OutputCoord(Rotl64(selector, 29), round, 5), A2.OutputCoord(Rotl64(selector, 53), round, 7)]
  }

  function OutputByteB(c: ControllerStateB, round: nat, cells: seq<byte>): byte {
    Sum3(CubeMixB(Nth(cells, 0), Rotl8(Nth(cells, 1), round + 1), Rotl8(Nth(cells, 2), round + 5)), ControllerMixB(c, round),
            Wrap8(round * 41))
  }

  function CubeMixB(x: byte, y: byte, z: byte): byte {
    x ^ (y + z)
  }

  function ControllerMixB(c: ControllerStateB, round: nat): byte {
    Byte32(Lane(c, round), round) ^ Byte32(Lane(c, round + 2), round + 1) ^ Byte64(c.path, round + 3)
  }

  function EchoB(b: byte, round: nat): byte {
    b ^ Wrap8(round * 3)
  }

  /** Controller B as an instance of the machine. */
  function B(): Mixing<ControllerStateB> {
    Mixing(
      DiagonalSlotsB, EnterWordsB, InjectSymbolB, ProbeCoordsB, SecondAxisB, ScanCoords,
      ChooseAmountB, UpdateWordsB, ControllerBytesB, BindingSymbolB, OutputCoordsB, OutputByteB, EchoB,
      BoundaryB,
      (boundary: bv64, c: ControllerStateB) => boundary ^ Rotl64(c.path, 19),
      (boundary: bv64, c: ControllerStateB) => boundary ^ Rotl64(c.path, 41),
      InitSymbolB, ReturnedSymbolB, SealedSymbolB)
  }

  /** The research initial state of controller B over a starting cube. */
  function InitialStateB(cells: Cells, seed: bv64): State<ControllerStateB> {
    var d := Diagonals(cells);
    var cursor := Coord(Low3(seed ^ (d[2] as bv64)), Low3((seed >> 9) ^ (d[15] as bv64)), Low3((seed >> 27) ^ (d[28] as bv64)));
    var remainder := (seed + (d[19] as bv64)) as nat % 3;
    var previous := if remainder == 0 then X else if remainder == 1 then Y else Z;
    var (lo, hi) := (Low32(seed), Low32(seed >> 32));
    var l0 := Mix32(lo, hi, 0x243F_6A88 ^ (d[0] as bv32), 5);
    var l1 := Mix32(hi, lo, 0x85A3_08D3 ^ (d[9] as bv32), 11);
    var l2 := Mix32(lo ^ 0x1319_8A2E, hi + (d[18] as bv32), 0x0370_7344, 17);
    var l3 := Mix32(hi ^ 0xA409_3822, lo + (d[27] as bv32), 0x299F_31D0, 23);
    var path := XorTurnAdd64(seed, 0x082E_FA98_EC4E_6C89, 29, InitialPathSum(l0, l3));
    State(cells, cursor, previous, ControllerStateB(l0, l1, l2, l3, path), 0)
  }

  function InitialPathSum(l0: bv32, l3: bv32): bv64 {
    ((l0 as bv64) << 32) + (l3 as bv64)
  }

  lemma BBinding()
    ensures BindingWidth(B(), 24)
  {
  }

  lemma BWork(message: Message)
    ensures TotalMoves(DEFAULT_PROFILE, 24, |message|) == 736 + 16 * |message|
    ensures TotalSymbols(DEFAULT_PROFILE, 24, |message|) == 2 * |message| + 80
    ensures Runs(DEFAULT_PROFILE, message)
  {
  }

  /** Controller B on n bytes, from any starting state: it returns 32 bytes after exactly 736 + 16n
      moves and 2n + 80 counted symbols, keeps every cell value, and is undone by its trace. */
  lemma ControllerBCompletes(b: Mixing<ControllerStateB>, start: State<ControllerStateB>, key: KeySchedule.Key, message: Message)
    requires b == B()
    ensures Completed(start, Evaluate(b, start, key, message, DEFAULT_PROFILE), 736 + 16 * |message|, 2 * |message| + 80)
  {
    hide *;
    BBinding();
    BWork(message);
    EvaluationCompletes(b, start, key, message, DEFAULT_PROFILE, 24);
  }

  /** From the bootstrap state over any cube: the evaluation ends with the bytes of that cube rearranged. */
  lemma BootstrapBKeepsCells(b: Mixing<ControllerStateB>, start: State<ControllerStateB>, cells: Cells,
      key: KeySchedule.Key, message: Message)
    requires b == B() && start == InitialStateB(cells, A2.PUBLIC_BOOTSTRAP_SEED)
    ensures Evaluate(b, start, key, message, DEFAULT_PROFILE).Ok?
    ensures multiset(Evaluate(b, start, key, message, DEFAULT_PROFILE).value.run.state.cells) == multiset(cells)
    ensures DoubleByte(Evaluate(b, start, key, message, DEFAULT_PROFILE).value.run.state.cells) <==> DoubleByte(cells)
  {
    hide *;
    StartsOver(start, cells);
    ControllerBCompletes(b, start, key, message);
    CompletedKeeps(start, Evaluate(b, start, key, message, DEFAULT_PROFILE), 736 + 16 * |message|, 2 * |message| + 80);
  }

  lemma StartsOver(start: State<ControllerStateB>, cells: Cells)
    requires start == InitialStateB(cells, A2.PUBLIC_BOOTSTRAP_SEED)
    ensures start.cells == cells
  {
  }

  lemma CompletedKeeps<C>(start: State<C>, r: Result<Squeezed<C>, Error>, moves: nat, symbols: nat)
    requires Completed(start, r, moves, symbols)
    ensures r.Ok? && multiset(r.value.run.state.cells) == multiset(start.cells)
    ensures DoubleByte(r.value.run.state.cells) <==> DoubleByte(start.cells)
  {
  }
}
