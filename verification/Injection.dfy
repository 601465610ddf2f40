/** Symbol injection of controller A2: a bijection of the 128-bit controller for every symbol. */
module Injection {
  import opened Foundations
  import opened Words
  import opened CubeGeometry
  import opened Machine

  datatype ControllerState = ControllerState(axis: bv16, amount: bv16, feedback: bv32, transcript: bv64)

  // ----- folds and packings -----

  function DomainCode(d: Domain): byte {
    match d
    case KeyForward => 0x31
    case KeyReturn => 0x72
    case KeySeal => 0x9C
    case InputForward => 0xA5
    case InputReturn => 0xC6
    case ReturnInit => 0xD3
    case ReturnSeal => 0x8B
    case Finalization => 0xE9
    case Squeeze => 0x5A
  }

  function AxisCode(axis: Axis): (code: nat)
    ensures code < 3
  {
    match axis case X => 0 case Y => 1 case Z => 2
  }

  function Fold64To16(v: bv64): bv16 {
    var mixed := v ^ Rotl64(v, 13) ^ Rotl64(v, 37);
    Low16(mixed ^ (mixed >> 16) ^ (mixed >> 32) ^ (mixed >> 48))
  }

  function Fold64To32(v: bv64): bv32 {
    var mixed := v ^ Rotl64(v, 17) ^ Rotl64(v, 43);
    Low32(mixed ^ (mixed >> 32))
  }

  function Fold32To16(v: bv32): bv16 {
    var mixed := v ^ Rotl32(v, 7) ^ Rotl32(v, 19);
    Low16((mixed ^ (mixed >> 16)) as bv64)
  }

  /** The low 16 bits of v ^ v>>16 ^ v>>32. */
  function Spread(v: bv64): bv16 {
    Low16(v ^ (v >> 16) ^ (v >> 32))
  }

  function Pair(low: byte, high: byte): bv16 {
    (low as bv16) | ((high as bv16) << 8)
  }

  lemma PairBytes(low: byte, high: byte)
    ensures Byte16(Pair(low, high), 0) == low && Byte16(Pair(low, high), 1) == high
  {
  }

  lemma BytesPair(w: bv16)
    ensures Pair(Byte16(w, 0), Byte16(w, 1)) == w
  {
  }

  function CoordinateWord(c: Coord): bv16 {
    ((c.x as bv16) << 10) | ((c.y as bv16) << 5) | (c.z as bv16)
  }

  function Wrap16(n: nat): bv16 {
    (n % 0x1_0000) as bv16
  }

  function Wrap64(n: nat): bv64 {
    (n % TWO_64) as bv64
  }

  function Wrap8(n: nat): byte {
    (n % 256) as bv8
  }

  // ----- symbol injection -----

  function SymbolWord(symbol: byte): bv16 {
    Pair(symbol, Rotl8(symbol, 3))
  }

  function DomainWord(domain: Domain): bv16 {
    Pair(DomainCode(domain), Rotl8(DomainCode(domain), 5))
  }

  function EventWord(symbol: byte, domain: Domain): bv32 {
    JoinedWords(SymbolWord(symbol), DomainWord(domain))
  }

  function JoinedWords(low: bv16, high: bv16): bv32 {
    (low as bv32) | ((high as bv32) << 16)
  }

  function PlacedEvent(symbol: bv16, domain: bv16, cursor: bv16): bv32 {
    JoinedWords(symbol, domain) ^ (cursor as bv32)
  }

  function AxisMask(feedback: bv32, symbol: byte, index: u64): bv16 {
    SymbolWord(symbol) ^ AxisMaskRest(feedback, index)
  }

  function AxisMaskRest(feedback: bv32, index: u64): bv16 {
    Spread(Wrap64(index)) ^ Fold32To16(feedback)
  }

  function AxisOffset(transcript: bv64, cursor: Coord, index: u64, domain: Domain): bv16 {
    Rotl16(Fold64To16(transcript), 1 + index % 16) + CoordinateWord(cursor) + DomainWord(domain)
  }

  function AmountOffset(symbol: byte, index: u64): bv16 {
    SymbolWord(symbol) + Low16(Wrap64(index))
  }

  function AmountMask(feedback: bv32, transcript: bv64, axis: bv16, symbol: byte, domain: Domain): bv16 {
    Low16((feedback >> 16) as bv64)
    ^ Fold32To16(Rotl32(feedback, 11))
    ^ Rotl16(axis, 7)
    ^ Rotl16(Fold64To16(transcript), 9 + ((symbol ^ DomainCode(domain)) & 7) as nat)
    ^ (DomainWord(domain) + 0x4B39)
  }

  function FeedbackMask(transcript: bv64, cursor: Coord, symbol: byte, domain: Domain): bv32 {
    PlacedEvent(SymbolWord(symbol), DomainWord(domain), CoordinateWord(cursor)) ^ Fold64To32(transcript)
  }

  function FeedbackOffset(axis: bv16, amount: bv16): bv32 {
    (axis as bv32) * 257 + (amount as bv32) * 263
  }

  function TranscriptMask(cursor: Coord, index: u64, symbol: byte, domain: Domain): bv64 {
    (EventWord(symbol, domain) as bv64)
    | ((Spread(Wrap64(index)) as bv64) << 32)
    | ((CoordinateWord(cursor) as bv64) << 48)
  }

  function TranscriptOffset(axis: bv16, amount: bv16, feedback: bv32): bv64 {
    Rotl64(((feedback as bv64) << 16) | (axis as bv64), 23) + (amount as bv64) * 0x0001_0001_0001_0001
  }

  function TranscriptTurn(symbol: byte, domain: Domain): nat {
    11 + ((DomainCode(domain) ^ symbol) & 31) as nat
  }

  function Plus16(a: bv16, b: bv16): bv16 {
    a + b
  }

  function Minus16(a: bv16, b: bv16): bv16 {
    a - b
  }

  function XorTurnAdd16(v: bv16, mask: bv16, n: nat, offset: bv16): bv16 {
    Plus16(Rotl16(v ^ mask, n), offset)
  }

  function SubTurnXor16(v: bv16, mask: bv16, n: nat, offset: bv16): bv16 {
    Rotr16(Minus16(v, offset), n) ^ mask
  }

  function Plus32(a: bv32, b: bv32): bv32 {
    a + b
  }

  function Minus32(a: bv32, b: bv32): bv32 {
    a - b
  }

  function XorTurnAdd32(v: bv32, mask: bv32, n: nat, offset: bv32): bv32 {
    Plus32(Rotl32(v ^ mask, n), offset)
  }

  function SubTurnXor32(v: bv32, mask: bv32, n: nat, offset: bv32): bv32 {
    Rotr32(Minus32(v, offset), n) ^ mask
  }

  function Plus64(a: bv64, b: bv64): bv64 {
    a + b
  }

  function Minus64(a: bv64, b: bv64): bv64 {
    a - b
  }

  function XorTurnAdd64(v: bv64, mask: bv64, n: nat, offset: bv64): bv64 {
    Plus64(Rotl64(v ^ mask, n), offset)
  }

  function SubTurnXor64(v: bv64, mask: bv64, n: nat, offset: bv64): bv64 {
    Rotr64(Minus64(v, offset), n) ^ mask
  }

  function AddTurnXor(v: bv16, offset: bv16, n: nat, mask: bv16): bv16 {
    Rotl16(Plus16(v, offset), n) ^ mask
  }

  function XorTurnSub(v: bv16, offset: bv16, n: nat, mask: bv16): bv16 {
    Minus16(Rotr16(v ^ mask, n), offset)
  }

  /** The controller after a symbol is mixed in: axis, amount, feedback, transcript, in that order. */
  function InjectSymbol(c: ControllerState, cursor: Coord, index: u64, symbol: byte, domain: Domain): ControllerState {
    var axis := XorTurnAdd16(c.axis, AxisMask(c.feedback, symbol, index), 3 + index % 8,
      AxisOffset(c.transcript, cursor, index, domain));
    var amount := AddTurnXor(c.amount, AmountOffset(symbol, index), 5 + index / 2 % 8,
      AmountMask(c.feedback, c.transcript, axis, symbol, domain));
    var feedback := XorTurnAdd32(c.feedback, FeedbackMask(c.transcript, cursor, symbol, domain), 7 + index % 16,
      FeedbackOffset(axis, amount));
    var transcript := XorTurnAdd64(c.transcript, TranscriptMask(cursor, index, symbol, domain), TranscriptTurn(symbol, domain),
      TranscriptOffset(axis, amount, feedback));
    ControllerState(axis, amount, feedback, transcript)
  }

  /** The injection taken back: transcript first, then feedback, amount and axis. */
  function WithdrawSymbol(c: ControllerState, cursor: Coord, index: u64, symbol: byte, domain: Domain): ControllerState {
    var transcript := SubTurnXor64(c.transcript, TranscriptMask(cursor, index, symbol, domain), TranscriptTurn(symbol, domain),
      TranscriptOffset(c.axis, c.amount, c.feedback));
    var feedback := SubTurnXor32(c.feedback, FeedbackMask(transcript, cursor, symbol, domain), 7 + index % 16,
      FeedbackOffset(c.axis, c.amount));
    var amount := XorTurnSub(c.amount, AmountOffset(symbol, index), 5 + index / 2 % 8,
      AmountMask(feedback, transcript, c.axis, symbol, domain));
    var axis := SubTurnXor16(c.axis, AxisMask(feedback, symbol, index), 3 + index % 8,
      AxisOffset(transcript, cursor, index, domain));
    ControllerState(axis, amount, feedback, transcript)
  }

  lemma SumMinus16(a: bv16, b: bv16)
    ensures Minus16(a + b, b) == a
    ensures Plus16(a - b, b) == a
  {
  }

  lemma PlusMinus16(a: bv16, b: bv16)
    ensures Minus16(Plus16(a, b), b) == a
  {
    SumMinus16(a, b);
    hide Minus16;
  }

  lemma MinusPlus16(a: bv16, b: bv16)
    ensures Plus16(Minus16(a, b), b) == a
  {
    SumMinus16(a, b);
    hide Plus16;
  }

  lemma TakeXor16(a: bv16, b: bv16, mixed: bv16)
    requires mixed == a ^ b
    ensures mixed ^ b == a
  {
  }

  lemma XorTurnAddUndone16(v: bv16, mask: bv16, n: nat, offset: bv16)
    ensures SubTurnXor16(XorTurnAdd16(v, mask, n, offset), mask, n, offset) == v
  {
    hide Rotl16, Rotr16, Plus16, Minus16;
    PlusMinus16(Rotl16(v ^ mask, n), offset);
    Rotations16(v ^ mask, n);
    TakeXor16(v, mask, Rotr16(Minus16(XorTurnAdd16(v, mask, n, offset), offset), n));
  }

  lemma SubTurnXorUndone16(v: bv16, mask: bv16, n: nat, offset: bv16)
    ensures XorTurnAdd16(SubTurnXor16(v, mask, n, offset), mask, n, offset) == v
  {
    hide Rotl16, Rotr16, Plus16, Minus16;
    TakeXor16(Rotr16(Minus16(v, offset), n), mask, SubTurnXor16(v, mask, n, offset));
    Rotations16(Minus16(v, offset), n);
    MinusPlus16(v, offset);
  }

  lemma SumMinus32(a: bv32, b: bv32)
    ensures Minus32(a + b, b) == a
    ensures Plus32(a - b, b) == a
  {
  }

  lemma PlusMinus32(a: bv32, b: bv32)
    ensures Minus32(Plus32(a, b), b) == a
  {
    SumMinus32(a, b);
    hide Minus32;
  }

  lemma MinusPlus32(a: bv32, b: bv32)
    ensures Plus32(Minus32(a, b), b) == a
  {
    SumMinus32(a, b);
    hide Plus32;
  }

  lemma TakeXor32(a: bv32, b: bv32, mixed: bv32)
    requires mixed == a ^ b
    ensures mixed ^ b == a
  {
  }

  lemma XorTurnAddUndone32(v: bv32, mask: bv32, n: nat, offset: bv32)
    ensures SubTurnXor32(XorTurnAdd32(v, mask, n, offset), mask, n, offset) == v
  {
    hide Rotl32, Rotr32, Plus32, Minus32;
    PlusMinus32(Rotl32(v ^ mask, n), offset);
    Rotations32(v ^ mask, n);
    TakeXor32(v, mask, Rotr32(Minus32(XorTurnAdd32(v, mask, n, offset), offset), n));
  }

  lemma SubTurnXorUndone32(v: bv32, mask: bv32, n: nat, offset: bv32)
    ensures XorTurnAdd32(SubTurnXor32(v, mask, n, offset), mask, n, offset) == v
  {
    hide Rotl32, Rotr32, Plus32, Minus32;
    TakeXor32(Rotr32(Minus32(v, offset), n), mask, SubTurnXor32(v, mask, n, offset));
    Rotations32(Minus32(v, offset), n);
    MinusPlus32(v, offset);
  }

  lemma SumMinus64(a: bv64, b: bv64)
    ensures Minus64(a + b, b) == a
    ensures Plus64(a - b, b) == a
  {
  }

  lemma PlusMinus64(a: bv64, b: bv64)
    ensures Minus64(Plus64(a, b), b) == a
  {
    SumMinus64(a, b);
    hide Minus64;
  }

  lemma MinusPlus64(a: bv64, b: bv64)
    ensures Plus64(Minus64(a, b), b) == a
  {
    SumMinus64(a, b);
    hide Plus64;
  }

  lemma TakeXor64(a: bv64, b: bv64, mixed: bv64)
    requires mixed == a ^ b
    ensures mixed ^ b == a
  {
  }

  lemma XorTurnAddUndone64(v: bv64, mask: bv64, n: nat, offset: bv64)
    ensures SubTurnXor64(XorTurnAdd64(v, mask, n, offset), mask, n, offset) == v
  {
    hide Rotl64, Rotr64, Plus64, Minus64;
    PlusMinus64(Rotl64(v ^ mask, n), offset);
    Rotations64(v ^ mask, n);
    TakeXor64(v, mask, Rotr64(Minus64(XorTurnAdd64(v, mask, n, offset), offset), n));
  }

  lemma SubTurnXorUndone64(v: bv64, mask: bv64, n: nat, offset: bv64)
    ensures XorTurnAdd64(SubTurnXor64(v, mask, n, offset), mask, n, offset) == v
  {
    hide Rotl64, Rotr64, Plus64, Minus64;
    TakeXor64(Rotr64(Minus64(v, offset), n), mask, SubTurnXor64(v, mask, n, offset));
    Rotations64(Minus64(v, offset), n);
    MinusPlus64(v, offset);
  }

  /** A round v -> rotl(v ^ mask, n) + offset keeps different words apart. */
  lemma RoundSeparates32(v: bv32, w: bv32, mask: bv32, n: nat, offset: bv32)
    ensures XorTurnAdd32(v, mask, n, offset) == XorTurnAdd32(w, mask, n, offset) <==> v == w
  {
    hide *;
    XorTurnAddUndone32(v, mask, n, offset);
    XorTurnAddUndone32(w, mask, n, offset);
  }

  lemma RoundSeparates16(v: bv16, w: bv16, mask: bv16, n: nat, offset: bv16)
    ensures XorTurnAdd16(v, mask, n, offset) == XorTurnAdd16(w, mask, n, offset) <==> v == w
  {
    hide *;
    XorTurnAddUndone16(v, mask, n, offset);
    XorTurnAddUndone16(w, mask, n, offset);
  }

  lemma RoundSeparates64(v: bv64, w: bv64, mask: bv64, n: nat, offset: bv64)
    ensures XorTurnAdd64(v, mask, n, offset) == XorTurnAdd64(w, mask, n, offset) <==> v == w
  {
    hide *;
    XorTurnAddUndone64(v, mask, n, offset);
    XorTurnAddUndone64(w, mask, n, offset);
  }

  lemma AddTurnXorUndone(v: bv16, offset: bv16, n: nat, mask: bv16)
    ensures XorTurnSub(AddTurnXor(v, offset, n, mask), offset, n, mask) == v
  {
    hide Rotl16, Rotr16, Plus16, Minus16;
    TakeXor16(Rotl16(Plus16(v, offset), n), mask, AddTurnXor(v, offset, n, mask));
    Rotations16(Plus16(v, offset), n);
    PlusMinus16(v, offset);
  }

  lemma SumSeparates(v: bv16, w: bv16, offset: bv16, n: nat, mask: bv16)
    ensures AddTurnXor(v, offset, n, mask) == AddTurnXor(w, offset, n, mask) <==> v == w
  {
    hide *;
    AddTurnXorUndone(v, offset, n, mask);
    AddTurnXorUndone(w, offset, n, mask);
  }

  lemma XorTurnSubUndone(v: bv16, offset: bv16, n: nat, mask: bv16)
    ensures AddTurnXor(XorTurnSub(v, offset, n, mask), offset, n, mask) == v
  {
    hide Rotl16, Rotr16, Plus16, Minus16;
    MinusPlus16(Rotr16(v ^ mask, n), offset);
    Rotations16(v ^ mask, n);
    TakeXor16(v, mask, Rotl16(Plus16(XorTurnSub(v, offset, n, mask), offset), n));
  }

  /** For every symbol, domain, cursor and index the injection loses nothing of the 128-bit controller... */
  lemma WithdrawInject(c: ControllerState, cursor: Coord, index: u64, symbol: byte, domain: Domain)
    ensures WithdrawSymbol(InjectSymbol(c, cursor, index, symbol, domain), cursor, index, symbol, domain) == c
  {
    hide AxisMask, AxisOffset, AmountMask, AmountOffset, FeedbackMask, FeedbackOffset, TranscriptMask, TranscriptOffset, TranscriptTurn,
      XorTurnAdd16, XorTurnAdd32, XorTurnAdd64, SubTurnXor16, SubTurnXor32, SubTurnXor64, AddTurnXor, XorTurnSub;
    var d := InjectSymbol(c, cursor, index, symbol, domain);
    XorTurnAddUndone64(c.transcript, TranscriptMask(cursor, index, symbol, domain), TranscriptTurn(symbol, domain), TranscriptOffset(d.axis, d.amount, d.feedback));
    XorTurnAddUndone32(c.feedback, FeedbackMask(c.transcript, cursor, symbol, domain), 7 + index % 16, FeedbackOffset(d.axis, d.amount));
    AddTurnXorUndone(c.amount, AmountOffset(symbol, index), 5 + index / 2 % 8, AmountMask(c.feedback, c.transcript, d.axis, symbol, domain));
    XorTurnAddUndone16(c.axis, AxisMask(c.feedback, symbol, index), 3 + index % 8, AxisOffset(c.transcript, cursor, index, domain));
  }

  /** ...and every controller state is reached from exactly one other. */
  lemma InjectWithdraw(d: ControllerState, cursor: Coord, index: u64, symbol: byte, domain: Domain)
    ensures InjectSymbol(WithdrawSymbol(d, cursor, index, symbol, domain), cursor, index, symbol, domain) == d
  {
    hide AxisMask, AxisOffset, AmountMask, AmountOffset, FeedbackMask, FeedbackOffset, TranscriptMask, TranscriptOffset, TranscriptTurn,
      XorTurnAdd16, XorTurnAdd32, XorTurnAdd64, SubTurnXor16, SubTurnXor32, SubTurnXor64, AddTurnXor, XorTurnSub;
    var c := WithdrawSymbol(d, cursor, index, symbol, domain);
    SubTurnXorUndone16(d.axis, AxisMask(c.feedback, symbol, index), 3 + index % 8, AxisOffset(c.transcript, cursor, index, domain));
    XorTurnSubUndone(d.amount, AmountOffset(symbol, index), 5 + index / 2 % 8, AmountMask(c.feedback, c.transcript, d.axis, symbol, domain));
    SubTurnXorUndone32(d.feedback, FeedbackMask(c.transcript, cursor, symbol, domain), 7 + index % 16, FeedbackOffset(d.axis, d.amount));
    SubTurnXorUndone64(d.transcript, TranscriptMask(cursor, index, symbol, domain), TranscriptTurn(symbol, domain), TranscriptOffset(d.axis, d.amount, d.feedback));
  }

  lemma SymbolWordIsInjective(s: byte, t: byte)
    requires SymbolWord(s) == SymbolWord(t)
    ensures s == t
  {
    hide Rotl8;
  }

  lemma Unmask(s: bv16, t: bv16, rest: bv16)
    requires s ^ rest == t ^ rest
    ensures s == t
  {
  }

  lemma MaskRecovered(v: bv16, s: bv16, t: bv16, n: nat, offset: bv16)
    requires XorTurnAdd16(v, s, n, offset) == XorTurnAdd16(v, t, n, offset)
    ensures s == t
  {
    hide Rotl16, Rotr16, Plus16, Minus16;
    PlusMinus16(Rotl16(v ^ s, n), offset);
    PlusMinus16(Rotl16(v ^ t, n), offset);
    Rotations16(v ^ s, n);
    Rotations16(v ^ t, n);
    SameMask(v, s, t, Rotr16(Minus16(XorTurnAdd16(v, s, n, offset), offset), n));
  }

  lemma SameMask(v: bv16, s: bv16, t: bv16, mixed: bv16)
    requires mixed == v ^ s && mixed == v ^ t
    ensures s == t
  {
  }

  lemma MaskSeparates(feedback: bv32, index: u64, s: byte, t: byte)
    requires AxisMask(feedback, s, index) == AxisMask(feedback, t, index)
    ensures s == t
  {
    hide SymbolWord, AxisMaskRest;
    Unmask(SymbolWord(s), SymbolWord(t), AxisMaskRest(feedback, index));
    SymbolWordIsInjective(s, t);
  }

  /** From one state, different symbols give different axis words. */
  lemma SymbolsSeparate(c: ControllerState, cursor: Coord, index: u64, s: byte, t: byte, domain: Domain)
    requires InjectSymbol(c, cursor, index, s, domain).axis == InjectSymbol(c, cursor, index, t, domain).axis
    ensures s == t
  {
    hide AxisMask, AxisOffset, AmountMask, AmountOffset, FeedbackMask, FeedbackOffset, TranscriptMask, TranscriptOffset, TranscriptTurn,
      XorTurnAdd16, XorTurnAdd32, XorTurnAdd64, AddTurnXor;
    MaskRecovered(c.axis, AxisMask(c.feedback, s, index), AxisMask(c.feedback, t, index), 3 + index % 8,
      AxisOffset(c.transcript, cursor, index, domain));
    MaskSeparates(c.feedback, index, s, t);
  }
}
