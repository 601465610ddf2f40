/** What the words of a move and of the return pass keep apart: which changes of the input are seen in the result. */
module Separation {
  import opened Foundations
  import opened Words
  import opened CubeGeometry
  import opened Machine
  import opened Injection
  import opened ControllerA2
  import B = ControllerB

  // ----- the line is folded into the controller -----

  lemma HalvesDetermine(f: bv32, g: bv32)
    ensures Low16(f as bv64) == Low16(g as bv64) && HighHalf(f) == HighHalf(g) ==> f == g
  {
  }

  lemma NextFeedbackSeparates(x: Context<ControllerState>, e: Effect, l: bv32, k: bv32)
    ensures NextFeedback(x, e, l) == NextFeedback(x, e, k) <==> l == k
  {
    hide XorTurnAdd32, FeedbackInput, FeedbackSum;
    RoundSeparates32(l, k, FeedbackInput(x, e), 5 + e.decision.amount + AxisCode(e.decision.axis), FeedbackSum(x, e));
  }

  lemma NextAxisSeparates(x: Context<ControllerState>, e: Effect, f: bv32, g: bv32)
    ensures NextAxisWord(x, e, f) == NextAxisWord(x, e, g) <==> Low16(f as bv64) == Low16(g as bv64)
  {
    hide AddTurnXor, AxisInput, AxisMix, Low16;
    SumSeparates(Low16(f as bv64), Low16(g as bv64), AxisInput(x, e), 3 + e.decision.amount, AxisMix(x, e));
  }

  lemma NextAmountSeparates(x: Context<ControllerState>, e: Effect, f: bv32, g: bv32)
    ensures NextAmountWord(x, e, f) == NextAmountWord(x, e, g) <==> HighHalf(f) == HighHalf(g)
  {
    hide XorTurnAdd16, AmountInput, AmountSum, HighHalf;
    RoundSeparates16(HighHalf(f), HighHalf(g), AmountInput(x, e), 7 + AxisCode(e.decision.axis) + x.phase, AmountSum(x, e));
  }

  /** After a move the controller separates line feedbacks: already its axis and amount words, that is 32 of
      its 128 bits, are equal for one feedback only, and so is its feedback word. */
  lemma UpdateSeparatesLines(x: Context<ControllerState>, e: Effect, l: bv32, k: bv32)
    ensures UpdatedWith(x, e, l) == UpdatedWith(x, e, k) <==> l == k
    ensures UpdatedWith(x, e, l).feedback == UpdatedWith(x, e, k).feedback <==> l == k
    ensures UpdatedWith(x, e, l).axis == UpdatedWith(x, e, k).axis && UpdatedWith(x, e, l).amount == UpdatedWith(x, e, k).amount
            <==> l == k
  {
    hide NextFeedback, NextAxisWord, NextAmountWord, NextTranscript, Low16, HighHalf;
    var (f, g) := (NextFeedback(x, e, l), NextFeedback(x, e, k));
    NextFeedbackSeparates(x, e, l, k);
    NextAxisSeparates(x, e, f, g);
    NextAmountSeparates(x, e, f, g);
    HalvesDetermine(f, g);
  }

  lemma MoveWordKeeps(l: bv32, k: bv32, a: bv32, b: bv32)
    ensures MoveWord(l, a) == MoveWord(k, b) ==> l == k && a == b
  {
    hide MoveWord, Low32, HighWord;
    MoveWordParts(l, a);
    MoveWordParts(k, b);
  }

  function HighWord(v: bv64): bv32 {
    Low32(v >> 32)
  }

  lemma MoveWordParts(l: bv32, a: bv32)
    ensures Low32(MoveWord(l, a)) == l && HighWord(MoveWord(l, a)) == a
  {
  }

  lemma JoinedKeeps(v: bv16, w: bv16, c: bv16, d: bv16)
    ensures JoinedWords(v, c) == JoinedWords(w, d) ==> v == w && c == d
  {
  }

  lemma PairKeeps(a: byte, b: byte, c: byte, d: byte)
    ensures Pair(a, b) == Pair(c, d) ==> a == c && b == d
  {
  }

  lemma EventDetermines(x: Context<ControllerState>, y: Context<ControllerState>, e: Effect, f: Effect)
    requires EventAt(x, e) == EventAt(y, f)
    ensures x.symbol == y.symbol && e.cursorAfter == f.cursorAfter
    ensures Wrap8(x.phase) ^ DomainCode(x.domain) == Wrap8(y.phase) ^ DomainCode(y.domain)
  {
    hide Pair, JoinedWords, CoordinateWord, Wrap8, DomainCode;
    JoinedKeeps(EventSymbol(x), EventSymbol(y), CoordinateWord(e.cursorAfter), CoordinateWord(f.cursorAfter));
    PairKeeps(x.symbol, Wrap8(x.phase) ^ DomainCode(x.domain), y.symbol, Wrap8(y.phase) ^ DomainCode(y.domain));
    CoordinateWordIsInjective(e.cursorAfter, f.cursorAfter);
  }

  lemma TranscriptSeparates(x: Context<ControllerState>, y: Context<ControllerState>, e: Effect, f: Effect, l: bv32, k: bv32)
    requires UpdatedWith(x, e, l) == UpdatedWith(y, f, k) && x.injected.transcript == y.injected.transcript
    requires e.decision == f.decision && e.probed == f.probed
    ensures l == k && EventAt(x, e) == EventAt(y, f)
  {
    hide NextFeedback, NextAxisWord, NextAmountWord, MoveWord, TranscriptMix, EventAt, XorTurnAdd64, Nth;
    var u := UpdatedWith(x, e, l);
    RoundSeparates64(MoveWord(l, EventAt(x, e)), MoveWord(k, EventAt(y, f)), x.injected.transcript,
      13 + e.decision.amount + 7 * AxisCode(e.decision.axis),
      TranscriptMix(Nth(e.probed, 0), Nth(e.probed, 2), u.axis, u.amount, u.feedback));
    MoveWordKeeps(l, k, EventAt(x, e), EventAt(y, f));
  }

  /** Two moves of one decision that meet the same probes and transcript reach the same controller only with the
      same symbol, the same new cursor and the same line feedback, whatever else differs. */
  lemma UpdateSeparatesMoves(x: Context<ControllerState>, y: Context<ControllerState>, e: Effect, f: Effect)
    requires UpdateWords(x, e) == UpdateWords(y, f) && x.injected.transcript == y.injected.transcript
    requires e.decision == f.decision && e.probed == f.probed
    ensures x.symbol == y.symbol && e.cursorAfter == f.cursorAfter
    ensures LineFeedback(e, x.phase, 8) == LineFeedback(f, y.phase, 8)
    ensures Wrap8(x.phase) ^ DomainCode(x.domain) == Wrap8(y.phase) ^ DomainCode(y.domain)
  {
    UpdateIs(x, e);
    UpdateIs(y, f);
    hide *;
    TranscriptSeparates(x, y, e, f, LineFeedback(e, x.phase, 8), LineFeedback(f, y.phase, 8));
    EventDetermines(x, y, e, f);
  }

  lemma UpdateIs(x: Context<ControllerState>, e: Effect)
    ensures UpdateWords(x, e) == UpdatedWith(x, e, LineFeedback(e, x.phase, 8))
  {
    hide UpdatedWith, LineFeedback;
  }

  /** The same move up to the new cursor. */
  predicate SameMove(e: Effect, f: Effect) {
    SameLines(e, f) && e.probed == f.probed && e.probedAfter == f.probedAfter && e.scanned == f.scanned
  }

  /** So the updated controller is equal exactly for one cursor. */
  lemma UpdateSeparatesCursors(x: Context<ControllerState>, e: Effect, f: Effect)
    requires SameMove(e, f)
    ensures UpdateWords(x, e) == UpdateWords(x, f) <==> e.cursorAfter == f.cursorAfter
  {
    hide UpdateWords;
    if UpdateWords(x, e) == UpdateWords(x, f) { UpdateSeparatesMoves(x, x, e, f); }
    if e.cursorAfter == f.cursorAfter { assert e == f; }
  }

  // ----- the words a decision is taken on -----

  /** The same context with other axis, amount or transcript words. */
  function WithWords(x: Context<ControllerState>, axis: bv16, amount: bv16): Context<ControllerState> {
    x.(injected := x.injected.(axis := axis, amount := amount))
  }

  /** The axis word is equal for one axis control only, the amount word for one amount control only. */
  lemma DecisionWordsSeparate(x: Context<ControllerState>, axis: Axis, probed: seq<byte>, a: bv16, b: bv16)
    ensures AxisWord(WithWords(x, a, x.injected.amount), probed) == AxisWord(WithWords(x, b, x.injected.amount), probed) <==> a == b
    ensures AmountWord(WithWords(x, x.injected.axis, a), axis, probed) == AmountWord(WithWords(x, x.injected.axis, b), axis, probed)
            <==> a == b
  {
    AxisWordSeparates(x, probed, a, b);
    AmountWordSeparates(x, axis, probed, a, b);
    hide *;
  }

  lemma AxisWordSeparates(x: Context<ControllerState>, probed: seq<byte>, a: bv16, b: bv16)
    ensures AxisWord(WithWords(x, a, x.injected.amount), probed) == AxisWord(WithWords(x, b, x.injected.amount), probed) <==> a == b
  {
    hide XorTurnAdd16, Pair, Nth, AxisWordSum;
    var (p0, p1) := (Nth(probed, 0), Nth(probed, 1));
    RoundSeparates16(a, b, Pair(p0, p1), 1 + (x.phase + p0 as nat) % 16,
      AxisWordSum(x.injected.feedback, x.cursor, x.domain, x.phase));
  }

  lemma AmountWordSeparates(x: Context<ControllerState>, axis: Axis, probed: seq<byte>, a: bv16, b: bv16)
    ensures AmountWord(WithWords(x, x.injected.axis, a), axis, probed) == AmountWord(WithWords(x, x.injected.axis, b), axis, probed)
            <==> a == b
  {
    hide AddTurnXor, AmountWordPair, AmountWordMix, AmountTurn, Nth, Byte64;
    SumSeparates(a, b, AmountWordPair(x.injected.axis, probed), AmountTurn(x.phase, Nth(probed, 3)),
      AmountWordMix(x.injected.feedback, Byte64(x.injected.transcript, x.phase + 4), x.domain, axis));
  }

  // ----- domain entry -----

  /** Over the same diagonal bytes a domain change loses nothing: the controller entered is equal exactly for one
      controller, under one length, and for one length, from one transcript. */
  lemma EnterSeparates(c: ControllerState, e: ControllerState, domain: Domain, length: bv64, other: bv64, d: seq<byte>)
    requires length == other || c.transcript == e.transcript
    ensures EnterWords(c, domain, length, d) == EnterWords(e, domain, other, d) <==> c == e && length == other
  {
    if EnterWords(c, domain, length, d) == EnterWords(e, domain, other, d) {
      EnteredTranscript(c, e, domain, length, other, d);
      EnteredWords(c, e, domain, length, d);
    }
    hide EnterWords;
  }

  lemma EnteredTranscript(c: ControllerState, e: ControllerState, domain: Domain, length: bv64, other: bv64, d: seq<byte>)
    requires EnterWords(c, domain, length, d) == EnterWords(e, domain, other, d)
    requires length == other || c.transcript == e.transcript
    ensures c.transcript == e.transcript && length == other
  {
    hide XorTurnAdd16, XorTurnAdd32, XorTurnAdd64, AddTurnXor, EnterPair, EnterPairSum, EnterWord, EnteredAxisSum,
      EnteredAmountMix, EnteredFeedbackSum, EnteredTranscriptSum, Xor64, Raised32, DomainCode;
    var r := EnterWords(c, domain, length, d);
    RoundSeparates64(Xor64(c.transcript, length), Xor64(e.transcript, other), Raised32(EnterWord(domain, d)),
      17 + (DomainCode(domain) & 31) as nat, EnteredTranscriptSum(r.axis, r.amount, r.feedback));
    UnXor(c.transcript, e.transcript, length);
    UnXor(length, other, c.transcript);
  }

  lemma EnteredWords(c: ControllerState, e: ControllerState, domain: Domain, length: bv64, d: seq<byte>)
    requires EnterWords(c, domain, length, d) == EnterWords(e, domain, length, d)
    requires c.transcript == e.transcript
    ensures c == e
  {
    hide XorTurnAdd16, XorTurnAdd32, XorTurnAdd64, AddTurnXor, EnterPair, EnterPairSum, EnterWord, EnteredAxisSum,
      EnteredAmountMix, EnteredFeedbackSum, EnteredTranscriptSum, Xor64, Raised32, DomainCode;
    var r := EnterWords(c, domain, length, d);
    var turn := DomainCode(domain);
    RoundSeparates32(c.feedback, e.feedback, EnterWord(domain, d), 11 + (turn & 15) as nat,
      EnteredFeedbackSum(r.axis, r.amount, length));
    RoundSeparates16(c.axis, e.axis, EnterPair(length, d), 5 + (turn & 7) as nat, EnteredAxisSum(c.transcript, domain));
    SumSeparates(c.amount, e.amount, EnterPairSum(length, d), 9 + ((turn >> 2) & 7) as nat,
      EnteredAmountMix(c.feedback, c.axis, domain));
  }

  lemma DomainCodeIsInjective(d: Domain, e: Domain)
    ensures DomainCode(d) == DomainCode(e) ==> d == e
  {
  }

  lemma DomainWordIsInjective(d: Domain, e: Domain)
    ensures DomainWord(d) == DomainWord(e) ==> d == e
  {
    hide DomainCode, Rotl8, Pair;
    PairKeeps(DomainCode(d), Rotl8(DomainCode(d), 5), DomainCode(e), Rotl8(DomainCode(e), 5));
    DomainCodeIsInjective(d, e);
  }

  lemma FeedbackMaskRecovered(v: bv32, m: bv32, k: bv32, n: nat, offset: bv32)
    requires XorTurnAdd32(v, m, n, offset) == XorTurnAdd32(v, k, n, offset)
    ensures m == k
  {
    hide Rotl32, Rotr32, Plus32, Minus32;
    PlusMinus32(Rotl32(v ^ m, n), offset);
    PlusMinus32(Rotl32(v ^ k, n), offset);
    Rotations32(v ^ m, n);
    Rotations32(v ^ k, n);
    SameMask32(v, m, k);
  }

  lemma SameMask32(v: bv32, m: bv32, k: bv32)
    requires v ^ m == v ^ k
    ensures m == k
  {
  }

  lemma PlacedParts(s: bv16, d: bv16, p: bv16, t: bv16, e: bv16, q: bv16)
    requires PlacedEvent(s, d, p) == PlacedEvent(t, e, q)
    ensures d == e && Xor16(s, p) == Xor16(t, q)
  {
  }

  lemma SymbolWordDetermines(s: byte, t: byte)
    ensures SymbolWord(s) == SymbolWord(t) ==> s == t
  {
    hide SymbolWord;
    if SymbolWord(s) == SymbolWord(t) { SymbolWordIsInjective(s, t); }
  }

  lemma BothOrNeither(s: bv16, p: bv16, t: bv16, q: bv16)
    requires Xor16(s, p) == Xor16(t, q)
    ensures s == t ==> p == q
    ensures p == q ==> s == t
  {
  }

  lemma Unmask32(u: bv32, v: bv32, rest: bv32)
    requires u ^ rest == v ^ rest
    ensures u == v
  {
  }

  /** From one controller and index an injection shows its domain, whatever the symbols and cursors; and with it
      the symbol for one cursor and the cursor for one symbol. */
  lemma InjectionSeparates(c: ControllerState, index: u64, p: Coord, q: Coord, s: byte, t: byte, d: Domain, e: Domain)
    requires InjectSymbol(c, p, index, s, d) == InjectSymbol(c, q, index, t, e)
    ensures d == e && (s == t <==> p == q)
  {
    InjectedMask(c, index, p, q, s, t, d, e);
    hide *;
    SameEventPlaces(c.transcript, p, q, s, t, d, e);
    DomainWordIsInjective(d, e);
    CoordinateWordIsInjective(p, q);
    BothOrNeither(SymbolWord(s), CoordinateWord(p), SymbolWord(t), CoordinateWord(q));
    SymbolWordDetermines(s, t);
  }

  lemma SameEventPlaces(transcript: bv64, p: Coord, q: Coord, s: byte, t: byte, d: Domain, e: Domain)
    requires FeedbackMask(transcript, p, s, d) == FeedbackMask(transcript, q, t, e)
    ensures DomainWord(d) == DomainWord(e)
    ensures Xor16(SymbolWord(s), CoordinateWord(p)) == Xor16(SymbolWord(t), CoordinateWord(q))
  {
    hide SymbolWord, DomainWord, CoordinateWord, Fold64To32, PlacedEvent;
    Unmask32(PlacedEvent(SymbolWord(s), DomainWord(d), CoordinateWord(p)),
             PlacedEvent(SymbolWord(t), DomainWord(e), CoordinateWord(q)), Fold64To32(transcript));
    PlacedParts(SymbolWord(s), DomainWord(d), CoordinateWord(p), SymbolWord(t), DomainWord(e), CoordinateWord(q));
  }

  lemma InjectedMask(c: ControllerState, index: u64, p: Coord, q: Coord, s: byte, t: byte, d: Domain, e: Domain)
    requires InjectSymbol(c, p, index, s, d) == InjectSymbol(c, q, index, t, e)
    ensures FeedbackMask(c.transcript, p, s, d) == FeedbackMask(c.transcript, q, t, e)
  {
    hide AxisMask, AxisOffset, AmountMask, AmountOffset, FeedbackMask, FeedbackOffset, TranscriptMask, TranscriptOffset, TranscriptTurn,
      XorTurnAdd16, XorTurnAdd32, XorTurnAdd64, AddTurnXor;
    var r := InjectSymbol(c, p, index, s, d);
    FeedbackMaskRecovered(c.feedback, FeedbackMask(c.transcript, p, s, d), FeedbackMask(c.transcript, q, t, e), 7 + index % 16,
      FeedbackOffset(r.axis, r.amount));
  }

  // ----- the return pass and the output -----

  /** The symbol folded back shows the message byte. */
  lemma ReturnedSymbolSeparates(snapshot: State<ControllerState>, current: State<ControllerState>, a: byte, b: byte, length: u64, reverse: nat)
    ensures ReturnedSymbol(snapshot, current, a, length, reverse) == ReturnedSymbol(snapshot, current, b, length, reverse) <==> a == b
  {
    hide ReturnMask, Xor8;
    Xor8Shows(a, b, ReturnMask(snapshot, current, length, reverse));
  }

  lemma ReturnedSymbolBSeparates(snapshot: State<B.ControllerStateB>, current: State<B.ControllerStateB>, a: byte, b: byte, length: u64, reverse: nat)
    ensures B.ReturnedSymbolB(snapshot, current, a, length, reverse) == B.ReturnedSymbolB(snapshot, current, b, length, reverse) <==> a == b
  {
    hide B.ReturnMaskB, Xor8;
    Xor8Shows(a, b, B.ReturnMaskB(snapshot, current, length, reverse));
  }

  /** The states differ in their cells alone. */
  predicate OnlyCells(s: State<ControllerState>, t: State<ControllerState>) {
    s == t.(cells := s.cells)
  }

  /** Between states that differ in their cells, an initial symbol shows a change of either of its two cells when the
      other is kept, and of no further cell. */
  lemma InitSymbolSeparates(s: State<ControllerState>, t: State<ControllerState>, length: u64, index: nat)
    requires OnlyCells(s, t)
    ensures var (c0, c1) := (InitCoord(s, length, index, 0), InitCoord(s, length, index, 1));
      && (Cell(s.cells, c1) == Cell(t.cells, c1) ==>
            (InitSymbol(s, length, index) == InitSymbol(t, length, index) <==> Cell(s.cells, c0) == Cell(t.cells, c0)))
      && (Cell(s.cells, c0) == Cell(t.cells, c0) ==>
            (InitSymbol(s, length, index) == InitSymbol(t, length, index) <==> Cell(s.cells, c1) == Cell(t.cells, c1)))
  {
    SameInitCoords(s, t, length, index);
    hide InitCoord, InitMask, Cell, Rotl8, Plus8, Xor8;
    var (c0, c1) := (InitCoord(s, length, index, 0), InitCoord(s, length, index, 1));
    var (a, b, v, w) := (Cell(s.cells, c0), Rotl8(Cell(s.cells, c1), index + 3), Cell(t.cells, c0), Rotl8(Cell(t.cells, c1), index + 3));
    Xor8Shows(Plus8(a, b), Plus8(v, w), InitMask(s.controller, s.previousAxis, c0, c1, length, index));
    Plus8Shows(a, v, b);
    Plus8Shows(b, w, a);
    TurnShows(Cell(s.cells, c1), Cell(t.cells, c1), index + 3);
  }

  lemma SameInitCoords(s: State<ControllerState>, t: State<ControllerState>, length: u64, index: nat)
    requires OnlyCells(s, t)
    ensures InitCoord(s, length, index, 0) == InitCoord(t, length, index, 0)
    ensures InitCoord(s, length, index, 1) == InitCoord(t, length, index, 1)
    ensures s.controller == t.controller && s.previousAxis == t.previousAxis
  {
    assert s == t.(cells := s.cells);
    hide SelectorCoord, InitSelector, Rotl64;
  }

  /** The symbol folded back shows, of two snapshots with one transcript, the one controller byte it takes; and of two
      currents with one controller, the one cell it probes. */
  lemma ReturnMaskSeparates(s: State<ControllerState>, t: State<ControllerState>, u: State<ControllerState>, v: State<ControllerState>,
      length: u64, reverse: nat)
    requires s.controller.transcript == t.controller.transcript && u.controller == v.controller
    ensures ReturnMask(s, u, length, reverse) == ReturnMask(t, u, length, reverse)
            <==> ControllerBytes(s.controller)[(reverse * 5 + 3) % 16] == ControllerBytes(t.controller)[(reverse * 5 + 3) % 16]
    ensures var c := ReturnCoord(s.controller.transcript, u.controller, reverse);
      ReturnMask(s, u, length, reverse) == ReturnMask(s, v, length, reverse) <==> Cell(u.cells, c) == Cell(v.cells, c)
  {
    var c := ReturnCoord(s.controller.transcript, u.controller, reverse);
    hide ReturnCoord, ReturnTag, ControllerBytes, Xor8, Rotl8, Cell;
    var (p, q) := (Rotl8(Cell(u.cells, c), reverse), Rotl8(Cell(v.cells, c), reverse));
    var at := (reverse * 5 + 3) % 16;
    var (a, b) := (ControllerBytes(s.controller)[at], ControllerBytes(t.controller)[at]);
    Xor8Shows(Xor8(a, p), Xor8(b, p), ReturnTag(length, reverse));
    Xor8Shows(Xor8(a, p), Xor8(a, q), ReturnTag(length, reverse));
    Xor8Shows(a, b, p);
    Xor8Shows(p, q, a);
    TurnShows(Cell(u.cells, c), Cell(v.cells, c), reverse);
  }

  /** A seal symbol shows, with the transcripts kept, the one byte it takes of each of the two controllers. */
  lemma SealedSymbolSeparates(s: State<ControllerState>, t: State<ControllerState>, u: State<ControllerState>, v: State<ControllerState>,
      length: u64, index: nat)
    requires s.controller.transcript == t.controller.transcript
    requires u.controller.transcript == v.controller.transcript && u.cells == v.cells
    ensures SealedSymbol(s, u, length, index) == SealedSymbol(t, u, length, index)
            <==> ControllerBytes(s.controller)[(index * 3 + 1) % 16] == ControllerBytes(t.controller)[(index * 3 + 1) % 16]
    ensures SealedSymbol(s, u, length, index) == SealedSymbol(s, v, length, index)
            <==> ControllerBytes(u.controller)[(index * 11 + 7) % 16] == ControllerBytes(v.controller)[(index * 11 + 7) % 16]
  {
    hide SealCoord, SealTag, ControllerBytes, Xor8, Cell;
    var (i, j) := ((index * 3 + 1) % 16, (index * 11 + 7) % 16);
    var (a, b) := (ControllerBytes(s.controller)[i], ControllerBytes(t.controller)[i]);
    var (c, d) := (ControllerBytes(u.controller)[j], ControllerBytes(v.controller)[j]);
    var rest := Xor8(Cell(u.cells, SealCoord(s.controller.transcript, u.controller.transcript, index)), SealTag(length, index));
    Xor8Shows(Xor8(a, c), Xor8(b, c), rest);
    Xor8Shows(Xor8(a, c), Xor8(a, d), rest);
    Xor8Shows(a, b, c);
    Xor8Shows(c, d, a);
  }

  // ----- the controller binding and the output -----

  lemma Bytes16Keep(v: bv16, w: bv16)
    ensures Byte16(v, 0) == Byte16(w, 0) && Byte16(v, 1) == Byte16(w, 1) ==> v == w
  {
    hide Pair, Byte16;
    BytesPair(v);
    BytesPair(w);
  }

  lemma LowPair(v: bv32)
    ensures Byte32(v, 0) == Low8(v as bv64) && Byte32(v, 1) == Low8((v >> 8) as bv64)
  {
  }

  lemma HighPair(v: bv32)
    ensures Byte32(v, 2) == Low8((v >> 16) as bv64) && Byte32(v, 3) == Low8((v >> 24) as bv64)
  {
  }

  lemma PartsJoin(v: bv32)
    ensures B.Bytes32(Low8(v as bv64), Low8((v >> 8) as bv64), Low8((v >> 16) as bv64), Low8((v >> 24) as bv64)) == v
  {
  }

  lemma BytesJoin(v: bv32)
    ensures B.Bytes32(Byte32(v, 0), Byte32(v, 1), Byte32(v, 2), Byte32(v, 3)) == v
  {
    hide Byte32, Low8, B.Bytes32;
    LowPair(v);
    HighPair(v);
    PartsJoin(v);
  }

  lemma Bytes32Keep(v: bv32, w: bv32)
    ensures Byte32(v, 0) == Byte32(w, 0) && Byte32(v, 1) == Byte32(w, 1) && Byte32(v, 2) == Byte32(w, 2) && Byte32(v, 3) == Byte32(w, 3)
            ==> v == w
  {
    hide B.Bytes32, Byte32;
    BytesJoin(v);
    BytesJoin(w);
  }

  lemma Bytes64Keep(v: bv64, w: bv64)
    ensures Byte64(v, 0) == Byte64(w, 0) && Byte64(v, 1) == Byte64(w, 1) && Byte64(v, 2) == Byte64(w, 2) && Byte64(v, 3) == Byte64(w, 3)
            && Byte64(v, 4) == Byte64(w, 4) && Byte64(v, 5) == Byte64(w, 5) && Byte64(v, 6) == Byte64(w, 6) && Byte64(v, 7) == Byte64(w, 7)
            ==> v == w
  {
  }

  /** The word that binds a controller, byte for byte masked by length and position. */
  function BoundWord(c: ControllerState, length: u64): (word: seq<byte>)
    ensures |word| == 16
  {
    seq(16, i requires 0 <= i < 16 => BindingSymbol(ControllerBytes(c)[i], length, i))
  }

  /** The bytes bound to the state determine the controller. */
  lemma BindingDetermines(c: ControllerState, d: ControllerState, length: u64)
    ensures BoundWord(c, length) == BoundWord(d, length) <==> c == d
  {
    if BoundWord(c, length) == BoundWord(d, length) {
      BoundBytes(c, d, length);
      BytesDetermine(c, d);
    }
    hide BoundWord;
  }

  lemma BoundBytes(c: ControllerState, d: ControllerState, length: u64)
    requires BoundWord(c, length) == BoundWord(d, length)
    ensures ControllerBytes(c) == ControllerBytes(d)
  {
    hide ControllerBytes, Xor8, BindingTag;
    forall i | 0 <= i < 16 ensures ControllerBytes(c)[i] == ControllerBytes(d)[i] {
      assert BoundWord(c, length)[i] == BoundWord(d, length)[i];
      Xor8Shows(ControllerBytes(c)[i], ControllerBytes(d)[i], BindingTag(length, i));
    }
  }

  lemma BytesDetermine(c: ControllerState, d: ControllerState)
    requires ControllerBytes(c) == ControllerBytes(d)
    ensures c == d
  {
    hide Byte16, Byte32, Byte64;
    var (s, t) := (ControllerBytes(c), ControllerBytes(d));
    assert forall i :: 0 <= i < 16 ==> s[i] == t[i];
    Bytes16Keep(c.axis, d.axis);
    Bytes16Keep(c.amount, d.amount);
    Bytes32Keep(c.feedback, d.feedback);
    Bytes64Keep(c.transcript, d.transcript);
  }

  lemma LaneBytesKeep(v: bv32, w: bv32)
    ensures B.LaneBytes(v) == B.LaneBytes(w) ==> v == w
  {
    hide Byte32;
    Bytes32Keep(v, w);
  }

  lemma PathBytesKeep(v: bv64, w: bv64)
    ensures B.PathBytes(v) == B.PathBytes(w) ==> v == w
  {
    hide Byte64;
    Bytes64Keep(v, w);
  }

  function BoundWordB(c: B.ControllerStateB, length: u64): (word: seq<byte>)
    ensures |word| == 24
  {
    seq(24, i requires 0 <= i < 24 => B.BindingSymbolB(B.ControllerBytesB(c)[i], length, i))
  }

  lemma BindingDeterminesB(c: B.ControllerStateB, d: B.ControllerStateB, length: u64)
    ensures BoundWordB(c, length) == BoundWordB(d, length) <==> c == d
  {
    if BoundWordB(c, length) == BoundWordB(d, length) {
      BoundBytesB(c, d, length);
      BytesDetermineB(c, d);
    }
    hide BoundWordB;
  }

  lemma BoundBytesB(c: B.ControllerStateB, d: B.ControllerStateB, length: u64)
    requires BoundWordB(c, length) == BoundWordB(d, length)
    ensures B.ControllerBytesB(c) == B.ControllerBytesB(d)
  {
    hide B.ControllerBytesB, Xor8, B.BindingTagB;
    forall i | 0 <= i < 24 ensures B.ControllerBytesB(c)[i] == B.ControllerBytesB(d)[i] {
      assert BoundWordB(c, length)[i] == BoundWordB(d, length)[i];
      Xor8Shows(B.ControllerBytesB(c)[i], B.ControllerBytesB(d)[i], B.BindingTagB(length, i));
    }
  }

  lemma SplitFour<T>(a: seq<T>, b: seq<T>, x: seq<T>, y: seq<T>)
    requires |a| == |b| && x + a == y + b
    ensures a == b && x == y
  {
    assert |x| == |y|;
    assert (x + a)[..|x|] == x && (y + b)[..|y|] == y;
    assert (x + a)[|x|..] == a && (y + b)[|y|..] == b;
  }

  lemma BytesDetermineB(c: B.ControllerStateB, d: B.ControllerStateB)
    requires B.ControllerBytesB(c) == B.ControllerBytesB(d)
    ensures c == d
  {
    hide B.LaneBytes, B.PathBytes;
    var (l0, l1, l2, l3) := (B.LaneBytes(c.lane0), B.LaneBytes(c.lane1), B.LaneBytes(c.lane2), B.LaneBytes(c.lane3));
    var (m0, m1, m2, m3) := (B.LaneBytes(d.lane0), B.LaneBytes(d.lane1), B.LaneBytes(d.lane2), B.LaneBytes(d.lane3));
    SplitFour(B.PathBytes(c.path), B.PathBytes(d.path), l0 + l1 + l2 + l3, m0 + m1 + m2 + m3);
    SplitFour(l3, m3, l0 + l1 + l2, m0 + m1 + m2);
    SplitFour(l2, m2, l0 + l1, m0 + m1);
    SplitFour(l1, m1, l0, m0);
    PathBytesKeep(c.path, d.path);
    LaneBytesKeep(c.lane0, d.lane0);
    LaneBytesKeep(c.lane1, d.lane1);
    LaneBytesKeep(c.lane2, d.lane2);
    LaneBytesKeep(c.lane3, d.lane3);
  }

  function Unmix(v: byte, z: byte, y: byte): byte {
    (v ^ z) - y
  }

  function UnmixB(v: byte, x: byte, y: byte): byte {
    (v ^ x) - y
  }

  function Third(v: byte, x: byte, y: byte): byte {
    v ^ (x + y)
  }

  lemma CubeMixBack(x: byte, y: byte, z: byte)
    ensures Unmix(CubeMix(x, y, z), z, y) == x
    ensures Unmix(CubeMix(x, y, z), z, x) == y
    ensures Third(CubeMix(x, y, z), x, y) == z
  {
  }

  lemma CubeMixBackB(x: byte, y: byte, z: byte)
    ensures Third(B.CubeMixB(x, y, z), y, z) == x
    ensures UnmixB(B.CubeMixB(x, y, z), x, z) == y
    ensures UnmixB(B.CubeMixB(x, y, z), x, y) == z
  {
  }

  lemma CubeMixShows(x: byte, y: byte, z: byte, other: byte)
    ensures CubeMix(x, y, z) == CubeMix(other, y, z) ==> x == other
    ensures CubeMix(x, y, z) == CubeMix(x, other, z) ==> y == other
    ensures CubeMix(x, y, z) == CubeMix(x, y, other) ==> z == other
  {
    hide *;
    CubeMixBack(x, y, z);
    CubeMixBack(other, y, z);
    CubeMixBack(x, other, z);
    CubeMixBack(x, y, other);
  }

  lemma CubeMixShowsB(x: byte, y: byte, z: byte, other: byte)
    ensures B.CubeMixB(x, y, z) == B.CubeMixB(other, y, z) ==> x == other
    ensures B.CubeMixB(x, y, z) == B.CubeMixB(x, other, z) ==> y == other
    ensures B.CubeMixB(x, y, z) == B.CubeMixB(x, y, other) ==> z == other
  {
    hide *;
    CubeMixBackB(x, y, z);
    CubeMixBackB(other, y, z);
    CubeMixBackB(x, other, z);
    CubeMixBackB(x, y, other);
  }

  /** The output byte shows a change of any one of the three cells it reads. */
  lemma OutputSeparates(c: ControllerState, round: nat, cells: seq<byte>, k: nat, v: byte)
    requires |cells| == 3 && k < 3
    ensures OutputByte(c, round, cells[k := v]) == OutputByte(c, round, cells) <==> v == cells[k]
  {
    hide Rotl8, ControllerMix, CubeMix, Sum3, Wrap8;
    var (x, y, z) := (cells[0], Rotl8(cells[1], round), Rotl8(cells[2], round + 3));
    var turned := if k == 0 then v else if k == 1 then Rotl8(v, round) else Rotl8(v, round + 3);
    var after := if k == 0 then CubeMix(turned, y, z) else if k == 1 then CubeMix(x, turned, z) else CubeMix(x, y, turned);
    SumShows(CubeMix(x, y, z), ControllerMix(c, round), Wrap8(round * 37), after);
    CubeMixShows(x, y, z, turned);
    TurnShows(v, cells[k], round);
    TurnShows(v, cells[k], round + 3);
  }

  lemma OutputSeparatesB(c: B.ControllerStateB, round: nat, cells: seq<byte>, k: nat, v: byte)
    requires |cells| == 3 && k < 3
    ensures B.OutputByteB(c, round, cells[k := v]) == B.OutputByteB(c, round, cells) <==> v == cells[k]
  {
    hide Rotl8, B.ControllerMixB, B.CubeMixB, Sum3, Wrap8;
    var (x, y, z) := (cells[0], Rotl8(cells[1], round + 1), Rotl8(cells[2], round + 5));
    var turned := if k == 0 then v else if k == 1 then Rotl8(v, round + 1) else Rotl8(v, round + 5);
    var after := if k == 0 then B.CubeMixB(turned, y, z) else if k == 1 then B.CubeMixB(x, turned, z) else B.CubeMixB(x, y, turned);
    SumShows(B.CubeMixB(x, y, z), B.ControllerMixB(c, round), Wrap8(round * 41), after);
    CubeMixShowsB(x, y, z, turned);
    TurnShows(v, cells[k], round + 1);
    TurnShows(v, cells[k], round + 5);
  }

  // ----- the axis choice -----

  function WithTranscript(x: Context<ControllerState>, t: bv64): Context<ControllerState> {
    x.(injected := x.injected.(transcript := t))
  }

  function BitAt(b: byte, k: nat): bool
    requires k < 8
  {
    IsOdd(Shifted(b, k))
  }

  function IsOdd(b: byte): bool {
    b & 1 != 0
  }

  lemma XorShiftedOnce(a: byte, b: byte)
    ensures Xor8(a, b) >> 1 == Xor8(a >> 1, b >> 1)
  {
  }

  lemma {:induction false} ShiftedXor(a: byte, b: byte, k: nat)
    ensures Shifted(Xor8(a, b), k) == Xor8(Shifted(a, k), Shifted(b, k))
  {
    hide Xor8;
    if k > 0 {
      ShiftedXor(a, b, k - 1);
      XorShiftedOnce(Shifted(a, k - 1), Shifted(b, k - 1));
    }
  }

  lemma LowBitFollows(data: byte, a: byte, b: byte, rest: bv32)
    ensures LowBit(Xor8(data, a), rest) == LowBit(Xor8(data, b), rest) <==> IsOdd(a) == IsOdd(b)
  {
  }

  lemma SelectorFollows(data: byte, a: byte, b: byte, k: nat, rest: bv32)
    requires k < 8
    ensures SelectorBit(Xor8(data, a), k, rest) == SelectorBit(Xor8(data, b), k, rest) <==> BitAt(a, k) == BitAt(b, k)
  {
    hide Shifted, LowBit, IsOdd, Xor8;
    ShiftedXor(data, a, k);
    ShiftedXor(data, b, k);
    LowBitFollows(Shifted(data, k), Shifted(a, k), Shifted(b, k), rest);
  }

  /** The axis choice follows one bit of the transcript: with the byte that selects the bit kept, two transcripts
      choose the same axis exactly when they agree in that bit. */
  lemma AxisChoiceFollowsTranscript(x: Context<ControllerState>, probed: seq<byte>, t: bv64, u: bv64)
    requires Byte64(t, x.phase + 2) == Byte64(u, x.phase + 2)
    ensures var k := AxisBit(x.domain, x.phase, Nth(probed, 1), Byte64(t, x.phase + 2));
      SecondAxis(WithTranscript(x, t), probed) == SecondAxis(WithTranscript(x, u), probed)
      <==> BitAt(Byte64(t, x.phase), k) == BitAt(Byte64(u, x.phase), k)
  {
    hide Byte64, Xor8, SelectorBit, SelectorRest, AxisData, AxisWord, AxisBit, ControlBit, Nth, BitAt;
    var k := AxisBit(x.domain, x.phase, Nth(probed, 1), Byte64(t, x.phase + 2));
    SameAxisWord(x, probed, t, u);
    SelectorFollows(AxisData(AxisWord(x, probed), Nth(probed, 0), Nth(probed, 1)), Byte64(t, x.phase), Byte64(u, x.phase), k,
      SelectorRest(x.injected.axis, x.injected.feedback, ControlBit(x.domain, x.phase, Nth(probed, 0)), k));
  }

  lemma SameAxisWord(x: Context<ControllerState>, probed: seq<byte>, t: bv64, u: bv64)
    ensures AxisWord(WithTranscript(x, t), probed) == AxisWord(x, probed)
    ensures AxisWord(WithTranscript(x, u), probed) == AxisWord(x, probed)
  {
    hide XorTurnAdd16, Nth, Pair, AxisWordSum;
  }

  // ----- starting states and probes -----

  /** The starting controller shows its 64-bit seed, whatever the cubes and cursors. */
  lemma InitialControllerSeparates(p: Coord, q: Coord, d: seq<byte>, e: seq<byte>, s: bv64, t: bv64)
    requires InitialController(p, d, s) == InitialController(q, e, t)
    ensures s == t
  {
    hide Low16, Pair, Nth, Rotl32, Low32, CoordinateWord, XorTurnAdd64, InitialSum;
    var r := InitialController(p, d, s);
    RoundSeparates64(s, t, 0x6B5D_39A7_C2E1_4F83, 19, InitialSum(r.axis, r.amount, r.feedback));
  }

  lemma InitialStateSeparatesB(c: Cells, d: Cells, s: bv64, t: bv64)
    requires B.InitialStateB(c, s).controller == B.InitialStateB(d, t).controller
    ensures s == t
  {
    hide B.Mix32, Diagonals, Low3, Low32, XorTurnAdd64, B.InitialPathSum;
    var r := B.InitialStateB(c, s).controller;
    RoundSeparates64(s, t, 0x082E_FA98_EC4E_6C89, 29, B.InitialPathSum(r.lane0, r.lane3));
  }

  lemma WrapLater(n: nat, e: nat)
    ensures (n % 8 + e) % 8 == (n + e) % 8
  {
    var q := n / 8;
    assert n == 8 * q + n % 8;
    assert (n + e) - (n % 8 + e) == 8 * q;
  }

  lemma MovesCommute(c: Coord, d: (nat, nat, nat), e: (nat, nat, nat))
    ensures Moved(Moved(c, d), e) == Moved(Moved(c, e), d)
  {
    MovedTwice(c, d, e);
    MovedTwice(c, e, d);
    assert c.x + d.0 + e.0 == c.x + e.0 + d.0 && c.y + d.1 + e.1 == c.y + e.1 + d.1 && c.z + d.2 + e.2 == c.z + e.2 + d.2;
    hide Moved;
  }

  lemma MovedTwice(c: Coord, d: (nat, nat, nat), e: (nat, nat, nat))
    ensures Moved(Moved(c, d), e) == Coord((c.x + d.0 + e.0) % 8, (c.y + d.1 + e.1) % 8, (c.z + d.2 + e.2) % 8)
  {
    WrapLater(c.x + d.0, e.0);
    WrapLater(c.y + d.1, e.1);
    WrapLater(c.z + d.2, e.2);
  }

  /** The cells probed move along with the cursor. */
  lemma ProbesFollowCursor(x: Context<ControllerState>, d: (nat, nat, nat), i: nat)
    requires i < 4
    ensures |ProbeCoords(x)| == 4
    ensures ProbeCoords(x.(cursor := Moved(x.cursor, d)))[i] == Moved(ProbeCoords(x)[i], d)
  {
    hide Offsets, Moved, Rotl16, Rotl32, Rotl64, DomainCode;
    var (c, dc) := (x.injected, DomainCode(x.domain));
    MovesCommute(x.cursor, d, Offsets(c.axis, c.feedback, c.transcript, x.phase, dc, 0));
    MovesCommute(x.cursor, d, Offsets(Rotl16(c.axis, 7), Rotl32(c.feedback, 11), Rotl64(c.transcript, 19), x.phase, dc, 3));
    MovesCommute(x.cursor, d, Offsets(c.amount, Rotl32(c.feedback, 17), Rotl64(c.transcript, 29), x.phase, dc, 5));
    MovesCommute(x.cursor, d, Offsets(Rotl16(c.amount, 9), Rotl32(c.feedback, 23), Rotl64(c.transcript, 41), x.phase, dc, 7));
  }

  // ----- controller B -----

  lemma WidenedKeeps(v: bv32, w: bv32)
    ensures B.Widened(v) == B.Widened(w) <==> v == w
  {
  }

  /** Although each lane of controller B merges pairs, the path keeps the line feedback of a move. */
  lemma UpdateSeparatesLinesB(x: Context<B.ControllerStateB>, e: Effect, l: bv32, k: bv32)
    ensures B.UpdatedWith(x, e, l) == B.UpdatedWith(x, e, k) <==> l == k
  {
    hide B.UpdatedLane0, B.UpdatedLane1, B.UpdatedLane2, B.UpdatedLane3, B.Joined, Xor64, B.Widened, XorTurnAdd64,
      B.UpdatedPathSum, B.Bytes32, Wrap8, DomainCode;
    if B.UpdatedWith(x, e, l) == B.UpdatedWith(x, e, k) {
      var r := B.UpdatedWith(x, e, l);
      var event := B.Bytes32(x.symbol, Wrap8(x.phase), DomainCode(x.domain), Wrap8(e.decision.amount));
      RoundSeparates64(B.Widened(l), B.Widened(k), Xor64(x.injected.path, B.Joined(r.lane0, r.lane2)), 17 + e.decision.amount,
        B.UpdatedPathSum(e, event, B.Joined(r.lane1, r.lane3)));
      WidenedKeeps(l, k);
    }
  }

  /** Over the same diagonal bytes a domain change of controller B separates lengths. */
  lemma EnterSeparatesB(c: B.ControllerStateB, domain: Domain, length: bv64, other: bv64, d: seq<byte>)
    ensures B.EnterWordsB(c, domain, length, d) == B.EnterWordsB(c, domain, other, d) <==> length == other
  {
    hide B.EnteredLane, B.Joined, Xor64, XorTurnAdd64, B.EnteredPathSum, DomainCode;
    if B.EnterWordsB(c, domain, length, d) == B.EnterWordsB(c, domain, other, d) {
      var r := B.EnterWordsB(c, domain, length, d);
      RoundSeparates64(Xor64(c.path, length), Xor64(c.path, other), B.Joined(r.lane0, r.lane2),
        13 + (DomainCode(domain) & 31) as nat, B.EnteredPathSum(domain, B.Joined(r.lane1, r.lane3)));
      UnXor(length, other, c.path);
    }
  }

  /** An injection of controller B separates symbols. */
  lemma InjectionSeparatesB(c: B.ControllerStateB, cursor: Coord, index: u64, s: byte, t: byte, domain: Domain)
    ensures B.InjectSymbolB(c, cursor, index, s, domain) == B.InjectSymbolB(c, cursor, index, t, domain) <==> s == t
  {
    hide B.Mix32, B.Joined, Xor64, XorTurnAdd64, B.InjectedPathSum, B.SymbolEvent, B.PlaceEvent, DomainCode, Raised32;
    if B.InjectSymbolB(c, cursor, index, s, domain) == B.InjectSymbolB(c, cursor, index, t, domain) {
      var r := B.InjectSymbolB(c, cursor, index, s, domain);
      RoundSeparates64(Raised32(B.SymbolEvent(s, domain)), Raised32(B.SymbolEvent(t, domain)),
        Xor64(c.path, B.Joined(r.lane0, r.lane2)), 19 + (index + DomainCode(domain) as nat) % 32,
        B.InjectedPathSum(B.Joined(r.lane1, r.lane3), B.PlaceEvent(c, cursor, index)));
      RaisedKeeps32(B.SymbolEvent(s, domain), B.SymbolEvent(t, domain));
      EventShowsSymbol(s, t, domain);
    }
  }

  lemma EventShowsSymbol(s: byte, t: byte, domain: Domain)
    ensures B.SymbolEvent(s, domain) == B.SymbolEvent(t, domain) ==> s == t
  {
    hide DomainCode, Rotl8, B.Bytes32;
    BytesKeep(s, Rotl8(s, 3), DomainCode(domain), Rotl8(DomainCode(domain), 5),
              t, Rotl8(t, 3), DomainCode(domain), Rotl8(DomainCode(domain), 5));
  }

  lemma BytesKeep(a: byte, b: byte, c: byte, d: byte, e: byte, f: byte, g: byte, h: byte)
    ensures B.Bytes32(a, b, c, d) == B.Bytes32(e, f, g, h) ==> a == e && b == f && c == g && d == h
  {
  }

  // ----- the amount scores of controller B -----

  /** The score of a candidate depends, among the scanned cells, on its own alone. */
  lemma ScoreIsLocal(x: Context<B.ControllerStateB>, axis: Axis, probed: seq<byte>, scanned: seq<byte>, other: seq<byte>, i: nat)
    requires i < 7 && Nth(scanned, i) == Nth(other, i)
    ensures B.AmountScores(x, axis, probed, scanned)[i] == B.AmountScores(x, axis, probed, other)[i]
  {
    hide Nth, B.AmountWordB, B.ScoreOf;
    AmountWordIsLocal(x, axis, probed, scanned, other, i + 1);
  }

  lemma AmountWordIsLocal(x: Context<B.ControllerStateB>, axis: Axis, probed: seq<byte>, scanned: seq<byte>, other: seq<byte>, candidate: nat)
    requires candidate > 0 && Nth(scanned, candidate - 1) == Nth(other, candidate - 1)
    ensures B.AmountWordB(x, axis, probed, scanned, candidate) == B.AmountWordB(x, axis, probed, other, candidate)
  {
    hide Nth, B.CandidateWord;
  }

  /** So a change of one scanned cell leaves the amount or moves it to or from that cell's candidate. */
  lemma OneScanMovesOwnCandidate(x: Context<B.ControllerStateB>, axis: Axis, probed: seq<byte>, scanned: seq<byte>, other: seq<byte>, k: nat)
    requires k < 7 && forall i: nat :: i < 7 && i != k ==> Nth(scanned, i) == Nth(other, i)
    ensures var (a, b) := (B.ChooseAmountB(x, axis, probed, scanned), B.ChooseAmountB(x, axis, probed, other));
      a == b || a == k + 1 || b == k + 1
  {
    var (s, t) := (B.AmountScores(x, axis, probed, scanned), B.AmountScores(x, axis, probed, other));
    forall i: nat | i < 7 && i != k ensures s[i] == t[i] {
      ScoreIsLocal(x, axis, probed, scanned, other, i);
    }
    hide B.AmountScores, B.Selected, Nth;
    B.SelectedIsFirstLeast(s);
    B.SelectedIsFirstLeast(t);
  }
}
