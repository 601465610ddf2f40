/** What the trace of an evaluation records: every symbol, in order, with its domain and phases.

    The recorded symbols are spelled out for the whole evaluation, so that a trace determines the key,
    the message and the output it belongs to. */
module Recorded {
  import opened Foundations
  import opened Words
  import opened CubeGeometry
  import opened Machine
  import opened Chain
  import opened Evaluation
  import opened KeySchedule

  /** The part of a move that does not depend on the cube. */
  datatype Stamp = Stamp(symbol: byte, domain: Domain, phase: nat)

  function Stamps<C>(trace: seq<Move<C>>): (stamps: seq<Stamp>)
    ensures |stamps| == |trace|
  {
    seq(|trace|, i requires 0 <= i < |trace| => Stamp(trace[i].symbol, trace[i].domain, trace[i].phase))
  }

  /** One symbol, in each of its first `n` phases. */
  function Phases(symbol: byte, domain: Domain, n: nat): (stamps: seq<Stamp>)
    ensures |stamps| == n
  {
    seq(n, (k: nat) requires k < n => Stamp(symbol, domain, k))
  }

  /** A word, symbol after symbol, `n` moves each. */
  function Spelled(word: seq<byte>, domain: Domain, n: nat): seq<Stamp> {
    if word == [] then [] else Spelled(Front(word), domain, n) + Phases(Last(word), domain, n)
  }

  lemma StampsAppend<C>(trace: seq<Move<C>>, move: Move<C>)
    ensures Stamps(trace + [move]) == Stamps(trace) + [Stamp(move.symbol, move.domain, move.phase)]
  {
  }

  lemma {:induction false} MovesStamps<C>(m: Mixing<C>, run: Run<C>, symbol: byte, domain: Domain, n: nat)
    requires n < 256
    ensures Stamps(Moves(m, run, symbol, domain, n).trace) == Stamps(run.trace) + Phases(symbol, domain, n)
  {
    hide *;
    MovesStep(m, run, symbol, domain, n);
    if n == 0 {
      NoPhases(symbol, domain, n);
    } else {
      MovesStamps(m, run, symbol, domain, n - 1);
      MoveStamps(m, Moves(m, run, symbol, domain, n - 1), symbol, domain, n - 1);
      PhasesStep(symbol, domain, n);
    }
  }

  lemma MovesStep<C>(m: Mixing<C>, run: Run<C>, symbol: byte, domain: Domain, n: nat)
    requires n < 256
    ensures Moves(m, run, symbol, domain, n)
            == if n == 0 then run else ApplyMove(m, Moves(m, run, symbol, domain, n - 1), symbol, domain, n - 1)
  {
    hide ApplyMove;
  }

  lemma NoPhases(symbol: byte, domain: Domain, n: nat)
    requires n == 0
    ensures Phases(symbol, domain, n) == []
  {
  }

  lemma PhasesStep(symbol: byte, domain: Domain, n: nat)
    requires n > 0
    ensures Phases(symbol, domain, n) == Phases(symbol, domain, n - 1) + [Stamp(symbol, domain, n - 1)]
  {
  }

  lemma MoveStamps<C>(m: Mixing<C>, run: Run<C>, symbol: byte, domain: Domain, phase: Phase)
    ensures Stamps(ApplyMove(m, run, symbol, domain, phase).trace) == Stamps(run.trace) + [Stamp(symbol, domain, phase)]
  {
    hide Stamps, Preview, Rotate, EffectOf, MoveReads;
    var after := ApplyMove(m, run, symbol, domain, phase).trace;
    assert after == run.trace + [Last(after)];
    StampsAppend(run.trace, Last(after));
  }

  lemma SymbolStamps<C>(m: Mixing<C>, run: Run<C>, symbol: byte, domain: Domain, n: nat)
    ensures AbsorbSymbol(m, run, symbol, domain, n).Ok? ==>
              Stamps(AbsorbSymbol(m, run, symbol, domain, n).value.trace) == Stamps(run.trace) + Phases(symbol, domain, n)
  {
    hide Moves;
    if ValidCount(n) { MovesStamps(m, run, symbol, domain, n); }
  }

  /** The run records `stamps` more than the trace `before`. */
  predicate Adds<C>(before: Run<C>, after: Result<Run<C>, Error>, stamps: seq<Stamp>) {
    after.Ok? ==> Stamps(after.value.trace) == Stamps(before.trace) + stamps
  }

  /** A word leaves exactly its own symbols in the trace. */
  lemma {:induction false} SequenceStamps<C>(m: Mixing<C>, run: Run<C>, word: seq<byte>, domain: Domain, n: nat)
    ensures Adds(run, AbsorbSequence(m, run, word, domain, n), Spelled(word, domain, n))
  {
    hide AbsorbSymbol, Stamps, Phases;
    if word == [] {
    } else {
      SequenceStamps(m, run, Front(word), domain, n);
      var before := AbsorbSequence(m, run, Front(word), domain, n);
      if before.Ok? { SymbolStamps(m, before.value, Last(word), domain, n); }
    }
  }

  /** The state from which the `i`-th picked symbol is formed. */
  function PickState<C>(m: Mixing<C>, run: Run<C>, pick: (State<C>, nat) -> byte, domain: Domain, moves: nat, i: nat): State<C> {
    var r := AbsorbPicked(m, run, pick, domain, moves, i);
    if r.Ok? then r.value.state else run.state
  }

  /** The first `n` picked symbols, each formed from the state reached before it. */
  function PickedWord<C>(m: Mixing<C>, run: Run<C>, pick: (State<C>, nat) -> byte, domain: Domain, moves: nat, n: nat): (word: seq<byte>)
    ensures |word| == n
  {
    seq(n, i requires 0 <= i < n => pick(PickState(m, run, pick, domain, moves, i), i))
  }

  /** Absorbing picked symbols is absorbing the word they form. */
  lemma {:induction false} PickedIsSequence<C>(m: Mixing<C>, run: Run<C>, pick: (State<C>, nat) -> byte, domain: Domain, moves: nat, n: nat)
    ensures AbsorbPicked(m, run, pick, domain, moves, n)
            == AbsorbSequence(m, run, PickedWord(m, run, pick, domain, moves, n), domain, moves)
  {
    hide AbsorbSymbol, PickState;
    var word := PickedWord(m, run, pick, domain, moves, n);
    if n == 0 {
    } else {
      PickedIsSequence(m, run, pick, domain, moves, n - 1);
      assert word[..n - 1] == PickedWord(m, run, pick, domain, moves, n - 1);
      var before := AbsorbPicked(m, run, pick, domain, moves, n - 1);
      if before.Ok? {
        PickStateIs(m, run, pick, domain, moves, n - 1);
      }
    }
  }

  lemma PickStateIs<C>(m: Mixing<C>, run: Run<C>, pick: (State<C>, nat) -> byte, domain: Domain, moves: nat, i: nat)
    requires AbsorbPicked(m, run, pick, domain, moves, i).Ok?
    ensures PickState(m, run, pick, domain, moves, i) == AbsorbPicked(m, run, pick, domain, moves, i).value.state
  {
  }

  lemma PickedStamps<C>(m: Mixing<C>, run: Run<C>, pick: (State<C>, nat) -> byte, domain: Domain, moves: nat, n: nat)
    ensures Adds(run, AbsorbPicked(m, run, pick, domain, moves, n),
                 Spelled(PickedWord(m, run, pick, domain, moves, n), domain, moves))
  {
    PickedIsSequence(m, run, pick, domain, moves, n);
    hide *;
    SequenceStamps(m, run, PickedWord(m, run, pick, domain, moves, n), domain, moves);
  }

  lemma StageStamps<C>(m: Mixing<C>, run: Run<C>, domain: Domain, length: bv64, word: seq<byte>, n: nat)
    ensures Adds(run, AbsorbSequence(m, EnterDomain(m, run, domain, length), word, domain, n), Spelled(word, domain, n))
  {
    SequenceStamps(m, EnterDomain(m, run, domain, length), word, domain, n);
    hide AbsorbSequence, Stamps, Spelled;
  }

  // ----- the key -----

  /** The recorded key schedule: header and forward pairs, the return word, the seal word. */
  function KeyStamps(key: Key, p: KeyProfile): seq<Stamp> {
    Spelled(HEADER, KeyForward, p.forwardMoves) + Spelled(ForwardSymbols(key), KeyForward, p.forwardMoves)
    + Spelled(ReturnSymbols(key), KeyReturn, p.returnMoves) + Spelled(SealSymbols(key), KeySeal, p.sealMoves)
  }

  lemma KeyedStamps<C>(m: Mixing<C>, start: State<C>, key: Key, p: KeyProfile)
    ensures KeyedRun(m, start, key, p).Ok? ==> Stamps(KeyedRun(m, start, key, p).value.trace) == KeyStamps(key, p)
  {
    hide AbsorbSequence, EnterDomain, ForwardSymbols, ReturnSymbols, SealSymbols, HEADER, Spelled;
    if KeyedRun(m, start, key, p).Ok? {
      var run := Run(start, [], {});
      StageStamps(m, run, KeyForward, 32, HEADER, p.forwardMoves);
      var headed := AbsorbSequence(m, EnterDomain(m, run, KeyForward, 32), HEADER, KeyForward, p.forwardMoves).value;
      SequenceStamps(m, headed, ForwardSymbols(key), KeyForward, p.forwardMoves);
      var forwarded := AbsorbSequence(m, headed, ForwardSymbols(key), KeyForward, p.forwardMoves).value;
      StageStamps(m, forwarded, KeyReturn, 32, ReturnSymbols(key), p.returnMoves);
      var returned := AbsorbSequence(m, EnterDomain(m, forwarded, KeyReturn, 32), ReturnSymbols(key), KeyReturn, p.returnMoves).value;
      StageStamps(m, returned, KeySeal, 256, SealSymbols(key), p.sealMoves);
      hide Stamps;
      NoStamps<C>();
    }
  }

  lemma NoStamps<C>()
    ensures Stamps<C>([]) == []
  {
  }

  // ----- the return pass, as three words -----

  /** The message from its last byte to its first. */
  function Reversed(s: seq<byte>): (r: seq<byte>)
    ensures |r| == |s|
  {
    if s == [] then [] else [Last(s)] + Reversed(Front(s))
  }

  lemma {:induction false} ReversedAt(s: seq<byte>, i: nat)
    requires i < |s|
    ensures Reversed(s)[i] == s[|s| - 1 - i]
  {
    if i > 0 { ReversedAt(Front(s), i - 1); }
  }

  /** The state after the first `i` symbols of a word. */
  function Reached<C>(m: Mixing<C>, run: Run<C>, word: seq<byte>, domain: Domain, moves: nat, i: nat): State<C>
    requires i <= |word|
  {
    var r := AbsorbSequence(m, run, word[..i], domain, moves);
    if r.Ok? then r.value.state else run.state
  }

  /** Each symbol of the word is the one picked from the state reached by the symbols before it. */
  ghost predicate Picks<C>(m: Mixing<C>, run: Run<C>, pick: (State<C>, nat) -> byte, domain: Domain, moves: nat, word: seq<byte>) {
    forall i :: 0 <= i < |word| ==> word[i] == pick(Reached(m, run, word, domain, moves, i), i)
  }

  lemma PickedWordPicks<C>(m: Mixing<C>, run: Run<C>, pick: (State<C>, nat) -> byte, domain: Domain, moves: nat, n: nat)
    ensures Picks(m, run, pick, domain, moves, PickedWord(m, run, pick, domain, moves, n))
  {
    hide PickState, Reached;
    var word := PickedWord(m, run, pick, domain, moves, n);
    forall i | 0 <= i < n ensures word[i] == pick(Reached(m, run, word, domain, moves, i), i) {
      PickedFrom(m, run, pick, domain, moves, word, i);
    }
  }

  lemma PickedFrom<C>(m: Mixing<C>, run: Run<C>, pick: (State<C>, nat) -> byte, domain: Domain, moves: nat, word: seq<byte>, i: nat)
    requires i <= |word| && word == PickedWord(m, run, pick, domain, moves, |word|)
    ensures Reached(m, run, word, domain, moves, i) == PickState(m, run, pick, domain, moves, i)
  {
    PickedIsSequence(m, run, pick, domain, moves, i);
    assert word[..i] == PickedWord(m, run, pick, domain, moves, i) by {
      hide PickState;
    }
    hide AbsorbPicked, AbsorbSequence, PickedWord;
  }

  /** The three words of a return pass. */
  datatype ReturnWords = ReturnWords(init: seq<byte>, fold: seq<byte>, seal: seq<byte>)

  function Begun<C>(m: Mixing<C>, run: Run<C>, length: u64): Run<C> {
    EnterDomain(m, run, ReturnInit, m.boundary(run.state, length))
  }

  function Turning<C>(m: Mixing<C>, run: Run<C>, started: Run<C>, length: u64): Run<C> {
    EnterDomain(m, started, InputReturn, m.returnBoundary(m.boundary(run.state, length), run.state.controller))
  }

  function Sealing<C>(m: Mixing<C>, run: Run<C>, folded: Run<C>, length: u64): Run<C> {
    EnterDomain(m, folded, ReturnSeal, m.sealBoundary(m.boundary(run.state, length), folded.state.controller))
  }

  /** A return pass that absorbs three given words. */
  function AbsorbWords<C>(m: Mixing<C>, run: Run<C>, length: u64, p: ReturnProfile, w: ReturnWords): Result<Run<C>, Error> {
    var started :- AbsorbSequence(m, Begun(m, run, length), w.init, ReturnInit, p.initMoves);
    var folded :- AbsorbSequence(m, Turning(m, run, started, length), w.fold, InputReturn, p.messageMoves);
    AbsorbSequence(m, Sealing(m, run, folded, length), w.seal, ReturnSeal, p.sealMoves)
  }

  /** One symbol for each message byte from the last to the first, each from the state reached so far. */
  ghost predicate RightFold<C>(m: Mixing<C>, turning: Run<C>, snapshot: State<C>, message: Message, moves: nat, fold: seq<byte>) {
    |fold| == |message| &&
    forall i :: 0 <= i < |message| ==>
      fold[i] == m.returnSymbol(snapshot, Reached(m, turning, fold, InputReturn, moves, i), Reversed(message)[i], |message|, i)
  }

  /** The words are what the pass must absorb: the initial symbols from the snapshot, then one symbol for each
      message byte from the last to the first, then the seal symbols, each from the state reached so far. */
  ghost predicate RightWords<C>(m: Mixing<C>, run: Run<C>, message: Message, p: ReturnProfile, w: ReturnWords) {
    var n := |message|;
    var started := AbsorbSequence(m, Begun(m, run, n), w.init, ReturnInit, p.initMoves);
    && |w.init| == p.initSymbols && |w.seal| == p.sealSymbols
    && (forall i :: 0 <= i < p.initSymbols ==> w.init[i] == m.initSymbol(run.state, n, i))
    && started.Ok?
    && var turning := Turning(m, run, started.value, n);
    var folded := AbsorbSequence(m, turning, w.fold, InputReturn, p.messageMoves);
    && RightFold(m, turning, run.state, message, p.messageMoves, w.fold)
    && folded.Ok?
    && var sealing := Sealing(m, run, folded.value, n);
    (forall i :: 0 <= i < p.sealSymbols ==>
       w.seal[i] == m.sealSymbol(run.state, Reached(m, sealing, w.seal, ReturnSeal, p.sealMoves, i), n, i))
  }

  /** The return pass absorbs exactly its three words, the message back to front. */
  lemma ReturnAbsorbsWords<C>(m: Mixing<C>, run: Run<C>, message: Message, p: ReturnProfile) returns (w: ReturnWords)
    ensures ReturnPass(m, run, message, p).Ok? ==>
              ReturnPass(m, run, message, p) == AbsorbWords(m, run, |message|, p, w) && RightWords(m, run, message, p, w)
  {
    hide AbsorbPicked, AbsorbSequence, EnterDomain, PickInit, PickReturn, PickSeal, Picks, RightFold, Reversed, PickedWord;
    w := ReturnWords([], [], []);
    if ReturnPass(m, run, message, p).Ok? {
      var n := |message|;
      var begun := Begun(m, run, n);
      var init := PickInit(m, run.state, n);
      w := ReturnWords(PickedWord(m, begun, init, ReturnInit, p.initMoves, p.initSymbols), [], []);
      PickedIsSequence(m, begun, init, ReturnInit, p.initMoves, p.initSymbols);
      PickedWordPicks(m, begun, init, ReturnInit, p.initMoves, p.initSymbols);
      InitPicks(m, run.state, n, begun, p.initMoves, w.init);
      var started := AbsorbPicked(m, begun, init, ReturnInit, p.initMoves, p.initSymbols).value;
      var turning := Turning(m, run, started, n);
      var fold := PickReturn(m, run.state, message);
      w := w.(fold := PickedWord(m, turning, fold, InputReturn, p.messageMoves, n));
      PickedIsSequence(m, turning, fold, InputReturn, p.messageMoves, n);
      PickedWordPicks(m, turning, fold, InputReturn, p.messageMoves, n);
      FoldPicks(m, run.state, message, turning, p.messageMoves, w.fold);
      var folded := AbsorbPicked(m, turning, fold, InputReturn, p.messageMoves, n).value;
      var sealing := Sealing(m, run, folded, n);
      var seal := PickSeal(m, run.state, n);
      w := w.(seal := PickedWord(m, sealing, seal, ReturnSeal, p.sealMoves, p.sealSymbols));
      PickedIsSequence(m, sealing, seal, ReturnSeal, p.sealMoves, p.sealSymbols);
      PickedWordPicks(m, sealing, seal, ReturnSeal, p.sealMoves, p.sealSymbols);
      SealPicks(m, run.state, n, sealing, p.sealMoves, w.seal);
    }
  }

  lemma InitPicks<C>(m: Mixing<C>, snapshot: State<C>, length: u64, run: Run<C>, moves: nat, word: seq<byte>)
    requires Picks(m, run, PickInit(m, snapshot, length), ReturnInit, moves, word)
    ensures forall i :: 0 <= i < |word| ==> word[i] == m.initSymbol(snapshot, length, i)
  {
    hide Reached;
  }

  lemma PickReturnIs<C>(m: Mixing<C>, snapshot: State<C>, message: Message, current: State<C>, i: nat)
    requires i < |message|
    ensures PickReturn(m, snapshot, message)(current, i) == m.returnSymbol(snapshot, current, Reversed(message)[i], |message|, i)
  {
    hide *;
    PickReturnReads(m, snapshot, message, current, i);
    ReversedAt(message, i);
  }

  lemma PickReturnReads<C>(m: Mixing<C>, snapshot: State<C>, message: Message, current: State<C>, i: nat)
    requires i < |message|
    ensures PickReturn(m, snapshot, message)(current, i)
            == m.returnSymbol(snapshot, current, message[|message| - 1 - i], |message|, i)
  {
  }

  lemma FoldPicks<C>(m: Mixing<C>, snapshot: State<C>, message: Message, run: Run<C>, moves: nat, word: seq<byte>)
    requires |word| == |message| && Picks(m, run, PickReturn(m, snapshot, message), InputReturn, moves, word)
    ensures RightFold(m, run, snapshot, message, moves, word)
  {
    hide Reached, PickReturn, Reversed;
    forall i | 0 <= i < |message|
      ensures word[i] == m.returnSymbol(snapshot, Reached(m, run, word, InputReturn, moves, i), Reversed(message)[i], |message|, i)
    {
      PickReturnIs(m, snapshot, message, Reached(m, run, word, InputReturn, moves, i), i);
    }
  }

  lemma SealPicks<C>(m: Mixing<C>, snapshot: State<C>, length: u64, run: Run<C>, moves: nat, word: seq<byte>)
    requires Picks(m, run, PickSeal(m, snapshot, length), ReturnSeal, moves, word)
    ensures forall i :: 0 <= i < |word| ==>
              word[i] == m.sealSymbol(snapshot, Reached(m, run, word, ReturnSeal, moves, i), length, i)
  {
    hide Reached;
  }

  /** With a controller that returns the message bytes themselves the middle word is the reversed message. */
  lemma PlainReturnReverses<C(!new)>(m: Mixing<C>, run: Run<C>, message: Message, p: ReturnProfile) returns (w: ReturnWords)
    requires forall s: State<C>, t: State<C>, b: byte, n: u64, i: nat :: m.returnSymbol(s, t, b, n, i) == b
    ensures ReturnPass(m, run, message, p).Ok? ==>
              ReturnPass(m, run, message, p) == AbsorbWords(m, run, |message|, p, w) && w.fold == Reversed(message)
  {
    w := ReturnAbsorbsWords(m, run, message, p);
    hide ReturnPass, AbsorbWords, AbsorbSequence, Reversed, RightFold, Begun, Turning, Sealing;
    if ReturnPass(m, run, message, p).Ok? {
      var started := AbsorbSequence(m, Begun(m, run, |message|), w.init, ReturnInit, p.initMoves).value;
      PlainFold(m, Turning(m, run, started, |message|), run.state, message, p.messageMoves, w.fold);
    }
  }

  lemma PlainFold<C(!new)>(m: Mixing<C>, turning: Run<C>, snapshot: State<C>, message: Message, moves: nat, fold: seq<byte>)
    requires RightFold(m, turning, snapshot, message, moves, fold)
    requires forall s: State<C>, t: State<C>, b: byte, n: u64, i: nat :: m.returnSymbol(s, t, b, n, i) == b
    ensures fold == Reversed(message)
  {
    hide Reversed, Reached;
    forall i | 0 <= i < |message| ensures fold[i] == Reversed(message)[i] {
      var s := Reached(m, turning, fold, InputReturn, moves, i);
      assert m.returnSymbol(snapshot, s, Reversed(message)[i], |message|, i) == Reversed(message)[i];
    }
  }

  function ReturnStamps(p: ReturnProfile, w: ReturnWords): seq<Stamp> {
    Spelled(w.init, ReturnInit, p.initMoves) + Spelled(w.fold, InputReturn, p.messageMoves)
    + Spelled(w.seal, ReturnSeal, p.sealMoves)
  }

  lemma WordsStamps<C>(m: Mixing<C>, run: Run<C>, length: u64, p: ReturnProfile, w: ReturnWords)
    ensures Adds(run, AbsorbWords(m, run, length, p, w), ReturnStamps(p, w))
  {
    hide AbsorbSequence, Spelled, Stamps, EnterDomain;
    if AbsorbWords(m, run, length, p, w).Ok? {
      var boundary := m.boundary(run.state, length);
      StageStamps(m, run, ReturnInit, boundary, w.init, p.initMoves);
      var started := AbsorbSequence(m, Begun(m, run, length), w.init, ReturnInit, p.initMoves).value;
      StageStamps(m, started, InputReturn, m.returnBoundary(boundary, run.state.controller), w.fold, p.messageMoves);
      var folded := AbsorbSequence(m, Turning(m, run, started, length), w.fold, InputReturn, p.messageMoves).value;
      StageStamps(m, folded, ReturnSeal, m.sealBoundary(boundary, folded.state.controller), w.seal, p.sealMoves);
    }
  }

  // ----- binding and squeeze -----

  /** The symbols that bind a controller. */
  function BindWord<C>(m: Mixing<C>, binding: seq<byte>, length: u64): (word: seq<byte>)
    ensures |word| == |binding|
  {
    seq(|binding|, i requires 0 <= i < |binding| => m.bindingSymbol(binding[i], length, i))
  }

  /** The symbols that feed output bytes back. */
  function EchoWord<C>(m: Mixing<C>, output: seq<byte>): (word: seq<byte>)
    ensures |word| == |output|
  {
    seq(|output|, r requires 0 <= r < |output| => m.echo(output[r], r))
  }

  lemma BindStamps<C>(m: Mixing<C>, run: Run<C>, length: u64, moves: nat) returns (binding: seq<byte>)
    ensures binding == m.binding(EnterDomain(m, run, Finalization, length as bv64).state.controller)
    ensures Adds(run, Bind(m, run, length, moves), Spelled(BindWord(m, binding, length), Finalization, moves))
  {
    var entered := EnterDomain(m, run, Finalization, length as bv64);
    binding := m.binding(entered.state.controller);
    var pick := PickBinding(m, binding, length);
    PickedStamps(m, entered, pick, Finalization, moves, |binding|);
    hide EnterDomain, AbsorbPicked, PickState, Spelled, Stamps;
    assert PickedWord(m, entered, pick, Finalization, moves, |binding|) == BindWord(m, binding, length);
    EnterKeepsTrace(m, run, Finalization, length as bv64);
  }

  lemma EnterKeepsTrace<C>(m: Mixing<C>, run: Run<C>, domain: Domain, length: bv64)
    ensures EnterDomain(m, run, domain, length).trace == run.trace
  {
  }

  /** Every output byte is fed back right after it is formed. */
  lemma {:induction false} SqueezeStamps<C>(m: Mixing<C>, run: Run<C>, moves: nat, n: nat)
    ensures var r := SqueezeRounds(m, run, moves, n);
      r.Ok? ==> |r.value.output| == n
                && Stamps(r.value.run.trace) == Stamps(run.trace) + Spelled(EchoWord(m, r.value.output), Squeeze, moves)
  {
    hide AbsorbSymbol, Stamps, Phases, Emit, EchoWord;
    if n == 0 {
      NoEcho(m);
    } else {
      SqueezeStamps(m, run, moves, n - 1);
      var r := SqueezeRounds(m, run, moves, n);
      if r.Ok? {
        var before := SqueezeRounds(m, run, moves, n - 1).value;
        var (b, emitted) := Emit(m, before.run, n - 1);
        EmitKeepsTrace(m, before.run, n - 1);
        SymbolStamps(m, emitted, m.echo(b, n - 1), Squeeze, moves);
        EchoStep(m, before.output, b);
      }
    }
  }

  lemma NoEcho<C>(m: Mixing<C>)
    ensures EchoWord(m, []) == []
  {
  }

  lemma EmitKeepsTrace<C>(m: Mixing<C>, run: Run<C>, round: nat)
    ensures Emit(m, run, round).1.trace == run.trace
  {
  }

  lemma EchoStep<C>(m: Mixing<C>, output: seq<byte>, b: byte)
    ensures EchoWord(m, output + [b]) == EchoWord(m, output) + [m.echo(b, |output|)]
    ensures Front(EchoWord(m, output + [b])) == EchoWord(m, output) && Last(EchoWord(m, output + [b])) == m.echo(b, |output|)
  {
  }

  // ----- the whole evaluation -----

  /** The words of an evaluation besides its key and message. */
  datatype FormedWords = FormedWords(pass: ReturnWords, bind: seq<byte>)

  /** Everything an evaluation records, in order. */
  function Record<C>(m: Mixing<C>, key: Key, message: Message, p: Profile, w: FormedWords, output: seq<byte>): seq<Stamp> {
    KeyStamps(key, p.key) + Spelled(message, InputForward, p.forwardMoves) + ReturnStamps(p.foldback, w.pass)
    + Spelled(w.bind, Finalization, p.finalMoves) + Spelled(EchoWord(m, output), Squeeze, p.squeezeMoves)
  }

  lemma ForwardedStamps<C>(m: Mixing<C>, start: State<C>, key: Key, message: Message, p: Profile)
    ensures ForwardedRun(m, start, key, message, p).Ok? ==>
              Stamps(ForwardedRun(m, start, key, message, p).value.trace)
              == KeyStamps(key, p.key) + Spelled(message, InputForward, p.forwardMoves)
  {
    hide KeyedRun, AbsorbSequence, EnterDomain, Spelled, Stamps, KeyStamps;
    KeyedStamps(m, start, key, p.key);
    var keyed := KeyedRun(m, start, key, p.key);
    if keyed.Ok? {
      StageStamps(m, keyed.value, InputForward, |message| as bv64, message, p.forwardMoves);
    }
  }

  /** The words are formed from the states the evaluation passes through. */
  ghost predicate RightlyFormed<C>(m: Mixing<C>, start: State<C>, key: Key, message: Message, p: Profile, w: FormedWords) {
    var forwarded := ForwardedRun(m, start, key, message, p);
    && forwarded.Ok? && RightWords(m, forwarded.value, message, p.foldback, w.pass)
    && var returned := ReturnPass(m, forwarded.value, message, p.foldback);
    returned.Ok? && w.bind == BindWord(m, BoundController(m, returned.value, |message|), |message|)
  }

  /** The controller bytes taken when finalization begins. */
  function BoundController<C>(m: Mixing<C>, run: Run<C>, length: u64): seq<byte> {
    m.binding(EnterDomain(m, run, Finalization, length as bv64).state.controller)
  }

  lemma BoundStamps<C>(m: Mixing<C>, run: Run<C>, length: u64, finalMoves: nat, squeezeMoves: nat) returns (bind: seq<byte>)
    ensures bind == BindWord(m, BoundController(m, run, length), length)
    ensures var r := BoundOutput(m, run, length, finalMoves, squeezeMoves);
      r.Ok? ==>
        && |r.value.output| == OUTPUT_BYTES
        && Stamps(r.value.run.trace)
           == Stamps(run.trace) + Spelled(bind, Finalization, finalMoves) + Spelled(EchoWord(m, r.value.output), Squeeze, squeezeMoves)
  {
    hide Bind, EnterDomain, SqueezeRounds, Spelled, Stamps, EchoWord;
    var binding := BindStamps(m, run, length, finalMoves);
    bind := BindWord(m, binding, length);
    var bound := Bind(m, run, length, finalMoves);
    if bound.Ok? {
      EnterKeepsTrace(m, bound.value, Squeeze, 32);
      SqueezeStamps(m, EnterDomain(m, bound.value, Squeeze, 32), squeezeMoves, OUTPUT_BYTES);
    }
  }

  /** The result records exactly these words between key and output, and they are formed as they must be. */
  ghost predicate Records<C>(m: Mixing<C>, start: State<C>, key: Key, message: Message, p: Profile, done: Squeezed<C>, w: FormedWords) {
    && |done.output| == OUTPUT_BYTES && Stamps(done.run.trace) == Record(m, key, message, p, w, done.output)
    && RightlyFormed(m, start, key, message, p, w)
    && |w.pass.init| == p.foldback.initSymbols && |w.pass.fold| == |message| && |w.pass.seal| == p.foldback.sealSymbols
    && ValidReturnProfile(p.foldback) && ValidKeyProfile(p.key)
  }

  /** The trace of an evaluation records, in order: the key schedule of this key, this message, the words of
      the return pass, the binding, and the fed-back output. */
  lemma EvaluationRecords<C>(m: Mixing<C>, start: State<C>, key: Key, message: Message, p: Profile) returns (w: FormedWords)
    ensures Evaluate(m, start, key, message, p).Ok? ==>
              Records(m, start, key, message, p, Evaluate(m, start, key, message, p).value, w)
  {
    hide ForwardedRun, ReturnPass, BoundOutput, Spelled, Stamps, EchoWord, KeyStamps, ReturnStamps, AbsorbWords;
    w := FormedWords(ReturnWords([], [], []), []);
    if Evaluate(m, start, key, message, p).Ok? {
      ForwardedStamps(m, start, key, message, p);
      var forwarded := ForwardedRun(m, start, key, message, p).value;
      ReturnIsValid(m, forwarded, message, p.foldback);
      KeyIsValid(m, start, key, message, p);
      var pass := ReturnAbsorbsWords(m, forwarded, message, p.foldback);
      RightLengths(m, forwarded, message, p.foldback, pass);
      hide RightWords;
      WordsStamps(m, forwarded, |message|, p.foldback, pass);
      var returned := ReturnPass(m, forwarded, message, p.foldback).value;
      var bind := BoundStamps(m, returned, |message|, p.finalMoves, p.squeezeMoves);
      w := FormedWords(pass, bind);
    }
  }

  lemma ReturnIsValid<C>(m: Mixing<C>, run: Run<C>, message: Message, p: ReturnProfile)
    ensures ReturnPass(m, run, message, p).Ok? ==> ValidReturnProfile(p)
  {
    hide AbsorbPicked, EnterDomain;
  }

  lemma KeyIsValid<C>(m: Mixing<C>, start: State<C>, key: Key, message: Message, p: Profile)
    ensures ForwardedRun(m, start, key, message, p).Ok? ==> ValidKeyProfile(p.key)
  {
    hide AbsorbKey, AbsorbSequence, EnterDomain;
  }

  lemma RightLengths<C>(m: Mixing<C>, run: Run<C>, message: Message, p: ReturnProfile, w: ReturnWords)
    requires RightWords(m, run, message, p, w)
    ensures |w.init| == p.initSymbols && |w.fold| == |message| && |w.seal| == p.sealSymbols
  {
    hide AbsorbSequence, EnterDomain, Reached, Reversed;
  }

  // ----- reading a trace -----

  lemma {:induction false} SpelledSize(word: seq<byte>, domain: Domain, n: nat)
    ensures |Spelled(word, domain, n)| == Times(|word|, n)
  {
    hide Phases;
    if word == [] {
      TimesStep(0, n);
    } else {
      SpelledSize(Front(word), domain, n);
      TimesStep(|word| - 1, n);
      hide Times;
    }
  }

  lemma TimesBelow(i: nat, k: nat, n: nat)
    requires i < k
    ensures Times(i, n) + n <= Times(k, n)
  {
    TimesStep(i, n);
    assert (i + 1) * n <= k * n;
  }

  /** Symbol `i` of a word is read at its first move. */
  lemma {:induction false} SpelledAt(word: seq<byte>, domain: Domain, n: nat, i: nat)
    requires i < |word| && n > 0
    ensures Times(i, n) < |Spelled(word, domain, n)|
    ensures Spelled(word, domain, n)[Times(i, n)] == Stamp(word[i], domain, 0)
    decreases |word|
  {
    SpelledSize(word, domain, n);
    SpelledSize(Front(word), domain, n);
    TimesBelow(i, |word|, n);
    if i < |word| - 1 {
      SpelledAt(Front(word), domain, n, i);
    }
  }

  /** A word is determined by its length and its spelling. */
  lemma SpellingDetermines(u: seq<byte>, v: seq<byte>, domain: Domain, n: nat)
    requires |u| == |v| && n > 0 && Spelled(u, domain, n) == Spelled(v, domain, n)
    ensures u == v
  {
    hide Spelled, Times;
    forall i | 0 <= i < |u| ensures u[i] == v[i] {
      SpelledAt(u, domain, n, i);
      SpelledAt(v, domain, n, i);
    }
  }

  // ----- a trace belongs to one key and one message -----

  lemma KeyStampsSize(key: Key, p: KeyProfile)
    ensures |KeyStamps(key, p)| == KeyMoves(p)
  {
    SpelledSize(HEADER, KeyForward, p.forwardMoves);
    SpelledSize(ForwardSymbols(key), KeyForward, p.forwardMoves);
    SpelledSize(ReturnSymbols(key), KeyReturn, p.returnMoves);
    SpelledSize(SealSymbols(key), KeySeal, p.sealMoves);
    hide Spelled, ForwardSymbols, ReturnSymbols, SealSymbols;
  }

  /** The first `n` entries of two concatenations whose first parts have that length. */
  lemma SameFront<T>(a: seq<T>, x: seq<T>, b: seq<T>, y: seq<T>)
    requires a + x == b + y && |a| == |b|
    ensures a == b && x == y
  {
    assert (a + x)[..|a|] == a && (b + y)[..|b|] == b;
    assert (a + x)[|a|..] == x && (b + y)[|b|..] == y;
  }

  lemma KeyStampsDetermine(k: Key, l: Key, p: KeyProfile)
    requires p.forwardMoves > 0 && KeyStamps(k, p) == KeyStamps(l, p)
    ensures k == l
  {
    var (f, r, s) := (p.forwardMoves, p.returnMoves, p.sealMoves);
    var head := Spelled(HEADER, KeyForward, f);
    var (u, v) := (Spelled(ForwardSymbols(k), KeyForward, f), Spelled(ForwardSymbols(l), KeyForward, f));
    SpelledSize(ForwardSymbols(k), KeyForward, f);
    SpelledSize(ForwardSymbols(l), KeyForward, f);
    var (x, y) := (Spelled(ReturnSymbols(k), KeyReturn, r) + Spelled(SealSymbols(k), KeySeal, s),
                   Spelled(ReturnSymbols(l), KeyReturn, r) + Spelled(SealSymbols(l), KeySeal, s));
    hide Spelled, ForwardSymbols, ReturnSymbols, SealSymbols;
    assert KeyStamps(k, p) == head + (u + x) && KeyStamps(l, p) == head + (v + y);
    SameFront(head, u + x, head, v + y);
    SameFront(u, x, v, y);
    SpellingDetermines(ForwardSymbols(k), ForwardSymbols(l), KeyForward, f);
    ForwardSymbolsDetermine(k, l);
  }

  lemma ForwardSymbolsDetermine(k: Key, l: Key)
    requires ForwardSymbols(k) == ForwardSymbols(l)
    ensures k == l
  {
    forall i | 0 <= i < 32 ensures k[i] == l[i] {
      DirectSymbol(k, i);
      DirectSymbol(l, i);
      Xor8Shows(k[i], l[i], PositionMask(i, 0xA5));
    }
  }

  lemma DirectSymbol(k: Key, i: nat)
    requires i < 32
    ensures ForwardSymbols(k)[2 * i] == Xor8(k[i], PositionMask(i, 0xA5))
  {
    hide ForwardCross, PositionMask;
    assert 2 * i % 2 == 0 && 2 * i / 2 == i;
  }

  /** The first entry after the shorter part is an entry of the longer one. */
  lemma BeforeOrAfter<T>(a: seq<T>, x: seq<T>, b: seq<T>, y: seq<T>)
    requires a + x == b + y && x != []
    ensures |a| < |b| ==> b[|a|] == x[0]
  {
    assert (a + x)[|a|] == x[0];
    assert |a| < |b| ==> (b + y)[|a|] == b[|a|];
  }

  /** A longer word would continue where the first entry after the shorter one has another domain. */
  lemma MessageEnds(u: seq<byte>, x: seq<Stamp>, v: seq<byte>, y: seq<Stamp>, n: nat)
    requires Spelled(u, InputForward, n) + x == Spelled(v, InputForward, n) + y
    requires x != [] && x[0].domain != InputForward && (v != [] ==> n > 0)
    ensures |v| <= |u|
  {
    hide *;
    if |u| < |v| {
      SpelledSize(u, InputForward, n);
      SpelledAt(v, InputForward, n, |u|);
      BeforeOrAfter(Spelled(u, InputForward, n), x, Spelled(v, InputForward, n), y);
    }
  }

  lemma ReturnBegins(p: ReturnProfile, w: ReturnWords)
    requires ValidReturnProfile(p) && |w.init| == p.initSymbols
    ensures ReturnStamps(p, w) != [] && ReturnStamps(p, w)[0].domain == ReturnInit
  {
    hide Spelled, Times;
    SpelledAt(w.init, ReturnInit, p.initMoves, 0);
    assert Times(0, p.initMoves) == 0 by { TimesZero(p.initMoves); }
  }

  lemma TimesZero(n: nat)
    ensures Times(0, n) == 0
  {
  }

  /** What is recorded after the message. */
  function Remainder<C>(m: Mixing<C>, p: Profile, w: FormedWords, output: seq<byte>): seq<Stamp> {
    ReturnStamps(p.foldback, w.pass) + Spelled(w.bind, Finalization, p.finalMoves)
    + Spelled(EchoWord(m, output), Squeeze, p.squeezeMoves)
  }

  lemma RecordParts<C>(m: Mixing<C>, key: Key, message: Message, p: Profile, w: FormedWords, output: seq<byte>)
    ensures Record(m, key, message, p, w, output)
            == KeyStamps(key, p.key) + (Spelled(message, InputForward, p.forwardMoves) + Remainder(m, p, w, output))
  {
    hide KeyStamps, Spelled, ReturnStamps, EchoWord;
  }

  lemma RemainderBegins<C>(m: Mixing<C>, p: Profile, w: FormedWords, output: seq<byte>)
    requires ValidReturnProfile(p.foldback) && |w.pass.init| == p.foldback.initSymbols
    ensures Remainder(m, p, w, output) != [] && Remainder(m, p, w, output)[0].domain == ReturnInit
  {
    ReturnBegins(p.foldback, w.pass);
    hide Spelled, ReturnStamps, EchoWord;
  }

  /** Two records are equal only for one key and one message. */
  lemma RecordDetermines<C, D>(a: Mixing<C>, b: Mixing<D>, k: Key, u: Message, w: FormedWords, out: seq<byte>,
      l: Key, v: Message, x: FormedWords, done: seq<byte>, p: Profile)
    requires Record(a, k, u, p, w, out) == Record(b, l, v, p, x, done)
    requires ValidReturnProfile(p.foldback) && p.key.forwardMoves > 0
    requires u != [] || v != [] ==> p.forwardMoves > 0
    requires |w.pass.init| == |x.pass.init| == p.foldback.initSymbols
    ensures k == l && u == v
  {
    RemainderBegins(a, p, w, out);
    RemainderBegins(b, p, x, done);
    hide *;
    var f := p.forwardMoves;
    RecordParts(a, k, u, p, w, out);
    RecordParts(b, l, v, p, x, done);
    KeyStampsSize(k, p.key);
    KeyStampsSize(l, p.key);
    var (rest, tail) := (Remainder(a, p, w, out), Remainder(b, p, x, done));
    SameFront(KeyStamps(k, p.key), Spelled(u, InputForward, f) + rest, KeyStamps(l, p.key), Spelled(v, InputForward, f) + tail);
    KeyStampsDetermine(k, l, p.key);
    MessageEnds(u, rest, v, tail, f);
    MessageEnds(v, tail, u, rest, f);
    SpelledSize(u, InputForward, f);
    SpelledSize(v, InputForward, f);
    SameFront(Spelled(u, InputForward, f), rest, Spelled(v, InputForward, f), tail);
    if u != [] { SpellingDetermines(u, v, InputForward, f); }
  }

  lemma ValidForward(p: Profile)
    requires ValidKeyProfile(p.key)
    ensures p.key.forwardMoves > 0
  {
  }

  /** The trace determines key and message: for any controllers and starts, two evaluations under one profile
      that record the same symbols have the same key and the same message. */
  lemma TraceDeterminesInputs<C, D>(a: Mixing<C>, b: Mixing<D>, s: State<C>, t: State<D>, k: Key, l: Key, u: Message, v: Message, p: Profile)
    ensures var (x, y) := (Evaluate(a, s, k, u, p), Evaluate(b, t, l, v, p));
      x.Ok? && y.Ok? && Stamps(x.value.run.trace) == Stamps(y.value.run.trace) ==> k == l && u == v
  {
    hide *;
    var (x, y) := (Evaluate(a, s, k, u, p), Evaluate(b, t, l, v, p));
    if x.Ok? && y.Ok? && Stamps(x.value.run.trace) == Stamps(y.value.run.trace) {
      var w := EvaluationRecords(a, s, k, u, p);
      var z := EvaluationRecords(b, t, l, v, p);
      RecordsParts(a, s, k, u, p, x.value, w);
      RecordsParts(b, t, l, v, p, y.value, z);
      ForwardCountIsValid(a, s, k, u, p);
      ForwardCountIsValid(b, t, l, v, p);
      ValidForward(p);
      RecordDetermines(a, b, k, u, w, x.value.output, l, v, z, y.value.output, p);
    }
  }

  lemma RecordsParts<C>(m: Mixing<C>, start: State<C>, key: Key, message: Message, p: Profile, done: Squeezed<C>, w: FormedWords)
    ensures Records(m, start, key, message, p, done, w) ==>
              && Stamps(done.run.trace) == Record(m, key, message, p, w, done.output)
              && |w.pass.init| == p.foldback.initSymbols && ValidReturnProfile(p.foldback) && ValidKeyProfile(p.key)
  {
    hide Stamps, Record, RightlyFormed, ValidReturnProfile, ValidKeyProfile;
  }

  lemma ForwardCountIsValid<C>(m: Mixing<C>, start: State<C>, key: Key, message: Message, p: Profile)
    ensures Evaluate(m, start, key, message, p).Ok? && message != [] ==> p.forwardMoves > 0
  {
    hide Evaluate, FoldAndBind, KeyedRun, AbsorbSequence;
    ForwardedTracks(m, start, key, message, p);
    EvaluateForwards(m, start, key, message, p);
  }

  lemma EvaluateForwards<C>(m: Mixing<C>, start: State<C>, key: Key, message: Message, p: Profile)
    ensures Evaluate(m, start, key, message, p).Ok? ==> ForwardedRun(m, start, key, message, p).Ok?
  {
    hide ForwardedRun, FoldAndBind;
  }

  /** Where the key and the message are read: byte `i` of the key, masked by its position, at move
      forwardMoves * (8 + 2i). */
  lemma KeyIsRecorded<C>(m: Mixing<C>, start: State<C>, key: Key, message: Message, p: Profile, i: nat)
    requires i < 32
    ensures var at := Times(8 + 2 * i, p.key.forwardMoves);
      Evaluate(m, start, key, message, p).Ok? ==>
        var trace := Evaluate(m, start, key, message, p).value.run.trace;
        at < |trace| && trace[at].symbol == Xor8(key[i], PositionMask(i, 0xA5)) && trace[at].domain == KeyForward
  {
    hide *;
    if Evaluate(m, start, key, message, p).Ok? {
      var w := EvaluationRecords(m, start, key, message, p);
      var done := Evaluate(m, start, key, message, p).value;
      RecordsParts(m, start, key, message, p, done, w);
      ValidForward(p);
      RecordedKeyByte(m, key, message, p, w, done.output, i);
      StampOf(done.run.trace, Times(8 + 2 * i, p.key.forwardMoves));
    }
  }

  /** Byte `j` of the message at its own moves after the key schedule. */
  lemma MessageIsRecorded<C>(m: Mixing<C>, start: State<C>, key: Key, message: Message, p: Profile, j: nat)
    requires j < |message|
    ensures var at := KeyMoves(p.key) + Times(j, p.forwardMoves);
      Evaluate(m, start, key, message, p).Ok? ==>
        var trace := Evaluate(m, start, key, message, p).value.run.trace;
        at < |trace| && trace[at].symbol == message[j] && trace[at].domain == InputForward
  {
    hide *;
    if Evaluate(m, start, key, message, p).Ok? {
      var w := EvaluationRecords(m, start, key, message, p);
      ForwardCountIsValid(m, start, key, message, p);
      var done := Evaluate(m, start, key, message, p).value;
      RecordsParts(m, start, key, message, p, done, w);
      RecordedMessageByte(m, key, message, p, w, done.output, j);
      StampOf(done.run.trace, KeyMoves(p.key) + Times(j, p.forwardMoves));
    }
  }

  lemma StampOf<C>(trace: seq<Move<C>>, i: nat)
    requires i < |Stamps(trace)|
    ensures i < |trace| && Stamps(trace)[i] == Stamp(trace[i].symbol, trace[i].domain, trace[i].phase)
  {
  }

  lemma InMiddle<T>(head: seq<T>, body: seq<T>, tail: seq<T>, i: nat)
    requires i < |body|
    ensures |head| + i < |head + (body + tail)| && (head + (body + tail))[|head| + i] == body[i]
  {
  }

  lemma KeyParts(key: Key, p: KeyProfile, tail: seq<Stamp>) returns (rest: seq<Stamp>)
    ensures KeyStamps(key, p) + tail
            == Spelled(HEADER, KeyForward, p.forwardMoves) + (Spelled(ForwardSymbols(key), KeyForward, p.forwardMoves) + rest)
  {
    hide Spelled, ForwardSymbols, ReturnSymbols, SealSymbols;
    rest := Spelled(ReturnSymbols(key), KeyReturn, p.returnMoves) + Spelled(SealSymbols(key), KeySeal, p.sealMoves) + tail;
  }

  lemma HeaderSize()
    ensures |HEADER| == 8
  {
  }

  lemma RecordedKeyByte<C>(m: Mixing<C>, key: Key, message: Message, p: Profile, w: FormedWords, output: seq<byte>, i: nat)
    requires i < 32 && p.key.forwardMoves > 0
    ensures Times(8 + 2 * i, p.key.forwardMoves) < |Record(m, key, message, p, w, output)|
    ensures Record(m, key, message, p, w, output)[Times(8 + 2 * i, p.key.forwardMoves)]
            == Stamp(Xor8(key[i], PositionMask(i, 0xA5)), KeyForward, 0)
  {
    hide *;
    var f := p.key.forwardMoves;
    RecordParts(m, key, message, p, w, output);
    var rest := KeyParts(key, p.key, Spelled(message, InputForward, p.forwardMoves) + Remainder(m, p, w, output));
    HeaderSize();
    SpelledSize(HEADER, KeyForward, f);
    SpelledAt(ForwardSymbols(key), KeyForward, f, 2 * i);
    DirectSymbol(key, i);
    TimesSum(8, 2 * i, f);
    InMiddle(Spelled(HEADER, KeyForward, f), Spelled(ForwardSymbols(key), KeyForward, f), rest, Times(2 * i, f));
  }

  lemma TimesSum(i: nat, j: nat, n: nat)
    ensures Times(i + j, n) == Times(i, n) + Times(j, n)
  {
  }

  lemma RecordedMessageByte<C>(m: Mixing<C>, key: Key, message: Message, p: Profile, w: FormedWords, output: seq<byte>, j: nat)
    requires j < |message| && p.forwardMoves > 0
    ensures KeyMoves(p.key) + Times(j, p.forwardMoves) < |Record(m, key, message, p, w, output)|
    ensures Record(m, key, message, p, w, output)[KeyMoves(p.key) + Times(j, p.forwardMoves)] == Stamp(message[j], InputForward, 0)
  {
    hide *;
    RecordParts(m, key, message, p, w, output);
    KeyStampsSize(key, p.key);
    SpelledAt(message, InputForward, p.forwardMoves, j);
    InMiddle(KeyStamps(key, p.key), Spelled(message, InputForward, p.forwardMoves), Remainder(m, p, w, output), Times(j, p.forwardMoves));
  }
}
