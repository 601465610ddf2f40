/** A full keyed evaluation: key passes, forward pass, return pass, binding and squeeze. */
module Evaluation {
  import opened Foundations
  import opened CubeGeometry
  import opened Machine
  import opened Chain
  import opened KeySchedule

  type Message = s: seq<byte> | |s| < TWO_64

  datatype KeyProfile = KeyProfile(forwardMoves: nat, returnMoves: nat, sealMoves: nat)
  datatype ReturnProfile = ReturnProfile(initSymbols: nat, initMoves: nat, messageMoves: nat, sealSymbols: nat, sealMoves: nat)
  datatype Profile = Profile(key: KeyProfile, forwardMoves: nat, foldback: ReturnProfile, finalMoves: nat, squeezeMoves: nat)

  const DEFAULT_PROFILE: Profile := Profile(KeyProfile(4, 4, 4), 8, ReturnProfile(16, 4, 8, 8, 4), 4, 2)

  predicate ValidKeyProfile(p: KeyProfile) {
    ValidCount(p.forwardMoves) && ValidCount(p.returnMoves) && ValidCount(p.sealMoves)
  }

  predicate ValidReturnProfile(p: ReturnProfile) {
    && ValidCount(p.initSymbols) && ValidCount(p.initMoves) && ValidCount(p.messageMoves)
    && ValidCount(p.sealSymbols) && ValidCount(p.sealMoves)
  }

  /** Absorbs `n` symbols, each picked from the state reached so far. */
  function AbsorbPicked<C>(m: Mixing<C>, run: Run<C>, pick: (State<C>, nat) -> byte, domain: Domain, moves: nat, n: nat)
    : Result<Run<C>, Error>
  {
    if n == 0 then Ok(run)
    else
      var before :- AbsorbPicked(m, run, pick, domain, moves, n - 1);
      AbsorbSymbol(m, before, pick(before.state, n - 1), domain, moves)
  }

  // ----- the key -----

  function KeyForwardPass<C>(m: Mixing<C>, run: Run<C>, key: Key, moves: nat): Result<Run<C>, Error> {
    var headed :- AbsorbSequence(m, EnterDomain(m, run, KeyForward, 32), HEADER, KeyForward, moves);
    AbsorbSequence(m, headed, ForwardSymbols(key), KeyForward, moves)
  }

  function AbsorbKey<C>(m: Mixing<C>, run: Run<C>, key: Key, p: KeyProfile): Result<Run<C>, Error> {
    var forwarded :- KeyForwardPass(m, run, key, p.forwardMoves);
    var returned :- AbsorbSequence(m, EnterDomain(m, forwarded, KeyReturn, 32), ReturnSymbols(key), KeyReturn, p.returnMoves);
    var sealed :- AbsorbSequence(m, EnterDomain(m, returned, KeySeal, 256), SealSymbols(key), KeySeal, p.sealMoves);
    Ok(sealed.(state := sealed.state.(symbolIndex := 0)))
  }

  // ----- the return pass -----

  function PickInit<C>(m: Mixing<C>, snapshot: State<C>, length: u64): (State<C>, nat) -> byte {
    (current: State<C>, i: nat) => m.initSymbol(snapshot, length, i)
  }

  function PickReturn<C>(m: Mixing<C>, snapshot: State<C>, message: Message): (State<C>, nat) -> byte {
    (current: State<C>, i: nat) =>
      if i < |message| then m.returnSymbol(snapshot, current, message[|message| - 1 - i], |message|, i) else 0
  }

  function PickSeal<C>(m: Mixing<C>, snapshot: State<C>, length: u64): (State<C>, nat) -> byte {
    (current: State<C>, i: nat) => m.sealSymbol(snapshot, current, length, i)
  }

  function ReturnPass<C>(m: Mixing<C>, run: Run<C>, message: Message, p: ReturnProfile): Result<Run<C>, Error> {
    if !ValidReturnProfile(p) then Err(InvalidReturnProfile)
    else
      var snapshot := run.state;
      var boundary := m.boundary(snapshot, |message|);
      var started :- AbsorbPicked(m, EnterDomain(m, run, ReturnInit, boundary),
        PickInit(m, snapshot, |message|), ReturnInit, p.initMoves, p.initSymbols);
      var folded :- AbsorbPicked(m, EnterDomain(m, started, InputReturn, m.returnBoundary(boundary, snapshot.controller)),
        PickReturn(m, snapshot, message), InputReturn, p.messageMoves, |message|);
      AbsorbPicked(m, EnterDomain(m, folded, ReturnSeal, m.sealBoundary(boundary, folded.state.controller)),
        PickSeal(m, snapshot, |message|), ReturnSeal, p.sealMoves, p.sealSymbols)
  }

  // ----- binding and squeeze -----

  datatype Squeezed<+C> = Squeezed(output: seq<byte>, run: Run<C>)

  function PickBinding<C>(m: Mixing<C>, binding: seq<byte>, length: u64): (State<C>, nat) -> byte {
    (current: State<C>, i: nat) => if i < |binding| then m.bindingSymbol(binding[i], length, i) else 0
  }

  /** Reads the output cells of a round; nothing moves yet. */
  function Emit<C>(m: Mixing<C>, run: Run<C>, round: nat): (byte, Run<C>) {
    var coords := m.outputCoords(run.state.controller, round);
    (m.outputByte(run.state.controller, round, ReadCells(run.state.cells, coords)),
     run.(read := run.read + Coords(coords)))
  }

  /** One output byte, fed back before the next is formed. */
  function SqueezeRound<C>(m: Mixing<C>, before: Squeezed<C>, moves: nat, round: nat): Result<Squeezed<C>, Error> {
    var (b, emitted) := Emit(m, before.run, round);
    var after :- AbsorbSymbol(m, emitted, m.echo(b, round), Squeeze, moves);
    Ok(Squeezed(before.output + [b], after))
  }

  function SqueezeRounds<C>(m: Mixing<C>, run: Run<C>, moves: nat, n: nat): Result<Squeezed<C>, Error> {
    if n == 0 then Ok(Squeezed([], run))
    else
      var before :- SqueezeRounds(m, run, moves, n - 1);
      SqueezeRound(m, before, moves, n - 1)
  }

  const OUTPUT_BYTES: nat := 32

  function Bind<C>(m: Mixing<C>, run: Run<C>, length: u64, finalMoves: nat): Result<Run<C>, Error> {
    var entered := EnterDomain(m, run, Finalization, length as bv64);
    var binding := m.binding(entered.state.controller);
    AbsorbPicked(m, entered, PickBinding(m, binding, length), Finalization, finalMoves, |binding|)
  }

  function BoundOutput<C>(m: Mixing<C>, run: Run<C>, length: u64, finalMoves: nat, squeezeMoves: nat): Result<Squeezed<C>, Error> {
    if finalMoves == 0 || squeezeMoves == 0 then Err(InvalidFinalization)
    else
      var bound :- Bind(m, run, length, finalMoves);
      SqueezeRounds(m, EnterDomain(m, bound, Squeeze, 32), squeezeMoves, OUTPUT_BYTES)
  }

  // ----- the whole evaluation -----

  function KeyedRun<C>(m: Mixing<C>, start: State<C>, key: Key, p: KeyProfile): Result<Run<C>, Error> {
    if !ValidKeyProfile(p) then Err(InvalidKeyProfile)
    else AbsorbKey(m, Run(start, [], {}), key, p)
  }

  function FoldAndBind<C>(m: Mixing<C>, forwarded: Run<C>, message: Message, p: Profile): Result<Squeezed<C>, Error> {
    var returned :- ReturnPass(m, forwarded, message, p.foldback);
    BoundOutput(m, returned, |message|, p.finalMoves, p.squeezeMoves)
  }

  function ForwardedRun<C>(m: Mixing<C>, start: State<C>, key: Key, message: Message, p: Profile): Result<Run<C>, Error> {
    var keyed :- KeyedRun(m, start, key, p.key);
    AbsorbSequence(m, EnterDomain(m, keyed, InputForward, |message| as bv64), message, InputForward, p.forwardMoves)
  }

  function Evaluate<C>(m: Mixing<C>, start: State<C>, key: Key, message: Message, p: Profile): Result<Squeezed<C>, Error> {
    var forwarded :- ForwardedRun(m, start, key, message, p);
    FoldAndBind(m, forwarded, message, p)
  }

  // ----- every evaluation is a legal run, with an exact amount of work -----

  lemma {:induction false} PickedTracks<C>(m: Mixing<C>, start: Body, run: Run<C>, moves: nat, symbols: nat,
      pick: (State<C>, nat) -> byte, domain: Domain, count: nat, n: nat)
    requires Tracks(start, run, moves, symbols)
    ensures TracksIf(n == 0 || ValidCount(count), AbsorbPicked(m, run, pick, domain, count, n), start, moves + Times(n, count), symbols + n)
  {
    hide Tracks, AbsorbSymbol, Times;
    if n == 0 {
      TimesStep(0, count);
    } else {
      PickedTracks(m, start, run, moves, symbols, pick, domain, count, n - 1);
      var before := AbsorbPicked(m, run, pick, domain, count, n - 1);
      TimesStep(n - 1, count);
      if before.Ok? {
        SymbolTracks(m, start, before.value, moves + Times(n - 1, count), symbols + n - 1, pick(before.value.state, n - 1), domain, count);
      }
    }
  }

  /** A stage of the evaluation: enter a domain, then absorb a sequence. */
  lemma StageTracks<C>(m: Mixing<C>, start: Body, run: Run<C>, moves: nat, symbols: nat,
      domain: Domain, length: bv64, word: seq<byte>, count: nat)
    requires Tracks(start, run, moves, symbols)
    ensures TracksIf(word == [] || ValidCount(count), AbsorbSequence(m, EnterDomain(m, run, domain, length), word, domain, count),
      start, moves + Times(|word|, count), symbols + |word|)
  {
    EnterTracks(m, start, run, moves, symbols, domain, length);
    hide *;
    SequenceTracks(m, start, EnterDomain(m, run, domain, length), moves, symbols, word, domain, count);
  }

  lemma PickedStageTracks<C>(m: Mixing<C>, start: Body, run: Run<C>, moves: nat, symbols: nat,
      domain: Domain, length: bv64, pick: (State<C>, nat) -> byte, count: nat, n: nat)
    requires Tracks(start, run, moves, symbols)
    ensures TracksIf(n == 0 || ValidCount(count), AbsorbPicked(m, EnterDomain(m, run, domain, length), pick, domain, count, n),
      start, moves + Times(n, count), symbols + n)
  {
    EnterTracks(m, start, run, moves, symbols, domain, length);
    hide *;
    PickedTracks(m, start, EnterDomain(m, run, domain, length), moves, symbols, pick, domain, count, n);
  }

  function KeyMoves(p: KeyProfile): nat {
    72 * p.forwardMoves + 32 * p.returnMoves + 16 * p.sealMoves
  }

  lemma ForwardPassTracks<C>(m: Mixing<C>, start: Body, run: Run<C>, moves: nat, symbols: nat, key: Key, count: nat)
    requires Tracks(start, run, moves, symbols)
    ensures TracksIf(ValidCount(count), KeyForwardPass(m, run, key, count), start, moves + 72 * count, symbols + 72)
  {
    hide Tracks, AbsorbSequence, EnterDomain, ForwardSymbols;
    StageTracks(m, start, run, moves, symbols, KeyForward, 32, HEADER, count);
    var headed := AbsorbSequence(m, EnterDomain(m, run, KeyForward, 32), HEADER, KeyForward, count);
    if headed.Ok? {
      SequenceTracks(m, start, headed.value, moves + 8 * count, symbols + 8, ForwardSymbols(key), KeyForward, count);
    }
  }

  lemma AbsorbKeyTracks<C>(m: Mixing<C>, start: Body, run: Run<C>, moves: nat, symbols: nat, key: Key, p: KeyProfile)
    requires Tracks(start, run, moves, symbols) && ValidKeyProfile(p)
    ensures TracksIf(true, AbsorbKey(m, run, key, p), start, moves + KeyMoves(p), 0)
  {
    hide Tracks, AbsorbSequence, EnterDomain, KeyForwardPass, ReturnSymbols, SealSymbols;
    ForwardPassTracks(m, start, run, moves, symbols, key, p.forwardMoves);
    var forwarded := KeyForwardPass(m, run, key, p.forwardMoves).value;
    var done, seen := moves + 72 * p.forwardMoves, symbols + 72;
    StageTracks(m, start, forwarded, done, seen, KeyReturn, 32, ReturnSymbols(key), p.returnMoves);
    var returned := AbsorbSequence(m, EnterDomain(m, forwarded, KeyReturn, 32), ReturnSymbols(key), KeyReturn, p.returnMoves).value;
    done, seen := done + 32 * p.returnMoves, seen + 32;
    StageTracks(m, start, returned, done, seen, KeySeal, 256, SealSymbols(key), p.sealMoves);
    var sealed := AbsorbSequence(m, EnterDomain(m, returned, KeySeal, 256), SealSymbols(key), KeySeal, p.sealMoves).value;
    ResetTracks(start, sealed, done + 16 * p.sealMoves, seen + 16);
  }

  lemma KeyTracks<C>(m: Mixing<C>, start: State<C>, key: Key, p: KeyProfile)
    ensures TracksIf(ValidKeyProfile(p), KeyedRun(m, start, key, p), BodyOf(start), KeyMoves(p), 0)
  {
    hide AbsorbKey;
    if ValidKeyProfile(p) {
      AbsorbKeyTracks(m, BodyOf(start), Run(start, [], {}), 0, start.symbolIndex, key, p);
    }
  }

  lemma ResetTracks<C>(start: Body, run: Run<C>, moves: nat, symbols: nat)
    requires Tracks(start, run, moves, symbols)
    ensures Tracks(start, run.(state := run.state.(symbolIndex := 0)), moves, 0)
  {
  }

  function ReturnMoves(p: ReturnProfile, n: nat): nat {
    Times(p.initSymbols, p.initMoves) + Times(n, p.messageMoves) + Times(p.sealSymbols, p.sealMoves)
  }

  /** The return pass appends init_symbols*init_moves + n*message_moves + seal_symbols*seal_moves moves,
      and runs exactly when its profile is valid. */
  lemma ReturnTracks<C>(m: Mixing<C>, start: Body, run: Run<C>, moves: nat, symbols: nat, message: Message, p: ReturnProfile)
    requires Tracks(start, run, moves, symbols)
    ensures TracksIf(ValidReturnProfile(p), ReturnPass(m, run, message, p), start,
      moves + ReturnMoves(p, |message|), symbols + p.initSymbols + |message| + p.sealSymbols)
  {
    hide Tracks, AbsorbPicked, EnterDomain, PickInit, PickReturn, PickSeal, Times;
    if ValidReturnProfile(p) {
      var snapshot := run.state;
      var boundary := m.boundary(snapshot, |message|);
      var init := PickInit(m, snapshot, |message|);
      PickedStageTracks(m, start, run, moves, symbols, ReturnInit, boundary, init, p.initMoves, p.initSymbols);
      var started := AbsorbPicked(m, EnterDomain(m, run, ReturnInit, boundary), init, ReturnInit, p.initMoves, p.initSymbols).value;
      var done, seen := moves + Times(p.initSymbols, p.initMoves), symbols + p.initSymbols;
      var second, fold := m.returnBoundary(boundary, snapshot.controller), PickReturn(m, snapshot, message);
      PickedStageTracks(m, start, started, done, seen, InputReturn, second, fold, p.messageMoves, |message|);
      var folded := AbsorbPicked(m, EnterDomain(m, started, InputReturn, second), fold, InputReturn, p.messageMoves, |message|).value;
      done, seen := done + Times(|message|, p.messageMoves), seen + |message|;
      var third := m.sealBoundary(boundary, folded.state.controller);
      PickedStageTracks(m, start, folded, done, seen, ReturnSeal, third, PickSeal(m, snapshot, |message|), p.sealMoves, p.sealSymbols);
    }
  }

  lemma EmitTracks<C>(m: Mixing<C>, start: Body, run: Run<C>, moves: nat, symbols: nat, round: nat)
    requires Tracks(start, run, moves, symbols)
    ensures Tracks(start, Emit(m, run, round).1, moves, symbols)
  {
  }

  predicate SqueezedIf<C>(ok: bool, r: Result<Squeezed<C>, Error>, bytes: nat, start: Body, moves: nat, symbols: nat) {
    (r.Ok? <==> ok) && (r.Ok? ==> |r.value.output| == bytes && Tracks(start, r.value.run, moves, symbols))
  }

  lemma {:induction false} SqueezeTracks<C>(m: Mixing<C>, start: Body, run: Run<C>, moves: nat, symbols: nat, count: nat, n: nat)
    requires Tracks(start, run, moves, symbols)
    ensures SqueezedIf(n == 0 || ValidCount(count), SqueezeRounds(m, run, count, n), n, start, moves + Times(n, count), symbols + n)
  {
    hide Tracks, AbsorbSymbol, Emit, Times;
    if n == 0 {
      TimesStep(0, count);
    } else {
      SqueezeTracks(m, start, run, moves, symbols, count, n - 1);
      var r := SqueezeRounds(m, run, count, n - 1);
      TimesStep(n - 1, count);
      if r.Ok? {
        var (b, emitted) := Emit(m, r.value.run, n - 1);
        EmitTracks(m, start, r.value.run, moves + Times(n - 1, count), symbols + n - 1, n - 1);
        SymbolTracks(m, start, emitted, moves + Times(n - 1, count), symbols + n - 1, m.echo(b, n - 1), Squeeze, count);
      }
    }
  }

  /** The width of the binding: how many controller bytes are fed back before the squeeze. */
  ghost predicate BindingWidth<C(!new)>(m: Mixing<C>, width: nat) {
    width > 0 && forall c: C :: |m.binding(c)| == width
  }

  lemma BindTracks<C(!new)>(m: Mixing<C>, start: Body, run: Run<C>, moves: nat, symbols: nat, length: u64, finalMoves: nat, width: nat)
    requires Tracks(start, run, moves, symbols) && BindingWidth(m, width)
    ensures TracksIf(ValidCount(finalMoves), Bind(m, run, length, finalMoves), start, moves + Times(width, finalMoves), symbols + width)
  {
    hide Tracks, AbsorbPicked, EnterDomain, PickBinding, Times;
    var binding := m.binding(EnterDomain(m, run, Finalization, length as bv64).state.controller);
    PickedStageTracks(m, start, run, moves, symbols, Finalization, length as bv64, PickBinding(m, binding, length), finalMoves, |binding|);
  }

  lemma BoundTracks<C(!new)>(m: Mixing<C>, start: Body, run: Run<C>, moves: nat, symbols: nat, length: u64,
      finalMoves: nat, squeezeMoves: nat, width: nat)
    requires Tracks(start, run, moves, symbols) && BindingWidth(m, width)
    ensures SqueezedIf(ValidCount(finalMoves) && ValidCount(squeezeMoves), BoundOutput(m, run, length, finalMoves, squeezeMoves),
      OUTPUT_BYTES, start, moves + Times(width, finalMoves) + Times(32, squeezeMoves), symbols + width + 32)
  {
    hide Tracks, Bind, EnterDomain, SqueezeRounds, Times;
    BindTracks(m, start, run, moves, symbols, length, finalMoves, width);
    var bound := Bind(m, run, length, finalMoves);
    if bound.Ok? {
      EnterTracks(m, start, bound.value, moves + Times(width, finalMoves), symbols + width, Squeeze, 32);
      SqueezeTracks(m, start, EnterDomain(m, bound.value, Squeeze, 32), moves + Times(width, finalMoves), symbols + width, squeezeMoves, OUTPUT_BYTES);
    }
  }

  function TotalMoves(p: Profile, width: nat, n: nat): nat {
    KeyMoves(p.key) + Times(n, p.forwardMoves) + ReturnMoves(p.foldback, n) + Times(width, p.finalMoves) + Times(32, p.squeezeMoves)
  }

  function TotalSymbols(p: Profile, width: nat, n: nat): nat {
    2 * n + p.foldback.initSymbols + p.foldback.sealSymbols + width + 32
  }

  /** The profile and message for which no count is rejected on the way. */
  predicate Runs(p: Profile, message: Message) {
    && ValidKeyProfile(p.key)
    && (message == [] || ValidCount(p.forwardMoves))
    && ValidReturnProfile(p.foldback)
    && ValidCount(p.finalMoves) && ValidCount(p.squeezeMoves)
  }

  lemma FoldTracks<C(!new)>(m: Mixing<C>, start: Body, run: Run<C>, moves: nat, symbols: nat, message: Message, p: Profile, width: nat)
    requires Tracks(start, run, moves, symbols) && BindingWidth(m, width)
    ensures SqueezedIf(ValidReturnProfile(p.foldback) && ValidCount(p.finalMoves) && ValidCount(p.squeezeMoves),
      FoldAndBind(m, run, message, p), OUTPUT_BYTES, start,
      moves + ReturnMoves(p.foldback, |message|) + Times(width, p.finalMoves) + Times(32, p.squeezeMoves),
      symbols + p.foldback.initSymbols + |message| + p.foldback.sealSymbols + width + 32)
  {
    hide Tracks, ReturnPass, BoundOutput, ReturnMoves, Times;
    ReturnTracks(m, start, run, moves, symbols, message, p.foldback);
    var returned := ReturnPass(m, run, message, p.foldback);
    if returned.Ok? {
      BoundTracks(m, start, returned.value, moves + ReturnMoves(p.foldback, |message|),
        symbols + p.foldback.initSymbols + |message| + p.foldback.sealSymbols, |message|, p.finalMoves, p.squeezeMoves, width);
    }
  }

  lemma ForwardedTracks<C>(m: Mixing<C>, start: State<C>, key: Key, message: Message, p: Profile)
    ensures TracksIf(ValidKeyProfile(p.key) && (message == [] || ValidCount(p.forwardMoves)),
      ForwardedRun(m, start, key, message, p), BodyOf(start), KeyMoves(p.key) + Times(|message|, p.forwardMoves), |message|)
  {
    hide Tracks, KeyedRun, AbsorbSequence, EnterDomain, KeyMoves, Times;
    KeyTracks(m, start, key, p.key);
    var keyed := KeyedRun(m, start, key, p.key);
    if keyed.Ok? {
      StageTracks(m, BodyOf(start), keyed.value, KeyMoves(p.key), 0, InputForward, |message| as bv64, message, p.forwardMoves);
    }
  }

  /** For any controller, key, message and start: when an evaluation returns, and what it has done. */
  lemma EvaluateTracks<C(!new)>(m: Mixing<C>, start: State<C>, key: Key, message: Message, p: Profile, width: nat)
    requires BindingWidth(m, width)
    ensures SqueezedIf(Runs(p, message), Evaluate(m, start, key, message, p), OUTPUT_BYTES, BodyOf(start),
      TotalMoves(p, width, |message|), TotalSymbols(p, width, |message|))
  {
    hide Tracks, ForwardedRun, FoldAndBind, KeyMoves, ReturnMoves, Times, BindingWidth;
    ForwardedTracks(m, start, key, message, p);
    var forwarded := ForwardedRun(m, start, key, message, p);
    if forwarded.Ok? {
      FoldTracks(m, BodyOf(start), forwarded.value, KeyMoves(p.key) + Times(|message|, p.forwardMoves), |message|, message, p, width);
    }
  }

  /** The evaluation returned 32 bytes after exactly these counts; it conserved the cells, can be undone
      from its trace, and left the cursor on the byte it started on. */
  ghost predicate Completed<C>(start: State<C>, r: Result<Squeezed<C>, Error>, moves: nat, symbols: nat) {
    && r.Ok?
    && var run := r.value.run;
    && |r.value.output| == OUTPUT_BYTES
    && |run.trace| == moves
    && run.state.symbolIndex == symbols % TWO_64
    && Legal(BodyOf(start), run.trace)
    && multiset(run.state.cells) == multiset(start.cells)
    && (DoubleByte(run.state.cells) <==> DoubleByte(start.cells))
    && Rewind(run.state.cells, run.trace) == start.cells
    && Cell(run.state.cells, run.state.cursor) == Cell(start.cells, start.cursor)
  }

  lemma TrackedIsCompleted<C>(start: State<C>, r: Result<Squeezed<C>, Error>, moves: nat, symbols: nat)
    requires SqueezedIf(true, r, OUTPUT_BYTES, BodyOf(start), moves, symbols)
    ensures Completed(start, r, moves, symbols)
  {
    var run := r.value.run;
    hide Legal, BodyAfter, Rewind, DoubleByte, Cell;
    ChainKeepsCells(BodyOf(start), run.trace);
    RewindRestores(BodyOf(start), run.trace);
    CursorCarriesItsCell(BodyOf(start), run.trace);
  }

  /** For any controller, key, message, start and profile that runs. */
  lemma EvaluationCompletes<C(!new)>(m: Mixing<C>, start: State<C>, key: Key, message: Message, p: Profile, width: nat)
    requires BindingWidth(m, width) && Runs(p, message)
    ensures Completed(start, Evaluate(m, start, key, message, p), TotalMoves(p, width, |message|), TotalSymbols(p, width, |message|))
  {
    EvaluateTracks(m, start, key, message, p, width);
    hide Evaluate, Tracks, TotalMoves, TotalSymbols, Completed;
    TrackedIsCompleted(start, Evaluate(m, start, key, message, p), TotalMoves(p, width, |message|), TotalSymbols(p, width, |message|));
  }

  /** With the default profile n bytes take exactly 704 + 16n moves and 2n + 72 counted symbols. */
  lemma DefaultEvaluation<C(!new)>(m: Mixing<C>, start: State<C>, key: Key, message: Message)
    requires BindingWidth(m, 16)
    ensures Completed(start, Evaluate(m, start, key, message, DEFAULT_PROFILE), 704 + 16 * |message|, 2 * |message| + 72)
  {
    hide Evaluate, Completed, BindingWidth;
    EvaluationCompletes(m, start, key, message, DEFAULT_PROFILE, 16);
  }
}
