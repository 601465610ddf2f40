/** Locality: a difference confined to cells that a run never reads cannot reach anything else.

    `different` is the set of cells on which two states may differ.  As long as an operation on one
    state reads none of them, the same operation on the other makes the same moves, ends with the
    same controller and leaves exactly the same difference. */
module Locality {
  import opened Foundations
  import opened CubeGeometry
  import opened Machine
  import opened Evaluation

  ghost predicate AgreeOff(a: Cells, b: Cells, different: set<Coord>) {
    forall c: Coord :: c !in different ==> Cell(a, c) == Cell(b, c)
  }

  ghost predicate AgreeOn(a: Cells, b: Cells, different: set<Coord>) {
    forall c: Coord :: c in different ==> Cell(a, c) == Cell(b, c)
  }

  /** Two runs in step from the cubes `x` and `y`: equal but for the differing cells, which are as they were. */
  ghost predicate InStep<C>(x: Cells, y: Cells, a: Run<C>, b: Run<C>, different: set<Coord>) {
    && a.trace == b.trace && a.read == b.read
    && a.state.cursor == b.state.cursor && a.state.previousAxis == b.state.previousAxis
    && a.state.controller == b.state.controller && a.state.symbolIndex == b.state.symbolIndex
    && AgreeOff(a.state.cells, b.state.cells, different)
    && AgreeOn(a.state.cells, x, different) && AgreeOn(b.state.cells, y, different)
  }

  lemma ReadsAgree(a: Cells, b: Cells, coords: seq<Coord>, different: set<Coord>)
    requires AgreeOff(a, b, different) && different !! Coords(coords)
    ensures ReadCells(a, coords) == ReadCells(b, coords)
  {
    forall i | 0 <= i < |coords| ensures Cell(a, coords[i]) == Cell(b, coords[i]) {
      assert coords[i] in Coords(coords);
    }
  }

  lemma OnLineCoords(axis: Axis, p: Coord, c: Coord)
    ensures LineContains(axis, p, c) <==> c in Coords(LineCoords(axis, p))
  {
    var coords := LineCoords(axis, p);
    if LineContains(axis, p, c) {
      assert coords[Along(axis, c)] == c;
    }
  }

  lemma TurnsAgree(a: Cells, b: Cells, axis: Axis, p: Coord, k: Digit, different: set<Coord>)
    requires AgreeOff(a, b, different) && different !! Coords(LineCoords(axis, p))
    ensures AgreeOff(Turn(a, axis, p, k), Turn(b, axis, p, k), different)
    ensures AgreeOn(Turn(a, axis, p, k), a, different)
  {
    hide Cell, Turn, LineCoords, Coords, LineContains, Step;
    forall c: Coord ensures c !in different ==> Cell(Turn(a, axis, p, k), c) == Cell(Turn(b, axis, p, k), c)
      ensures c in different ==> Cell(Turn(a, axis, p, k), c) == Cell(a, c)
    {
      var back := Step(c, axis, Minus(k));
      TurnAt(a, axis, p, k, c);
      TurnAt(b, axis, p, k, c);
      OnLineCoords(axis, p, c);
      OnLineCoords(axis, p, back);
      OwnLine(axis, p);
      SameLine(axis, p, p, c, Minus(k));
    }
  }

  lemma LineCoordsShared(axis: Axis, p: Coord, amount: nat)
    ensures LineCoords(axis, Advance(p, axis, amount)) == LineCoords(axis, p)
  {
  }

  lemma EnterInStep<C>(m: Mixing<C>, x: Cells, y: Cells, a: Run<C>, b: Run<C>, different: set<Coord>, domain: Domain, length: bv64)
    requires InStep(x, y, a, b, different)
    requires different !! EnterDomain(m, a, domain, length).read
    ensures InStep(x, y, EnterDomain(m, a, domain, length), EnterDomain(m, b, domain, length), different)
  {
    ReadsAgree(a.state.cells, b.state.cells, SlotCoords(m.slots(a.state.controller, domain, length)), different);
  }

  lemma PreviewsAgree<C>(m: Mixing<C>, a: Cells, b: Cells, context: Context<C>, different: set<Coord>)
    requires AgreeOff(a, b, different)
    requires var d := Preview(m, a, context); different !! Coords(d.probes) && different !! Coords(d.scans)
    ensures Preview(m, a, context) == Preview(m, b, context)
  {
    hide ReadCells, Coords, AgreeOff;
    var d := Preview(m, a, context);
    ReadsAgree(a, b, d.probes, different);
    ReadsAgree(a, b, d.scans, different);
  }

  lemma EffectsAgree(a: Cells, b: Cells, cursor: Coord, d: Decision, different: set<Coord>)
    requires AgreeOff(a, b, different)
    requires different !! Coords(d.probes) && different !! Coords(d.scans) && different !! Coords(LineCoords(d.axis, cursor))
    ensures EffectOf(a, Rotate(a, d.axis, cursor, d.amount), cursor, d) == EffectOf(b, Rotate(b, d.axis, cursor, d.amount), cursor, d)
  {
    hide ReadCells, Coords, AgreeOff, LineCoords, Advance, Turn;
    TurnsAgree(a, b, d.axis, cursor, d.amount % 8, different);
    LineCoordsShared(d.axis, cursor, d.amount);
    var turnedA, turnedB := Rotate(a, d.axis, cursor, d.amount), Rotate(b, d.axis, cursor, d.amount);
    ReadsAgree(a, b, d.probes, different);
    ReadsAgree(a, b, d.scans, different);
    ReadsAgree(a, b, LineCoords(d.axis, cursor), different);
    ReadsAgree(turnedA, turnedB, LineCoords(d.axis, cursor), different);
    ReadsAgree(turnedA, turnedB, d.probes, different);
  }

  lemma MoveInStep<C>(m: Mixing<C>, x: Cells, y: Cells, a: Run<C>, b: Run<C>, different: set<Coord>, symbol: byte, domain: Domain, phase: Phase)
    requires InStep(x, y, a, b, different)
    requires different !! ApplyMove(m, a, symbol, domain, phase).read
    ensures InStep(x, y, ApplyMove(m, a, symbol, domain, phase), ApplyMove(m, b, symbol, domain, phase), different)
  {
    hide ReadCells, Coords, AgreeOff, LineCoords, Advance, Turn, Preview, EffectOf;
    var p, q := a.state, b.state;
    var context := ContextOf(m, p, symbol, domain, phase);
    var d := Preview(m, p.cells, context);
    PreviewsAgree(m, p.cells, q.cells, context, different);
    EffectsAgree(p.cells, q.cells, p.cursor, d, different);
    TurnsAgree(p.cells, q.cells, d.axis, p.cursor, d.amount % 8, different);
    AgreeSymmetric(p.cells, q.cells, different);
    TurnsAgree(q.cells, p.cells, d.axis, p.cursor, d.amount % 8, different);
  }

  lemma AgreeSymmetric(a: Cells, b: Cells, different: set<Coord>)
    requires AgreeOff(a, b, different)
    ensures AgreeOff(b, a, different)
  {
  }

  lemma {:induction false} MovesInStep<C>(m: Mixing<C>, x: Cells, y: Cells, a: Run<C>, b: Run<C>, different: set<Coord>, symbol: byte, domain: Domain, n: nat)
    requires InStep(x, y, a, b, different) && n < 256
    requires different !! Moves(m, a, symbol, domain, n).read
    ensures InStep(x, y, Moves(m, a, symbol, domain, n), Moves(m, b, symbol, domain, n), different)
    ensures a.read <= Moves(m, a, symbol, domain, n).read
  {
    if n == 0 {
    } else {
      var before := Moves(m, a, symbol, domain, n - 1);
      assert before.read <= ApplyMove(m, before, symbol, domain, n - 1).read;
      hide InStep, ApplyMove;
      MovesInStep(m, x, y, a, b, different, symbol, domain, n - 1);
      MoveInStep(m, x, y, before, Moves(m, b, symbol, domain, n - 1), different, symbol, domain, n - 1);
    }
  }

  lemma {:induction false} MovesReadMore<C>(m: Mixing<C>, run: Run<C>, symbol: byte, domain: Domain, n: nat)
    requires n < 256
    ensures run.read <= Moves(m, run, symbol, domain, n).read
  {
    if n == 0 {
    } else {
      MovesReadMore(m, run, symbol, domain, n - 1);
    }
  }

  lemma SymbolReadsMore<C>(m: Mixing<C>, run: Run<C>, symbol: byte, domain: Domain, moves: nat)
    requires ValidCount(moves)
    ensures run.read <= AbsorbSymbol(m, run, symbol, domain, moves).value.read
  {
    hide Moves;
    MovesReadMore(m, run, symbol, domain, moves);
  }

  ghost predicate BothInStep<C>(x: Cells, y: Cells, a: Result<Run<C>, Error>, b: Result<Run<C>, Error>, different: set<Coord>) {
    a.Ok? && b.Ok? && InStep(x, y, a.value, b.value, different)
  }

  lemma SymbolInStep<C>(m: Mixing<C>, x: Cells, y: Cells, a: Run<C>, b: Run<C>, different: set<Coord>, symbol: byte, domain: Domain, moves: nat)
    requires InStep(x, y, a, b, different) && ValidCount(moves)
    requires different !! AbsorbSymbol(m, a, symbol, domain, moves).value.read
    ensures BothInStep(x, y, AbsorbSymbol(m, a, symbol, domain, moves), AbsorbSymbol(m, b, symbol, domain, moves), different)
  {
    hide Moves;
    MovesInStep(m, x, y, a, b, different, symbol, domain, moves);
  }

  lemma {:induction false} BindingInStep<C>(m: Mixing<C>, x: Cells, y: Cells, a: Run<C>, b: Run<C>, different: set<Coord>,
      binding: seq<byte>, length: u64, moves: nat, n: nat)
    requires InStep(x, y, a, b, different) && ValidCount(moves)
    requires var r := AbsorbPicked(m, a, PickBinding(m, binding, length), Finalization, moves, n);
      r.Ok? && different !! r.value.read
    ensures var pick := PickBinding(m, binding, length);
      BothInStep(x, y, AbsorbPicked(m, a, pick, Finalization, moves, n), AbsorbPicked(m, b, pick, Finalization, moves, n), different)
  {
    hide InStep, AbsorbSymbol;
    if n == 0 {
    } else {
      var pick := PickBinding(m, binding, length);
      var p, q := AbsorbPicked(m, a, pick, Finalization, moves, n - 1).value, AbsorbPicked(m, b, pick, Finalization, moves, n - 1);
      var symbol := pick(p.state, n - 1);
      SymbolReadsMore(m, p, symbol, Finalization, moves);
      BindingInStep(m, x, y, a, b, different, binding, length, moves, n - 1);
      SymbolInStep(m, x, y, p, q.value, different, symbol, Finalization, moves);
    }
  }

  lemma {:induction false} BindingReadsMore<C>(m: Mixing<C>, run: Run<C>, binding: seq<byte>, length: u64, moves: nat, n: nat)
    requires ValidCount(moves)
    ensures var r := AbsorbPicked(m, run, PickBinding(m, binding, length), Finalization, moves, n);
      r.Ok? && run.read <= r.value.read
  {
    hide AbsorbSymbol;
    if n == 0 {
    } else {
      BindingReadsMore(m, run, binding, length, moves, n - 1);
      var before := AbsorbPicked(m, run, PickBinding(m, binding, length), Finalization, moves, n - 1).value;
      var symbol := PickBinding(m, binding, length)(before.state, n - 1);
      assert AbsorbSymbol(m, before, symbol, Finalization, moves).Ok? by { SymbolAccepted(m, before, symbol, Finalization, moves); }
      SymbolReadsMore(m, before, symbol, Finalization, moves);
    }
  }

  lemma SymbolAccepted<C>(m: Mixing<C>, run: Run<C>, symbol: byte, domain: Domain, moves: nat)
    ensures AbsorbSymbol(m, run, symbol, domain, moves).Ok? <==> ValidCount(moves)
  {
    hide Moves;
  }

  lemma EmitInStep<C>(m: Mixing<C>, x: Cells, y: Cells, a: Run<C>, b: Run<C>, different: set<Coord>, round: nat)
    requires InStep(x, y, a, b, different) && different !! Emit(m, a, round).1.read
    ensures Emit(m, a, round).0 == Emit(m, b, round).0
    ensures InStep(x, y, Emit(m, a, round).1, Emit(m, b, round).1, different)
  {
    ReadsAgree(a.state.cells, b.state.cells, m.outputCoords(a.state.controller, round), different);
  }

  ghost predicate SameOutput<C>(x: Cells, y: Cells, a: Result<Squeezed<C>, Error>, b: Result<Squeezed<C>, Error>, different: set<Coord>) {
    a.Ok? && b.Ok? && a.value.output == b.value.output && InStep(x, y, a.value.run, b.value.run, different)
  }

  lemma RoundInStep<C>(m: Mixing<C>, x: Cells, y: Cells, a: Squeezed<C>, b: Squeezed<C>, different: set<Coord>, moves: nat, round: nat)
    requires InStep(x, y, a.run, b.run, different) && a.output == b.output && ValidCount(moves)
    requires var r := SqueezeRound(m, a, moves, round); r.Ok? && different !! r.value.run.read
    ensures SameOutput(x, y, SqueezeRound(m, a, moves, round), SqueezeRound(m, b, moves, round), different)
  {
    hide InStep, AbsorbSymbol, Emit;
    var (out, emitted) := Emit(m, a.run, round);
    SymbolReadsMore(m, emitted, m.echo(out, round), Squeeze, moves);
    EmitInStep(m, x, y, a.run, b.run, different, round);
    SymbolInStep(m, x, y, emitted, Emit(m, b.run, round).1, different, m.echo(out, round), Squeeze, moves);
  }

  lemma RoundGrows<C>(m: Mixing<C>, before: Squeezed<C>, moves: nat, round: nat)
    requires ValidCount(moves)
    ensures var r := SqueezeRound(m, before, moves, round); var (out, emitted) := Emit(m, before.run, round);
      r.Ok? && r.value.output == before.output + [out] && before.run.read <= emitted.read <= r.value.run.read
  {
    var (out, emitted) := Emit(m, before.run, round);
    hide AbsorbSymbol;
    SymbolAccepted(m, emitted, m.echo(out, round), Squeeze, moves);
    SymbolReadsMore(m, emitted, m.echo(out, round), Squeeze, moves);
  }

  lemma {:induction false} SqueezeInStep<C>(m: Mixing<C>, x: Cells, y: Cells, a: Run<C>, b: Run<C>, different: set<Coord>, moves: nat, n: nat)
    requires InStep(x, y, a, b, different) && ValidCount(moves)
    requires var r := SqueezeRounds(m, a, moves, n); r.Ok? && different !! r.value.run.read
    ensures SameOutput(x, y, SqueezeRounds(m, a, moves, n), SqueezeRounds(m, b, moves, n), different)
  {
    hide InStep, SqueezeRound;
    if n == 0 {
    } else {
      var p := SqueezeRounds(m, a, moves, n - 1).value;
      RoundGrows(m, p, moves, n - 1);
      SqueezeInStep(m, x, y, a, b, different, moves, n - 1);
      var q := SqueezeRounds(m, b, moves, n - 1).value;
      RoundInStep(m, x, y, p, q, different, moves, n - 1);
    }
  }

  lemma {:induction false} SqueezeRuns<C>(m: Mixing<C>, run: Run<C>, moves: nat, n: nat)
    requires ValidCount(moves)
    ensures var r := SqueezeRounds(m, run, moves, n); r.Ok? && |r.value.output| == n && run.read <= r.value.run.read
  {
    hide SqueezeRound, Emit;
    if n == 0 {
    } else {
      SqueezeRuns(m, run, moves, n - 1);
      RoundGrows(m, SqueezeRounds(m, run, moves, n - 1).value, moves, n - 1);
    }
  }

  /** Later rounds only extend the output. */
  lemma {:induction false} SqueezeExtends<C>(m: Mixing<C>, run: Run<C>, moves: nat, k: nat, n: nat)
    requires ValidCount(moves) && k <= n
    ensures SqueezeRounds(m, run, moves, k).Ok? && SqueezeRounds(m, run, moves, n).Ok?
    ensures SqueezeRounds(m, run, moves, k).value.output <= SqueezeRounds(m, run, moves, n).value.output
    decreases n
  {
    hide SqueezeRound, Emit;
    SqueezeRuns(m, run, moves, n);
    if k < n {
      SqueezeExtends(m, run, moves, k, n - 1);
      RoundGrows(m, SqueezeRounds(m, run, moves, n - 1).value, moves, n - 1);
    }
  }

  /** The state after binding and squeeze entry, from which the output rounds start. */
  function SqueezeStart<C>(m: Mixing<C>, run: Run<C>, length: u64, finalMoves: nat): Result<Run<C>, Error> {
    var bound :- Bind(m, run, length, finalMoves);
    Ok(EnterDomain(m, bound, Squeeze, 32))
  }

  lemma StartGrows<C>(m: Mixing<C>, run: Run<C>, length: u64, finalMoves: nat)
    requires ValidCount(finalMoves)
    ensures var r := SqueezeStart(m, run, length, finalMoves);
      r.Ok? && Bind(m, run, length, finalMoves).Ok?
      && run.read <= EnterDomain(m, run, Finalization, length as bv64).read <= Bind(m, run, length, finalMoves).value.read <= r.value.read
  {
    var entered := EnterDomain(m, run, Finalization, length as bv64);
    var binding := m.binding(entered.state.controller);
    hide AbsorbPicked;
    BindingReadsMore(m, entered, binding, length, finalMoves, |binding|);
  }

  lemma SameController<C>(x: Cells, y: Cells, a: Run<C>, b: Run<C>, different: set<Coord>)
    requires InStep(x, y, a, b, different)
    ensures a.state.controller == b.state.controller
  {
  }

  lemma BindInStep<C>(m: Mixing<C>, x: Cells, y: Cells, a: Run<C>, b: Run<C>, different: set<Coord>, length: u64, finalMoves: nat)
    requires InStep(x, y, a, b, different) && ValidCount(finalMoves)
    requires var r := Bind(m, a, length, finalMoves); r.Ok? && different !! r.value.read
    ensures BothInStep(x, y, Bind(m, a, length, finalMoves), Bind(m, b, length, finalMoves), different)
  {
    hide InStep, AbsorbPicked, EnterDomain, PickBinding, SqueezeStart;
    StartGrows(m, a, length, finalMoves);
    var enteredA, enteredB := EnterDomain(m, a, Finalization, length as bv64), EnterDomain(m, b, Finalization, length as bv64);
    EnterInStep(m, x, y, a, b, different, Finalization, length as bv64);
    SameController(x, y, enteredA, enteredB, different);
    var binding := m.binding(enteredA.state.controller);
    BindingInStep(m, x, y, enteredA, enteredB, different, binding, length, finalMoves, |binding|);
  }

  lemma StartInStep<C>(m: Mixing<C>, x: Cells, y: Cells, a: Run<C>, b: Run<C>, different: set<Coord>, length: u64, finalMoves: nat)
    requires InStep(x, y, a, b, different) && ValidCount(finalMoves)
    requires var r := SqueezeStart(m, a, length, finalMoves); r.Ok? && different !! r.value.read
    ensures BothInStep(x, y, SqueezeStart(m, a, length, finalMoves), SqueezeStart(m, b, length, finalMoves), different)
  {
    hide InStep, Bind, EnterDomain;
    StartGrows(m, a, length, finalMoves);
    BindInStep(m, x, y, a, b, different, length, finalMoves);
    EnterInStep(m, x, y, Bind(m, a, length, finalMoves).value, Bind(m, b, length, finalMoves).value, different, Squeeze, 32);
  }

  lemma BoundIsSqueeze<C>(m: Mixing<C>, run: Run<C>, length: u64, finalMoves: nat, squeezeMoves: nat)
    requires ValidCount(finalMoves) && ValidCount(squeezeMoves)
    ensures var start := SqueezeStart(m, run, length, finalMoves);
      start.Ok? && BoundOutput(m, run, length, finalMoves, squeezeMoves) == SqueezeRounds(m, start.value, squeezeMoves, OUTPUT_BYTES)
  {
    hide Bind, EnterDomain, SqueezeRounds;
    StartGrows(m, run, length, finalMoves);
  }

  /** A run that has read nothing yet. */
  function Fresh<C>(s: State<C>): Run<C> {
    Run(s, [], {})
  }

  /** The two states are equal except on `different`. */
  ghost predicate DifferOnlyOn<C>(a: State<C>, b: State<C>, different: set<Coord>) {
    && a.cursor == b.cursor && a.previousAxis == b.previousAxis
    && a.controller == b.controller && a.symbolIndex == b.symbolIndex
    && AgreeOff(a.cells, b.cells, different)
  }

  /** If the finalizer never reads a differing cell, the whole output agrees, both runs make the same
      moves, and the states still differ exactly where they did. */
  lemma FinalizerLocality<C>(m: Mixing<C>, a: State<C>, b: State<C>, different: set<Coord>, length: u64, finalMoves: nat, squeezeMoves: nat)
    requires DifferOnlyOn(a, b, different) && ValidCount(finalMoves) && ValidCount(squeezeMoves)
    requires var r := BoundOutput(m, Fresh(a), length, finalMoves, squeezeMoves); r.Ok? ==> different !! r.value.run.read
    ensures SameOutput(a.cells, b.cells, BoundOutput(m, Fresh(a), length, finalMoves, squeezeMoves),
      BoundOutput(m, Fresh(b), length, finalMoves, squeezeMoves), different)
  {
    assert InStep(a.cells, b.cells, Fresh(a), Fresh(b), different);
    BoundIsSqueeze(m, Fresh(a), length, finalMoves, squeezeMoves);
    BoundIsSqueeze(m, Fresh(b), length, finalMoves, squeezeMoves);
    var p, q := SqueezeStart(m, Fresh(a), length, finalMoves).value, SqueezeStart(m, Fresh(b), length, finalMoves).value;
    hide InStep, BoundOutput, SqueezeRounds, SqueezeStart;
    SqueezeRuns(m, p, squeezeMoves, OUTPUT_BYTES);
    StartInStep(m, a.cells, b.cells, Fresh(a), Fresh(b), different, length, finalMoves);
    SqueezeInStep(m, a.cells, b.cells, p, q, different, squeezeMoves, OUTPUT_BYTES);
  }

  lemma PrefixInStep<C>(m: Mixing<C>, x: Cells, y: Cells, a: Run<C>, b: Run<C>, different: set<Coord>, moves: nat, n: nat)
    requires InStep(x, y, a, b, different) && ValidCount(moves)
    requires var r := SqueezeRounds(m, a, moves, n); r.Ok? && different !! Emit(m, r.value.run, n).1.read
    ensures var r, s := SqueezeRounds(m, a, moves, n + 1), SqueezeRounds(m, b, moves, n + 1);
      r.Ok? && s.Ok? && r.value.output == s.value.output && |r.value.output| == n + 1
  {
    hide InStep, SqueezeRound, Emit;
    SqueezeRuns(m, a, moves, n + 1);
    SqueezeRuns(m, b, moves, n + 1);
    SqueezeRuns(m, b, moves, n);
    var p, q := SqueezeRounds(m, a, moves, n).value, SqueezeRounds(m, b, moves, n).value;
    RoundGrows(m, p, moves, n);
    RoundGrows(m, q, moves, n);
    SqueezeInStep(m, x, y, a, b, different, moves, n);
    EmitInStep(m, x, y, p.run, q.run, different, n);
  }

  lemma EmitReadsMore<C>(m: Mixing<C>, run: Run<C>, round: nat)
    ensures run.read <= Emit(m, run, round).1.read
  {
  }

  /** The rounds before and including round `n` read no differing cell. */
  ghost predicate UnreadThrough<C>(m: Mixing<C>, a: State<C>, different: set<Coord>, length: u64, finalMoves: nat, squeezeMoves: nat, n: nat) {
    var start := SqueezeStart(m, Fresh(a), length, finalMoves);
    start.Ok? ==>
      var r := SqueezeRounds(m, start.value, squeezeMoves, n);
      r.Ok? ==> different !! Emit(m, r.value.run, n).1.read
  }

  lemma PrefixFromStart<C>(m: Mixing<C>, a: State<C>, b: State<C>, different: set<Coord>, length: u64, finalMoves: nat, squeezeMoves: nat, n: nat)
    requires DifferOnlyOn(a, b, different) && ValidCount(finalMoves) && ValidCount(squeezeMoves)
    requires UnreadThrough(m, a, different, length, finalMoves, squeezeMoves, n)
    ensures SqueezeStart(m, Fresh(a), length, finalMoves).Ok? && SqueezeStart(m, Fresh(b), length, finalMoves).Ok?
    ensures var p, q := SqueezeStart(m, Fresh(a), length, finalMoves).value, SqueezeStart(m, Fresh(b), length, finalMoves).value;
      var r, s := SqueezeRounds(m, p, squeezeMoves, n + 1), SqueezeRounds(m, q, squeezeMoves, n + 1);
      r.Ok? && s.Ok? && r.value.output == s.value.output && |r.value.output| == n + 1
  {
    assert InStep(a.cells, b.cells, Fresh(a), Fresh(b), different);
    hide InStep, SqueezeRounds, SqueezeStart, Bind, EnterDomain, Emit;
    StartGrows(m, Fresh(a), length, finalMoves);
    var p := SqueezeStart(m, Fresh(a), length, finalMoves).value;
    SqueezeRuns(m, p, squeezeMoves, n);
    EmitReadsMore(m, SqueezeRounds(m, p, squeezeMoves, n).value.run, n);
    StartInStep(m, a.cells, b.cells, Fresh(a), Fresh(b), different, length, finalMoves);
    PrefixInStep(m, a.cells, b.cells, p, SqueezeStart(m, Fresh(b), length, finalMoves).value, different, squeezeMoves, n);
  }

  /** Output bytes agree up to the first read: if no differing cell is read before or while output byte
      `n` is formed, the bytes 0..n agree, whatever is read later. */
  lemma OutputPrefixLocality<C>(m: Mixing<C>, a: State<C>, b: State<C>, different: set<Coord>, length: u64, finalMoves: nat, squeezeMoves: nat, n: nat)
    requires DifferOnlyOn(a, b, different) && ValidCount(finalMoves) && ValidCount(squeezeMoves) && n < OUTPUT_BYTES
    requires UnreadThrough(m, a, different, length, finalMoves, squeezeMoves, n)
    ensures var r, s := BoundOutput(m, Fresh(a), length, finalMoves, squeezeMoves), BoundOutput(m, Fresh(b), length, finalMoves, squeezeMoves);
      r.Ok? && s.Ok? && |r.value.output| == |s.value.output| == OUTPUT_BYTES
      && r.value.output[..n + 1] == s.value.output[..n + 1]
  {
    hide *;
    BoundIsSqueeze(m, Fresh(a), length, finalMoves, squeezeMoves);
    BoundIsSqueeze(m, Fresh(b), length, finalMoves, squeezeMoves);
    PrefixFromStart(m, a, b, different, length, finalMoves, squeezeMoves, n);
    var p, q := SqueezeStart(m, Fresh(a), length, finalMoves).value, SqueezeStart(m, Fresh(b), length, finalMoves).value;
    SqueezeRuns(m, p, squeezeMoves, OUTPUT_BYTES);
    SqueezeRuns(m, q, squeezeMoves, OUTPUT_BYTES);
    SqueezeExtends(m, p, squeezeMoves, n + 1, OUTPUT_BYTES);
    SqueezeExtends(m, q, squeezeMoves, n + 1, OUTPUT_BYTES);
  }
}
