/** The working state as the program updates it: one cube turned in place, four scalar fields and
    the optional trace.  Every method is proved against the value-level machine. */
module WorkingStates {
  import opened Foundations
  import opened CubeGeometry
  import opened CubeObject
  import opened Machine
  import opened Evaluation
  import opened KeySchedule

  class WorkingState<C> {
    const m: Mixing<C>
    const cube: Cube
    var cursor: Coord
    var previousAxis: Axis
    var controller: C
    var symbolIndex: u64
    var trace: seq<Move<C>>
    ghost var read: set<Coord>

    ghost predicate Valid() {
      cube.Valid()
    }

    /** The run this state stands for. */
    ghost function View(): Run<C>
      requires Valid()
      reads this, cube.cells
    {
      Run(State(cube.View(), cursor, previousAxis, controller, symbolIndex), trace, read)
    }

    constructor (m: Mixing<C>, start: State<C>)
      ensures Valid() && fresh(cube.cells)
      ensures this.m == m && View() == Run(start, [], {})
    {
      this.m := m;
      cube := new Cube(start.cells);
      cursor, previousAxis := start.cursor, start.previousAxis;
      controller, symbolIndex := start.controller, start.symbolIndex;
      trace, read := [], {};
    }

    /** A copy of the state by value. */
    method Snapshot() returns (s: State<C>)
      requires Valid()
      ensures s == View().state
    {
      var cells := cube.cells[..];
      s := State(cells, cursor, previousAxis, controller, symbolIndex);
    }

    method ReadAt(coords: seq<Coord>) returns (bytes: seq<byte>)
      requires Valid()
      ensures bytes == ReadCells(cube.View(), coords)
    {
      bytes := [];
      for i := 0 to |coords|
        invariant bytes == ReadCells(cube.View(), coords)[..i]
      {
        var value := cube.At(coords[i]);
        bytes := bytes + [value];
      }
    }

    method Enter(domain: Domain, length: bv64)
      requires Valid()
      modifies this
      ensures View() == EnterDomain(m, old(View()), domain, length)
    {
      var digest := cube.BodyDiagonals();
      var slots := m.slots(controller, domain, length);
      var picked := seq(|slots|, i requires 0 <= i < |slots| => digest[slots[i]]);
      assert picked == ReadCells(cube.View(), SlotCoords(slots));
      controller := m.enter(controller, domain, length, picked);
      read := read + Coords(SlotCoords(slots));
    }

    method PreviewMove(context: Context<C>) returns (d: Decision, probed: seq<byte>, scanned: seq<byte>)
      requires Valid()
      ensures d == Preview(m, cube.View(), context)
      ensures probed == ReadCells(cube.View(), d.probes) && scanned == ReadCells(cube.View(), d.scans)
    {
      var probes := m.probes(context);
      probed := ReadAt(probes);
      var axis := ChooseOtherAxis(context.previousAxis, m.secondAxis(context, probed));
      var scans := m.scans(context, axis, probed);
      scanned := ReadAt(scans);
      d := Decision(axis, m.amount(context, axis, probed, scanned), probes, scans);
    }

    method Apply(symbol: byte, domain: Domain, phase: Phase)
      requires Valid()
      modifies this, cube.cells
      ensures View() == ApplyMove(m, old(View()), symbol, domain, phase)
    {
      ghost var before := View();
      var injected := m.inject(controller, cursor, symbolIndex, symbol, domain);
      var context := Context(injected, cursor, previousAxis, domain, phase, symbol);
      var d, probed, scanned := PreviewMove(context);
      var lineBefore := cube.ReadLine(d.axis, cursor);
      LineIsRead(cube.View(), d.axis, cursor);
      cube.RotateLine(d.axis, cursor, d.amount);
      var cursorBefore := cursor;
      cursor := Advance(cursor, d.axis, d.amount);
      var lineAfter := cube.ReadLine(d.axis, cursor);
      LineIsRead(cube.View(), d.axis, cursor);
      var probedAfter := ReadAt(d.probes);
      var updated := m.update(context, Effect(d, probed, scanned, cursor, lineBefore, lineAfter, probedAfter));
      var move := Move(symbolIndex, phase, symbol, domain, cursorBefore, cursor, previousAxis, d, controller, updated);
      hide Rotate, Preview, MoveReads, Advance;
      controller, previousAxis := updated, d.axis;
      trace, read := trace + [move], read + MoveReads(move);
    }

    method Count()
      requires Valid()
      modifies this`symbolIndex
      ensures View() == Counted(old(View()))
    {
      symbolIndex := NextIndex(symbolIndex);
    }

    ghost predicate AgreesWith(ok: bool, r: Result<Run<C>, Error>)
      requires Valid()
      reads this, cube.cells
    {
      (ok <==> r.Ok?) && (ok ==> View() == r.value)
    }

    /** Rejects an invalid count before anything changes. */
    method Absorb(symbol: byte, domain: Domain, moves: nat) returns (ok: bool)
      requires Valid()
      modifies this, cube.cells
      ensures AgreesWith(ok, AbsorbSymbol(m, old(View()), symbol, domain, moves))
      ensures !ok ==> View() == old(View())
    {
      hide ApplyMove, View;
      if moves == 0 || moves > 255 {
        return false;
      }
      ghost var start := View();
      for phase := 0 to moves
        invariant View() == Moves(m, start, symbol, domain, phase)
      {
        Apply(symbol, domain, phase);
      }
      Count();
      ok := true;
    }

    method AbsorbAll(symbols: seq<byte>, domain: Domain, moves: nat) returns (ok: bool)
      requires Valid()
      modifies this, cube.cells
      ensures AgreesWith(ok, AbsorbSequence(m, old(View()), symbols, domain, moves))
    {
      hide AbsorbSymbol, View;
      ghost var start := View();
      assert symbols[..0] == [];
      for i := 0 to |symbols|
        invariant AgreesWith(true, AbsorbSequence(m, start, symbols[..i], domain, moves))
      {
        ok := Absorb(symbols[i], domain, moves);
        SequenceStep(m, start, symbols, domain, moves, i);
        if !ok {
          SequenceFails(m, start, symbols, domain, moves, i + 1);
          return;
        }
      }
      ok := true;
      assert symbols[..|symbols|] == symbols;
    }

    // ----- the key passes -----

    method AbsorbForward(key: Key, moves: nat) returns (ok: bool)
      requires Valid()
      modifies this, cube.cells
      ensures AgreesWith(ok, KeyForwardPass(m, old(View()), key, moves))
    {
      hide AbsorbSequence, EnterDomain, View, ForwardSymbols, ForwardDirect, ForwardCross;
      Enter(KeyForward, 32);
      ok := AbsorbAll(HEADER, KeyForward, moves);
      if !ok { return; }
      ghost var headed := View();
      ghost var symbols := ForwardSymbols(key);
      EmptySequence(m, headed, symbols, KeyForward, moves);
      for i := 0 to 32
        invariant AgreesWith(true, AbsorbSequence(m, headed, symbols[..2 * i], KeyForward, moves))
      {
        var pair := [ForwardDirect(key, i), ForwardCross(key, i)];
        ok := AbsorbAll(pair, KeyForward, moves);
        ForwardPair(key, i);
        SequenceAppend(m, headed, symbols[..2 * i], pair, KeyForward, moves);
        if !ok {
          SequenceFails(m, headed, symbols, KeyForward, moves, 2 * i + 2);
          return;
        }
      }
      ok := true;
      assert symbols[..64] == symbols;
    }

    method AbsorbKeySchedule(key: Key, p: KeyProfile) returns (ok: bool)
      requires Valid()
      modifies this, cube.cells
      ensures AgreesWith(ok, AbsorbKey(m, old(View()), key, p))
    {
      ok := AbsorbForward(key, p.forwardMoves);
      if !ok { return; }
      ghost var forwarded := View();
      Enter(KeyReturn, 32);
      ok := AbsorbReturn(key, p.returnMoves);
      if !ok { return; }
      Enter(KeySeal, 256);
      ok := AbsorbSeal(key, p.sealMoves);
      if !ok { return; }
      symbolIndex := 0;
    }

    method AbsorbReturn(key: Key, moves: nat) returns (ok: bool)
      requires Valid()
      modifies this, cube.cells
      ensures AgreesWith(ok, AbsorbSequence(m, old(View()), ReturnSymbols(key), KeyReturn, moves))
    {
      hide AbsorbSequence, AbsorbSymbol, View, ReturnSymbol;
      ghost var start, symbols := View(), ReturnSymbols(key);
      EmptySequence(m, start, symbols, KeyReturn, moves);
      for i := 0 to 32
        invariant AgreesWith(true, AbsorbSequence(m, start, symbols[..i], KeyReturn, moves))
      {
        ok := Absorb(ReturnSymbol(key, i), KeyReturn, moves);
        SequenceStep(m, start, symbols, KeyReturn, moves, i);
        if !ok {
          SequenceFails(m, start, symbols, KeyReturn, moves, i + 1);
          return;
        }
      }
      ok := true;
      assert symbols[..32] == symbols;
    }

    method AbsorbSeal(key: Key, moves: nat) returns (ok: bool)
      requires Valid()
      modifies this, cube.cells
      ensures AgreesWith(ok, AbsorbSequence(m, old(View()), SealSymbols(key), KeySeal, moves))
    {
      hide AbsorbSequence, AbsorbSymbol, View, SealSymbol;
      ghost var start, symbols := View(), SealSymbols(key);
      EmptySequence(m, start, symbols, KeySeal, moves);
      for i := 0 to 16
        invariant AgreesWith(true, AbsorbSequence(m, start, symbols[..i], KeySeal, moves))
      {
        ok := Absorb(SealSymbol(key, i), KeySeal, moves);
        SequenceStep(m, start, symbols, KeySeal, moves, i);
        if !ok {
          SequenceFails(m, start, symbols, KeySeal, moves, i + 1);
          return;
        }
      }
      ok := true;
      assert symbols[..16] == symbols;
    }

    // ----- the return pass -----

    method ApplyReturn(message: Message, p: ReturnProfile) returns (ok: bool)
      requires Valid()
      modifies this, cube.cells
      ensures AgreesWith(ok, ReturnPass(m, old(View()), message, p))
    {
      if !ValidReturnProfile(p) {
        return false;
      }
      hide AbsorbPicked, EnterDomain;
      var snapshot := Snapshot();
      var length := |message|;
      var boundary := m.boundary(snapshot, length);
      Enter(ReturnInit, boundary);
      ok := AbsorbInit(snapshot, length, p.initMoves, p.initSymbols);
      if !ok { return; }
      Enter(InputReturn, m.returnBoundary(boundary, snapshot.controller));
      ok := AbsorbMessageBack(snapshot, message, p.messageMoves);
      if !ok { return; }
      Enter(ReturnSeal, m.sealBoundary(boundary, controller));
      ok := AbsorbReturnSeal(snapshot, length, p.sealMoves, p.sealSymbols);
    }

    method AbsorbInit(snapshot: State<C>, length: u64, moves: nat, n: nat) returns (ok: bool)
      requires Valid()
      modifies this, cube.cells
      ensures AgreesWith(ok, AbsorbPicked(m, old(View()), PickInit(m, snapshot, length), ReturnInit, moves, n))
    {
      hide AbsorbSymbol, View;
      ghost var start, pick := View(), PickInit(m, snapshot, length);
      for i := 0 to n
        invariant AgreesWith(true, AbsorbPicked(m, start, pick, ReturnInit, moves, i))
      {
        ok := Absorb(m.initSymbol(snapshot, length, i), ReturnInit, moves);
        if !ok {
          PickedFails(m, start, pick, ReturnInit, moves, i + 1, n);
          return;
        }
      }
      ok := true;
    }

    /** Folds the message back, last byte first. */
    method AbsorbMessageBack(snapshot: State<C>, message: Message, moves: nat) returns (ok: bool)
      requires Valid()
      modifies this, cube.cells
      ensures AgreesWith(ok, AbsorbPicked(m, old(View()), PickReturn(m, snapshot, message), InputReturn, moves, |message|))
    {
      hide AbsorbSymbol, View;
      ghost var start, pick := View(), PickReturn(m, snapshot, message);
      for i := 0 to |message|
        invariant AgreesWith(true, AbsorbPicked(m, start, pick, InputReturn, moves, i))
      {
        var current := Snapshot();
        ok := Absorb(m.returnSymbol(snapshot, current, message[|message| - 1 - i], |message|, i), InputReturn, moves);
        if !ok {
          PickedFails(m, start, pick, InputReturn, moves, i + 1, |message|);
          return;
        }
      }
      ok := true;
    }

    method AbsorbReturnSeal(snapshot: State<C>, length: u64, moves: nat, n: nat) returns (ok: bool)
      requires Valid()
      modifies this, cube.cells
      ensures AgreesWith(ok, AbsorbPicked(m, old(View()), PickSeal(m, snapshot, length), ReturnSeal, moves, n))
    {
      hide AbsorbSymbol, View;
      ghost var start, pick := View(), PickSeal(m, snapshot, length);
      for i := 0 to n
        invariant AgreesWith(true, AbsorbPicked(m, start, pick, ReturnSeal, moves, i))
      {
        var current := Snapshot();
        ok := Absorb(m.sealSymbol(snapshot, current, length, i), ReturnSeal, moves);
        if !ok {
          PickedFails(m, start, pick, ReturnSeal, moves, i + 1, n);
          return;
        }
      }
      ok := true;
    }

    // ----- binding and squeeze -----

    method BindController(length: u64, finalMoves: nat) returns (ok: bool)
      requires Valid()
      modifies this, cube.cells
      ensures AgreesWith(ok, Bind(m, old(View()), length, finalMoves))
    {
      hide AbsorbSymbol, EnterDomain;
      Enter(Finalization, length as bv64);
      var binding := m.binding(controller);
      ghost var start, pick := View(), PickBinding(m, binding, length);
      hide View;
      for i := 0 to |binding|
        invariant AgreesWith(true, AbsorbPicked(m, start, pick, Finalization, finalMoves, i))
      {
        ok := Absorb(m.bindingSymbol(binding[i], length, i), Finalization, finalMoves);
        if !ok {
          PickedFails(m, start, pick, Finalization, finalMoves, i + 1, |binding|);
          return;
        }
      }
      ok := true;
    }

    method EmitByte(round: nat) returns (b: byte)
      requires Valid()
      modifies this`read
      ensures (b, View()) == Emit(m, old(View()), round)
    {
      var coords := m.outputCoords(controller, round);
      var cells := ReadAt(coords);
      b := m.outputByte(controller, round, cells);
      NoteOutputRead(round);
    }

    ghost method NoteOutputRead(round: nat)
      requires Valid()
      modifies this`read
      ensures View() == Emit(m, old(View()), round).1
    {
      read := read + Coords(m.outputCoords(controller, round));
    }

    ghost predicate OutputsWith(ok: bool, output: seq<byte>, r: Result<Squeezed<C>, Error>)
      requires Valid()
      reads this, cube.cells
    {
      (ok <==> r.Ok?) && (ok ==> r.value == Squeezed(output, View()))
    }

    method SqueezeBytes(moves: nat) returns (ok: bool, output: seq<byte>)
      requires Valid()
      modifies this, cube.cells
      ensures OutputsWith(ok, output, SqueezeRounds(m, old(View()), moves, OUTPUT_BYTES))
    {
      hide AbsorbSymbol, View, Emit;
      ghost var start := View();
      output := [];
      for round := 0 to OUTPUT_BYTES
        invariant OutputsWith(true, output, SqueezeRounds(m, start, moves, round))
      {
        var b := EmitByte(round);
        output := output + [b];
        ok := Absorb(m.echo(b, round), Squeeze, moves);
        if !ok {
          SqueezeFails(m, start, moves, round + 1, OUTPUT_BYTES);
          return;
        }
      }
      ok := true;
    }

    method ResearchBoundOutput(length: u64, finalMoves: nat, squeezeMoves: nat) returns (ok: bool, output: seq<byte>)
      requires Valid()
      modifies this, cube.cells
      ensures OutputsWith(ok, output, BoundOutput(m, old(View()), length, finalMoves, squeezeMoves))
    {
      hide Bind, SqueezeRounds, EnterDomain, View;
      output := [];
      if finalMoves == 0 || squeezeMoves == 0 {
        return false, [];
      }
      ok := BindController(length, finalMoves);
      if !ok { return; }
      Enter(Squeeze, 32);
      ok, output := SqueezeBytes(squeezeMoves);
    }
  }

  /** A full evaluation on a fresh working state, as the keyed output functions chain it. */
  method KeyedReturnOutput<C>(m: Mixing<C>, start: State<C>, key: Key, message: Message, p: Profile) returns (r: Result<seq<byte>, ()>)
    ensures r.Ok? <==> Evaluate(m, start, key, message, p).Ok?
    ensures r.Ok? ==> r.value == Evaluate(m, start, key, message, p).value.output
  {
    hide AbsorbKey, AbsorbSequence, ReturnPass, BoundOutput, EnterDomain;
    if !ValidKeyProfile(p.key) {
      return Err(());
    }
    var state := new WorkingState(m, start);
    var ok := state.AbsorbKeySchedule(key, p.key);
    if !ok { return Err(()); }
    state.Enter(InputForward, |message| as bv64);
    ok := state.AbsorbAll(message, InputForward, p.forwardMoves);
    if !ok { return Err(()); }
    ok := state.ApplyReturn(message, p.foldback);
    if !ok { return Err(()); }
    var output;
    ok, output := state.ResearchBoundOutput(|message|, p.finalMoves, p.squeezeMoves);
    r := if ok then Ok(output) else Err(());
  }

  lemma LineIsRead(cells: Cells, axis: Axis, p: Coord)
    ensures Line(cells, axis, p) == ReadCells(cells, LineCoords(axis, p))
  {
  }

  lemma EmptySequence<C>(m: Mixing<C>, run: Run<C>, symbols: seq<byte>, domain: Domain, moves: nat)
    ensures AbsorbSequence(m, run, symbols[..0], domain, moves) == Ok(run)
  {
  }

  lemma ForwardPair(key: Key, i: nat)
    requires i < 32
    ensures ForwardSymbols(key)[..2 * i + 2] == ForwardSymbols(key)[..2 * i] + [ForwardDirect(key, i), ForwardCross(key, i)]
  {
    hide ForwardDirect, ForwardCross;
    var j := 2 * i;
    assert j % 2 == 0 && j / 2 == i && (j + 1) % 2 == 1 && (j + 1) / 2 == i;
  }

  /** Absorbing a concatenation is absorbing its parts in turn; a failing first part fails the whole. */
  lemma {:induction false} SequenceAppend<C>(m: Mixing<C>, run: Run<C>, first: seq<byte>, second: seq<byte>, domain: Domain, moves: nat)
    ensures var before := AbsorbSequence(m, run, first, domain, moves);
      AbsorbSequence(m, run, first + second, domain, moves)
      == if before.Ok? then AbsorbSequence(m, before.value, second, domain, moves) else before
    decreases |second|
  {
    hide AbsorbSymbol;
    if second == [] {
      assert first + second == first;
    } else {
      var n := |second| - 1;
      SequenceAppend(m, run, first, second[..n], domain, moves);
      var whole := first + second;
      assert whole[..|whole| - 1] == first + second[..n] && whole[|whole| - 1] == second[n];
    }
  }

  lemma SequenceStep<C>(m: Mixing<C>, run: Run<C>, symbols: seq<byte>, domain: Domain, moves: nat, i: nat)
    requires i < |symbols| && AbsorbSequence(m, run, symbols[..i], domain, moves).Ok?
    ensures AbsorbSequence(m, run, symbols[..i + 1], domain, moves)
      == AbsorbSymbol(m, AbsorbSequence(m, run, symbols[..i], domain, moves).value, symbols[i], domain, moves)
  {
    hide AbsorbSymbol;
    assert symbols[..i + 1][..i] == symbols[..i];
  }

  /** Once a symbol is rejected the whole sequence is. */
  lemma {:induction false} SequenceFails<C>(m: Mixing<C>, run: Run<C>, symbols: seq<byte>, domain: Domain, moves: nat, i: nat)
    requires i <= |symbols| && AbsorbSequence(m, run, symbols[..i], domain, moves).Err?
    ensures AbsorbSequence(m, run, symbols, domain, moves).Err?
    decreases |symbols|
  {
    hide AbsorbSymbol;
    if i == |symbols| {
      assert symbols[..i] == symbols;
    } else {
      var n := |symbols| - 1;
      assert symbols[..n][..i] == symbols[..i];
      SequenceFails(m, run, symbols[..n], domain, moves, i);
    }
  }

  lemma {:induction false} PickedFails<C>(m: Mixing<C>, run: Run<C>, pick: (State<C>, nat) -> byte, domain: Domain, moves: nat, i: nat, n: nat)
    requires i <= n && AbsorbPicked(m, run, pick, domain, moves, i).Err?
    ensures AbsorbPicked(m, run, pick, domain, moves, n).Err?
    decreases n
  {
    hide AbsorbSymbol;
    if i < n {
      PickedFails(m, run, pick, domain, moves, i, n - 1);
    }
  }

  lemma {:induction false} SqueezeFails<C>(m: Mixing<C>, run: Run<C>, moves: nat, i: nat, n: nat)
    requires i <= n && SqueezeRounds(m, run, moves, i).Err?
    ensures SqueezeRounds(m, run, moves, n).Err?
    decreases n
  {
    hide SqueezeRound;
    if i < n {
      SqueezeFails(m, run, moves, i, n - 1);
    }
  }
}
