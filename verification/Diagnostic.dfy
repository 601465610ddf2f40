/** The analysis-only mirror of the finalizer: it records every stage and squeezes 64 bytes.

    The mirror spells out its own binding bytes and output equations; here they are proved to agree
    with the finalizer it diagnoses. */
module Diagnostic {
  import opened Foundations
  import opened Words
  import opened CubeGeometry
  import opened Machine
  import opened Evaluation
  import opened Locality
  import opened Injection
  import opened ControllerA2
  import opened WorkingStates

  const EXTENDED_OUTPUT_BYTES: nat := 64
  const BINDING_BYTES: nat := 16
  const STAGES: nat := 19 + EXTENDED_OUTPUT_BYTES

  function DiagnosticOutputCoord(selector: bv64, round: nat, lane: nat): Coord {
    var mixed := Rotl64(selector + Wrap64(round + 1) * 0x9E37_79B1_85EB_CA87, lane * 13 + round);
    Coord(Low3(mixed), Low3(mixed >> 17), Low3(mixed >> 41))
  }

  function DiagnosticSelector(c: ControllerState): bv64 {
    c.transcript ^ ((c.feedback as bv64) << 19) ^ ((c.axis as bv64) << 3) ^ ((c.amount as bv64) << 43)
  }

  function DiagnosticMix(c: ControllerState, round: nat, x: byte, y: byte, z: byte): byte {
    var cubeMix := (x + Rotl8(y, round)) ^ Rotl8(z, round + 3);
    var controllerMix := Byte64(c.transcript, round) ^ Byte32(c.feedback, round + 1)
      ^ Byte16(c.axis, round) ^ Byte16(c.amount, round + 1);
    cubeMix + controllerMix + Wrap8(round * 37)
  }

  function DiagnosticOutputByte(s: State<ControllerState>, round: nat): byte {
    var c := s.controller;
    var selector := DiagnosticSelector(c);
    var c0 := DiagnosticOutputCoord(selector, round, 0);
    var c1 := DiagnosticOutputCoord(Rotl64(selector, 23), round, 1);
    var c2 := DiagnosticOutputCoord(Rotl64(selector, 47), round, 2);
    DiagnosticMix(c, round, Cell(s.cells, c0), Cell(s.cells, c1), Cell(s.cells, c2))
  }

  function DiagnosticControllerBytes(c: ControllerState): seq<byte> {
    [Byte16(c.axis, 0), Byte16(c.axis, 1), Byte16(c.amount, 0), Byte16(c.amount, 1),
     Byte32(c.feedback, 0), Byte32(c.feedback, 1), Byte32(c.feedback, 2), Byte32(c.feedback, 3),
     Byte64(c.transcript, 0), Byte64(c.transcript, 1), Byte64(c.transcript, 2), Byte64(c.transcript, 3),
     Byte64(c.transcript, 4), Byte64(c.transcript, 5), Byte64(c.transcript, 6), Byte64(c.transcript, 7)]
  }

  lemma SameOutputCoord(selector: bv64, round: nat, lane: nat)
    ensures DiagnosticOutputCoord(selector, round, lane) == OutputCoord(selector, round, lane)
  {
    hide Rotl64, Low3, Wrap64;
  }

  lemma SameOutputCoords(c: ControllerState, round: nat)
    ensures var selector := DiagnosticSelector(c);
      OutputCoords(c, round) == [DiagnosticOutputCoord(selector, round, 0),
        DiagnosticOutputCoord(Rotl64(selector, 23), round, 1), DiagnosticOutputCoord(Rotl64(selector, 47), round, 2)]
  {
    hide Rotl64, OutputCoord, DiagnosticOutputCoord;
    var selector := DiagnosticSelector(c);
    SameOutputCoord(selector, round, 0);
    SameOutputCoord(Rotl64(selector, 23), round, 1);
    SameOutputCoord(Rotl64(selector, 47), round, 2);
  }

  lemma SameMix(c: ControllerState, round: nat, x: byte, y: byte, z: byte)
    ensures DiagnosticMix(c, round, x, y, z) == OutputMix(c, round, x, y, z)
  {
    hide Rotl8, Wrap8, Byte64, Byte32, Byte16;
  }

  lemma SameOutputByte(s: State<ControllerState>, round: nat)
    ensures DiagnosticOutputByte(s, round) == OutputByte(s.controller, round, ReadCells(s.cells, OutputCoords(s.controller, round)))
  {
    hide Rotl64, Cell, OutputCoords, DiagnosticOutputCoord, DiagnosticSelector, OutputMix, DiagnosticMix;
    SameOutputCoords(s.controller, round);
    var cells := ReadCells(s.cells, OutputCoords(s.controller, round));
    SameMix(s.controller, round, cells[0], cells[1], cells[2]);
  }

  lemma C1Emits(c1: Mixing<ControllerState>, run: Run<ControllerState>, round: nat)
    requires c1 == C1()
    ensures Emit(c1, run, round).0
      == OutputByte(run.state.controller, round, ReadCells(run.state.cells, OutputCoords(run.state.controller, round)))
  {
    hide OutputByte, OutputCoords, ReadCells;
  }

  /** The mirror's output equation is the finalizer's, on every state and round. */
  lemma DiagnosticByteIsEmitted(c1: Mixing<ControllerState>, run: Run<ControllerState>, round: nat)
    requires c1 == C1()
    ensures DiagnosticOutputByte(run.state, round) == Emit(c1, run, round).0
  {
    C1Emits(c1, run, round);
    hide *;
    SameOutputByte(run.state, round);
  }

  datatype FinalizationTrace = FinalizationTrace(output: seq<byte>, stages: seq<State<ControllerState>>)

  /** `states[i]` is the state after `i` binding symbols. */
  ghost predicate BindingStates(c1: Mixing<ControllerState>, entered: Run<ControllerState>, binding: seq<byte>, length: u64,
      states: seq<State<ControllerState>>, n: nat) {
    |states| == n + 1 && forall i: nat :: i <= n ==> Holds(states[i], AfterBinding(c1, entered, binding, length, i))
  }

  function AfterBinding(c1: Mixing<ControllerState>, entered: Run<ControllerState>, binding: seq<byte>, length: u64, i: nat): Result<Run<ControllerState>, Error> {
    AbsorbPicked(c1, entered, PickBinding(c1, binding, length), Finalization, 4, i)
  }

  predicate Holds(s: State<ControllerState>, r: Result<Run<ControllerState>, Error>) {
    r.Ok? && s == r.value.state
  }

  /** `states[r]` is the state from which output byte `r` is computed, after the bytes before it. */
  ghost predicate SqueezeStates(c1: Mixing<ControllerState>, start: Run<ControllerState>, output: seq<byte>,
      states: seq<State<ControllerState>>, n: nat) {
    |states| == n + 1 && |output| == n && forall r: nat :: r <= n ==> HoldsOutput(states[r], output[..r], SqueezeRounds(c1, start, 2, r))
  }

  predicate HoldsOutput(s: State<ControllerState>, output: seq<byte>, r: Result<Squeezed<ControllerState>, Error>) {
    r.Ok? && s == r.value.run.state && output == r.value.output
  }

  lemma BindingStatesExtend(c1: Mixing<ControllerState>, entered: Run<ControllerState>, binding: seq<byte>, length: u64,
      states: seq<State<ControllerState>>, n: nat, s: State<ControllerState>)
    requires BindingStates(c1, entered, binding, length, states, n)
    requires Holds(s, AfterBinding(c1, entered, binding, length, n + 1))
    ensures BindingStates(c1, entered, binding, length, states + [s], n + 1)
  {
    hide Holds, AfterBinding;
  }

  lemma SqueezeStatesExtend(c1: Mixing<ControllerState>, start: Run<ControllerState>, output: seq<byte>,
      states: seq<State<ControllerState>>, n: nat, b: byte, s: State<ControllerState>)
    requires SqueezeStates(c1, start, output, states, n)
    requires HoldsOutput(s, output + [b], SqueezeRounds(c1, start, 2, n + 1))
    ensures SqueezeStates(c1, start, output + [b], states + [s], n + 1)
  {
    hide HoldsOutput, SqueezeRounds;
    forall r: nat | r <= n + 1 ensures HoldsOutput((states + [s])[r], (output + [b])[..r], SqueezeRounds(c1, start, 2, r)) {
      if r <= n {
        assert (output + [b])[..r] == output[..r];
        assert HoldsOutput(states[r], output[..r], SqueezeRounds(c1, start, 2, r));
      } else {
        assert (output + [b])[..r] == output + [b];
      }
    }
  }

  /** Absorbs one binding symbol of the mirror. */
  method AbsorbBindingSymbol(w: WorkingState<ControllerState>, ghost entered: Run<ControllerState>, binding: seq<byte>, length: u64, i: nat)
    returns (s: State<ControllerState>)
    requires w.Valid() && w.m == C1() && i < |binding|
    requires w.AgreesWith(true, AfterBinding(w.m, entered, binding, length, i))
    modifies w, w.cube.cells
    ensures w.Valid() && w.AgreesWith(true, AfterBinding(w.m, entered, binding, length, i + 1))
    ensures Holds(s, AfterBinding(w.m, entered, binding, length, i + 1))
  {
    hide C1, AbsorbSymbol, DiagnosticBindingSymbol;
    SameBindingSymbol(w.m, binding[i], length, i);
    var symbol := DiagnosticBindingSymbol(binding[i], length, i);
    SymbolAccepted(w.m, w.View(), symbol, Finalization, 4);
    hide w.View;
    var ok := w.Absorb(symbol, Finalization, 4);
    s := w.Snapshot();
  }

  /** Enters finalization and absorbs the 16 binding symbols, recording the state after each. */
  method RecordBinding(w: WorkingState<ControllerState>, ghost start: Run<ControllerState>, length: u64)
    returns (states: seq<State<ControllerState>>)
    requires w.Valid() && w.m == C1() && w.View() == start
    modifies w, w.cube.cells
    ensures w.Valid()
    ensures var entered := EnterDomain(w.m, start, Finalization, length as bv64);
      BindingStates(w.m, entered, w.m.binding(entered.state.controller), length, states, BINDING_BYTES)
    ensures w.AgreesWith(true, Bind(w.m, start, length, 4))
  {
    hide C1, EnterDomain, DiagnosticControllerBytes;
    w.Enter(Finalization, length as bv64);
    ghost var entered := w.View();
    var binding := DiagnosticControllerBytes(w.controller);
    SameBinding(w.m, w.controller);
    hide C1, AbsorbPicked, w.View, EnterDomain, DiagnosticControllerBytes, Holds;
    var s := w.Snapshot();
    states := [s];
    BindingBegins(w.m, entered, binding, length);
    for i := 0 to BINDING_BYTES
      invariant BindingStates(w.m, entered, binding, length, states, i)
      invariant w.AgreesWith(true, AfterBinding(w.m, entered, binding, length, i))
    {
      s := AbsorbBindingSymbol(w, entered, binding, length, i);
      BindingStatesExtend(w.m, entered, binding, length, states, i, s);
      states := states + [s];
    }
  }

  lemma BindingBegins(c1: Mixing<ControllerState>, entered: Run<ControllerState>, binding: seq<byte>, length: u64)
    ensures AfterBinding(c1, entered, binding, length, 0) == Ok(entered)
    ensures Holds(entered.state, AfterBinding(c1, entered, binding, length, 0))
  {
  }

  function DiagnosticBindingSymbol(b: byte, length: u64, i: nat): byte {
    b ^ Byte64(Wrap64(length), i) ^ Wrap8(i * 29 + 0x53)
  }

  lemma SameBindingSymbol(c1: Mixing<ControllerState>, b: byte, length: u64, i: nat)
    requires c1 == C1()
    ensures DiagnosticBindingSymbol(b, length, i) == c1.bindingSymbol(b, length, i)
  {
    hide Byte64, Wrap64, Wrap8;
  }

  lemma SameBinding(c1: Mixing<ControllerState>, c: ControllerState)
    requires c1 == C1()
    ensures DiagnosticControllerBytes(c) == c1.binding(c) && |c1.binding(c)| == BINDING_BYTES
  {
    hide Byte16, Byte32, Byte64;
  }

  /** Emits one byte by the mirror's own equation and feeds it back. */
  method SqueezeByte(w: WorkingState<ControllerState>, ghost start: Run<ControllerState>, output: seq<byte>, round: nat)
    returns (b: byte, s: State<ControllerState>)
    requires w.Valid() && w.m == C1() && w.OutputsWith(true, output, SqueezeRounds(w.m, start, 2, round))
    modifies w, w.cube.cells
    ensures w.Valid() && w.OutputsWith(true, output + [b], SqueezeRounds(w.m, start, 2, round + 1))
    ensures b == DiagnosticOutputByte(old(w.View()).state, round)
    ensures HoldsOutput(s, output + [b], SqueezeRounds(w.m, start, 2, round + 1))
  {
    hide DiagnosticOutputByte, AbsorbSymbol, Emit, w.View, C1, DiagnosticEcho, SqueezeRounds;
    ghost var before := w.View();
    DiagnosticByteIsEmitted(w.m, before, round);
    s := w.Snapshot();
    b := DiagnosticOutputByte(s, round);
    w.NoteOutputRead(round);
    var echoed := DiagnosticEcho(b, round);
    SameEcho(w.m, b, round);
    SymbolAccepted(w.m, w.View(), echoed, Squeeze, 2);
    var ok := w.Absorb(echoed, Squeeze, 2);
    RoundIs(w.m, start, round, b);
    s := w.Snapshot();
  }

  lemma RoundIs(c1: Mixing<ControllerState>, start: Run<ControllerState>, round: nat, b: byte)
    requires SqueezeRounds(c1, start, 2, round).Ok?
    requires var before := SqueezeRounds(c1, start, 2, round).value; Emit(c1, before.run, round).0 == b
    ensures var before := SqueezeRounds(c1, start, 2, round).value;
      var after := AbsorbSymbol(c1, Emit(c1, before.run, round).1, c1.echo(b, round), Squeeze, 2);
      var r := SqueezeRounds(c1, start, 2, round + 1);
      (after.Ok? ==> r == Ok(Squeezed(before.output + [b], after.value)))
  {
    hide AbsorbSymbol, Emit;
  }

  function DiagnosticEcho(b: byte, round: nat): byte {
    b ^ Wrap8(round)
  }

  lemma SameEcho(c1: Mixing<ControllerState>, b: byte, round: nat)
    requires c1 == C1()
    ensures DiagnosticEcho(b, round) == c1.echo(b, round)
  {
    hide Wrap8;
  }

  method RecordSqueeze(w: WorkingState<ControllerState>, ghost start: Run<ControllerState>)
    returns (output: seq<byte>, states: seq<State<ControllerState>>)
    requires w.Valid() && w.m == C1() && w.View() == start
    modifies w, w.cube.cells
    ensures SqueezeStates(w.m, start, output, states, EXTENDED_OUTPUT_BYTES)
    ensures forall r :: 0 <= r < EXTENDED_OUTPUT_BYTES ==> output[r] == DiagnosticOutputByte(states[r], r)
  {
    hide C1, w.View, DiagnosticOutputByte;
    var s := w.Snapshot();
    output, states := [], [s];
    for round := 0 to EXTENDED_OUTPUT_BYTES
      invariant SqueezeStates(w.m, start, output, states, round)
      invariant w.OutputsWith(true, output, SqueezeRounds(w.m, start, 2, round))
      invariant states[round] == w.View().state
      invariant forall r :: 0 <= r < round ==> output[r] == DiagnosticOutputByte(states[r], r)
    {
      var b;
      b, s := SqueezeByte(w, start, output, round);
      SqueezeStatesExtend(w.m, start, output, states, round, b, s);
      output, states := output + [b], states + [s];
    }
  }

  /** A squeeze of 64 bytes passes through the finalizer's result after 32. */
  lemma MirrorRefinesFinalizer(c1: Mixing<ControllerState>, start: State<ControllerState>, length: u64, trace: FinalizationTrace)
    requires |trace.stages| == STAGES && SqueezeStart(c1, Fresh(start), length, 4).Ok?
    requires SqueezeStates(c1, SqueezeStart(c1, Fresh(start), length, 4).value, trace.output, trace.stages[18..], EXTENDED_OUTPUT_BYTES)
    ensures HoldsOutput(trace.stages[18 + OUTPUT_BYTES], trace.output[..OUTPUT_BYTES], BoundOutput(c1, Fresh(start), length, 4, 2))
  {
    BoundIsSqueeze(c1, Fresh(start), length, 4, 2);
    assert trace.stages[18..][OUTPUT_BYTES] == trace.stages[18 + OUTPUT_BYTES];
    hide BoundOutput, SqueezeRounds, SqueezeStart, HoldsOutput;
  }

  /** All 83 stages: entry, 17 around the binding, 65 around the 64 output bytes.  The first 32 mirrored
      bytes are the finalizer's output at its default 4 and 2 moves, and stage 50 is the state it ends in. */
  method TraceFinalization(c1: Mixing<ControllerState>, start: State<ControllerState>, length: u64) returns (trace: FinalizationTrace)
    requires c1 == C1()
    ensures |trace.output| == EXTENDED_OUTPUT_BYTES && |trace.stages| == STAGES
    ensures trace.stages[0] == start
    ensures var entered := EnterDomain(c1, Fresh(start), Finalization, length as bv64);
      BindingStates(c1, entered, c1.binding(entered.state.controller), length, trace.stages[1..18], BINDING_BYTES)
    ensures SqueezeStart(c1, Fresh(start), length, 4).Ok?
    ensures SqueezeStates(c1, SqueezeStart(c1, Fresh(start), length, 4).value, trace.output, trace.stages[18..], EXTENDED_OUTPUT_BYTES)
    ensures forall r :: 0 <= r < EXTENDED_OUTPUT_BYTES ==> trace.output[r] == DiagnosticOutputByte(trace.stages[18 + r], r)
    ensures HoldsOutput(trace.stages[50], trace.output[..OUTPUT_BYTES], BoundOutput(c1, Fresh(start), length, 4, 2))
  {
    var w := new WorkingState(c1, start);
    hide C1, w.View, EnterDomain, DiagnosticOutputByte, Bind;
    var bound := RecordBinding(w, Fresh(start), length);
    w.Enter(Squeeze, 32);
    var output, squeezed := RecordSqueeze(w, w.View());
    var stages := [start] + bound + squeezed;
    assert stages[1..18] == bound && stages[18..] == squeezed;
    trace := FinalizationTrace(output, stages);
    MirrorRefinesFinalizer(c1, start, length, trace);
  }
}
