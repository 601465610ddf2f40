/** The controlled cube machine: what one move, one symbol and one domain change do to a state.

    The machine is generic in the controller type `C`.  A `Mixing` supplies the controller's word
    arithmetic; the machine supplies everything else: which cells are read, which line turns, where
    the cursor goes and what is recorded.  In moves, domain changes and finalization each word function
    sees exactly the cells it reads; the symbol functions of the return pass take whole states. */
module Machine {
  import opened Foundations
  import opened CubeGeometry

  datatype Domain =
    | KeyForward | KeyReturn | KeySeal
    | InputForward | InputReturn | ReturnInit | ReturnSeal
    | Finalization | Squeeze

  /** A move amount; the type rules out the identity rotation. */
  type Amount = n: nat | 1 <= n <= 7 witness 1

  type Phase = n: nat | n < 256

  /** What the word functions of one move may use besides the cells they read. */
  datatype Context<+C> = Context(injected: C, cursor: Coord, previousAxis: Axis, domain: Domain, phase: Phase, symbol: byte)

  datatype Decision = Decision(axis: Axis, amount: Amount, probes: seq<Coord>, scans: seq<Coord>)

  /** What the update of the controller may use after the line has turned. */
  datatype Effect = Effect(
    decision: Decision, probed: seq<byte>, scanned: seq<byte>, cursorAfter: Coord,
    lineBefore: seq<byte>, lineAfter: seq<byte>, probedAfter: seq<byte>)

  /** The word arithmetic of a controller. */
  datatype Mixing<!C> = Mixing(
    slots: (C, Domain, bv64) -> seq<Slot>,
    enter: (C, Domain, bv64, seq<byte>) -> C,
    inject: (C, Coord, u64, byte, Domain) -> C,
    probes: Context<C> -> seq<Coord>,
    secondAxis: (Context<C>, seq<byte>) -> bool,
    scans: (Context<C>, Axis, seq<byte>) -> seq<Coord>,
    amount: (Context<C>, Axis, seq<byte>, seq<byte>) -> Amount,
    update: (Context<C>, Effect) -> C,
    binding: C -> seq<byte>,
    bindingSymbol: (byte, u64, nat) -> byte,
    outputCoords: (C, nat) -> seq<Coord>,
    outputByte: (C, nat, seq<byte>) -> byte,
    echo: (byte, nat) -> byte,
    boundary: (State<C>, u64) -> bv64,
    returnBoundary: (bv64, C) -> bv64,
    sealBoundary: (bv64, C) -> bv64,
    initSymbol: (State<C>, u64, nat) -> byte,
    returnSymbol: (State<C>, State<C>, byte, u64, nat) -> byte,
    sealSymbol: (State<C>, State<C>, u64, nat) -> byte)

  datatype State<+C> = State(cells: Cells, cursor: Coord, previousAxis: Axis, controller: C, symbolIndex: u64)

  datatype Move<+C> = Move(
    symbolIndex: u64, phase: Phase, symbol: byte, domain: Domain,
    cursorBefore: Coord, cursorAfter: Coord, previousAxis: Axis, decision: Decision,
    controllerBefore: C, controllerAfter: C)

  /** A state with the moves that led to it and the cell positions read by moves, domain changes and
      output bytes on the way; what the return pass reads to form its symbols is not recorded. */
  datatype Run<+C> = Run(state: State<C>, trace: seq<Move<C>>, read: set<Coord>)

  datatype Error = InvalidMoveCount | InvalidKeyProfile | InvalidReturnProfile | InvalidFinalization

  function ChooseOtherAxis(previous: Axis, second: bool): Axis {
    match previous
    case X => if second then Z else Y
    case Y => if second then X else Z
    case Z => if second then Y else X
  }

  function ReadCells(cells: Cells, coords: seq<Coord>): (bytes: seq<byte>)
    ensures |bytes| == |coords|
  {
    seq(|coords|, i requires 0 <= i < |coords| => Cell(cells, coords[i]))
  }

  /** The eight positions of a line. */
  function LineCoords(axis: Axis, p: Coord): seq<Coord> {
    seq(8, (i: nat) requires i < 8 => OnAxis(axis, p, i))
  }

  function Coords(s: seq<Coord>): set<Coord> {
    set c | c in s
  }

  function SlotCoords(slots: seq<Slot>): seq<Coord> {
    seq(|slots|, i requires 0 <= i < |slots| => DiagonalCoord(slots[i]))
  }

  // ----- domain change -----

  function EnterDomain<C>(m: Mixing<C>, run: Run<C>, domain: Domain, length: bv64): Run<C> {
    var s := run.state;
    var coords := SlotCoords(m.slots(s.controller, domain, length));
    var entered := m.enter(s.controller, domain, length, ReadCells(s.cells, coords));
    Run(s.(controller := entered), run.trace, run.read + Coords(coords))
  }

  // ----- one move -----

  function ContextOf<C>(m: Mixing<C>, s: State<C>, symbol: byte, domain: Domain, phase: Phase): Context<C> {
    var injected := m.inject(s.controller, s.cursor, s.symbolIndex, symbol, domain);
    Context(injected, s.cursor, s.previousAxis, domain, phase, symbol)
  }

  function Preview<C>(m: Mixing<C>, cells: Cells, context: Context<C>): (d: Decision)
    ensures d.axis != context.previousAxis
  {
    var probes := m.probes(context);
    var probed := ReadCells(cells, probes);
    var axis := ChooseOtherAxis(context.previousAxis, m.secondAxis(context, probed));
    var scans := m.scans(context, axis, probed);
    var amount := m.amount(context, axis, probed, ReadCells(cells, scans));
    Decision(axis, amount, probes, scans)
  }

  function EffectOf(before: Cells, after: Cells, cursor: Coord, d: Decision): Effect {
    var cursorAfter := Advance(cursor, d.axis, d.amount);
    Effect(d, ReadCells(before, d.probes), ReadCells(before, d.scans), cursorAfter,
           ReadCells(before, LineCoords(d.axis, cursor)), ReadCells(after, LineCoords(d.axis, cursorAfter)),
           ReadCells(after, d.probes))
  }

  function ApplyMove<C>(m: Mixing<C>, run: Run<C>, symbol: byte, domain: Domain, phase: Phase): Run<C> {
    var s := run.state;
    var context := ContextOf(m, s, symbol, domain, phase);
    var d := Preview(m, s.cells, context);
    var turned := Rotate(s.cells, d.axis, s.cursor, d.amount);
    var effect := EffectOf(s.cells, turned, s.cursor, d);
    var updated := m.update(context, effect);
    var move := Move(s.symbolIndex, phase, symbol, domain, s.cursor, effect.cursorAfter, s.previousAxis, d, s.controller, updated);
    Run(State(turned, effect.cursorAfter, d.axis, updated, s.symbolIndex),
        run.trace + [move],
        run.read + MoveReads(move))
  }

  /** The cell positions a move reads. */
  function MoveReads<C>(move: Move<C>): set<Coord> {
    Coords(move.decision.probes) + Coords(move.decision.scans) + Coords(LineCoords(move.decision.axis, move.cursorBefore))
  }

  // ----- symbols -----

  /** The first `n` moves of a symbol. */
  function Moves<C>(m: Mixing<C>, run: Run<C>, symbol: byte, domain: Domain, n: nat): Run<C>
    requires n < 256
  {
    if n == 0 then run
    else ApplyMove(m, Moves(m, run, symbol, domain, n - 1), symbol, domain, n - 1)
  }

  predicate ValidCount(n: nat) {
    1 <= n <= 255
  }

  function NextIndex(i: u64): u64 {
    (i + 1) % TWO_64
  }

  function Counted<C>(run: Run<C>): Run<C> {
    run.(state := run.state.(symbolIndex := NextIndex(run.state.symbolIndex)))
  }

  function AbsorbSymbol<C>(m: Mixing<C>, run: Run<C>, symbol: byte, domain: Domain, moves: nat): Result<Run<C>, Error> {
    if !ValidCount(moves) then Err(InvalidMoveCount)
    else
      Ok(Counted(Moves(m, run, symbol, domain, moves)))
  }

  function AbsorbSequence<C>(m: Mixing<C>, run: Run<C>, symbols: seq<byte>, domain: Domain, moves: nat): Result<Run<C>, Error> {
    if symbols == [] then Ok(run)
    else
      var n := |symbols| - 1;
      var before :- AbsorbSequence(m, run, symbols[..n], domain, moves);
      AbsorbSymbol(m, before, symbols[n], domain, moves)
  }
}
