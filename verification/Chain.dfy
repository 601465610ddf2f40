/** The physical side of a run: cube, cursor and axis, moved along a trace.

    A legal chain of moves determines the body it ends in; everything conserved by single moves is
    conserved by chains of any length. */
module Chain {
  import opened Foundations
  import opened CubeGeometry
  import opened Machine

  datatype Body = Body(cells: Cells, cursor: Coord, axis: Axis)

  function BodyOf<C>(s: State<C>): Body {
    Body(s.cells, s.cursor, s.previousAxis)
  }

  function Moved<C>(b: Body, move: Move<C>): Body {
    var d := move.decision;
    Body(Rotate(b.cells, d.axis, b.cursor, d.amount), Advance(b.cursor, d.axis, d.amount), d.axis)
  }

  /** The move starts at `b`, turns another axis than the last one, and records where it ends. */
  predicate Fits<C>(b: Body, move: Move<C>) {
    && move.cursorBefore == b.cursor
    && move.previousAxis == b.axis
    && move.decision.axis != b.axis
    && move.cursorAfter == Moved(b, move).cursor
  }

  function Last<T>(s: seq<T>): T
    requires s != []
  {
    s[|s| - 1]
  }

  function Front<T>(s: seq<T>): seq<T>
    requires s != []
  {
    s[..|s| - 1]
  }

  function BodyAfter<C>(start: Body, trace: seq<Move<C>>): Body {
    if trace == [] then start else Moved(BodyAfter(start, Front(trace)), Last(trace))
  }

  /** `trace` is a legal sequence of moves from `start`. */
  predicate Legal<C>(start: Body, trace: seq<Move<C>>) {
    trace == [] || (Legal(start, Front(trace)) && Fits(BodyAfter(start, Front(trace)), Last(trace)))
  }

  /** The cube before the trace: the rotations taken back, last one first. */
  function Rewind<C>(cells: Cells, trace: seq<Move<C>>): Cells
    decreases |trace|
  {
    if trace == [] then cells
    else
      var move := Last(trace);
      Rewind(Rotate(cells, move.decision.axis, move.cursorBefore, 8 - move.decision.amount), Front(trace))
  }

  /** Every legal run can be undone from its trace alone. */
  lemma {:induction false} RewindRestores<C>(start: Body, trace: seq<Move<C>>)
    requires Legal(start, trace)
    ensures Rewind(BodyAfter(start, trace).cells, trace) == start.cells
  {
    if trace == [] {
    } else {
      var before, move := BodyAfter(start, Front(trace)), Last(trace);
      hide Rotate;
      OwnLine(move.decision.axis, before.cursor);
      RotateUndo(before.cells, move.decision.axis, before.cursor, before.cursor, move.decision.amount);
      RewindRestores(start, Front(trace));
    }
  }

  /** No run creates, destroys or changes a cell. */
  lemma {:induction false} ChainKeepsCells<C>(start: Body, trace: seq<Move<C>>)
    ensures multiset(BodyAfter(start, trace).cells) == multiset(start.cells)
    ensures DoubleByte(BodyAfter(start, trace).cells) <==> DoubleByte(start.cells)
  {
    hide Rotate, DoubleByte;
    if trace == [] {
    } else {
      var before, move := BodyAfter(start, Front(trace)), Last(trace);
      ChainKeepsCells(start, Front(trace));
      RotateKeepsCells(before.cells, move.decision.axis, before.cursor, move.decision.amount);
    }
    SameCellsDoubleByte(start.cells, BodyAfter(start, trace).cells);
  }

  /** The cursor carries its cell along: the byte under it never changes. */
  lemma {:induction false} CursorCarriesItsCell<C>(start: Body, trace: seq<Move<C>>)
    ensures var end := BodyAfter(start, trace); Cell(end.cells, end.cursor) == Cell(start.cells, start.cursor)
  {
    hide Rotate, Cell;
    if trace == [] {
    } else {
      var before, move := BodyAfter(start, Front(trace)), Last(trace);
      CursorCarriesItsCell(start, Front(trace));
      OwnLine(move.decision.axis, before.cursor);
      RotateCarries(before.cells, move.decision.axis, before.cursor, move.decision.amount, before.cursor);
    }
  }

  lemma {:induction false} LegalPrefix<C>(start: Body, trace: seq<Move<C>>, n: nat)
    requires Legal(start, trace) && n <= |trace|
    ensures Legal(start, trace[..n])
    decreases |trace|
  {
    if n == |trace| {
      assert trace[..n] == trace;
    } else {
      LegalPrefix(start, Front(trace), n);
      assert Front(trace)[..n] == trace[..n];
    }
  }

  lemma StepIsNoIdentity(c: Coord, axis: Axis, amount: Amount)
    ensures Advance(c, axis, amount) != c
    ensures LineContains(axis, c, Advance(c, axis, amount))
  {
  }

  /** Along a run: each move changes the cursor in exactly the coordinate of its axis, the next one
      starts where it ended, and turns another axis. */
  lemma {:induction false} ConsecutiveMoves<C>(start: Body, trace: seq<Move<C>>, i: nat)
    requires Legal(start, trace) && i < |trace|
    ensures var move := trace[i];
      && move.cursorAfter != move.cursorBefore
      && LineContains(move.decision.axis, move.cursorBefore, move.cursorAfter)
      && move.decision.axis != move.previousAxis
      && (i == 0 ==> move.cursorBefore == start.cursor && move.previousAxis == start.axis)
    ensures i + 1 < |trace| ==>
      && trace[i + 1].cursorBefore == trace[i].cursorAfter
      && trace[i + 1].previousAxis == trace[i].decision.axis
      && trace[i + 1].decision.axis != trace[i].decision.axis
  {
    LegalPrefix(start, trace, i + 1);
    var here := trace[..i + 1];
    assert Front(here) == trace[..i] && Last(here) == trace[i];
    StepIsNoIdentity(trace[i].cursorBefore, trace[i].decision.axis, trace[i].decision.amount);
    if i + 1 < |trace| {
      LegalPrefix(start, trace, i + 2);
      var next := trace[..i + 2];
      assert Front(next) == here && Last(next) == trace[i + 1];
    }
  }

  // ----- runs of the machine are legal chains -----

  /** `run` came legally from `start` and has made `moves` moves and counted `symbols` symbols. */
  predicate Tracks<C>(start: Body, run: Run<C>, moves: nat, symbols: nat) {
    && Legal(start, run.trace)
    && BodyAfter(start, run.trace) == BodyOf(run.state)
    && |run.trace| == moves
    && run.state.symbolIndex == symbols % TWO_64
  }

  /** The operation returned exactly when `ok`, and then with these counts. */
  predicate TracksIf<C>(ok: bool, r: Result<Run<C>, Error>, start: Body, moves: nat, symbols: nat) {
    (r.Ok? <==> ok) && (r.Ok? ==> Tracks(start, r.value, moves, symbols))
  }

  lemma EnterTracks<C>(m: Mixing<C>, start: Body, run: Run<C>, moves: nat, symbols: nat, domain: Domain, length: bv64)
    requires Tracks(start, run, moves, symbols)
    ensures Tracks(start, EnterDomain(m, run, domain, length), moves, symbols)
  {
  }

  lemma {:induction false} MoveTracks<C>(m: Mixing<C>, start: Body, run: Run<C>, moves: nat, symbols: nat, symbol: byte, domain: Domain, phase: Phase)
    requires Tracks(start, run, moves, symbols)
    ensures Tracks(start, ApplyMove(m, run, symbol, domain, phase), moves + 1, symbols)
  {
    hide Rotate, Advance;
    var after := ApplyMove(m, run, symbol, domain, phase);
    assert Front(after.trace) == run.trace;
  }

  lemma {:induction false} MovesTrack<C>(m: Mixing<C>, start: Body, run: Run<C>, moves: nat, symbols: nat, symbol: byte, domain: Domain, n: nat)
    requires Tracks(start, run, moves, symbols) && n < 256
    ensures Tracks(start, Moves(m, run, symbol, domain, n), moves + n, symbols)
  {
    hide Tracks, ApplyMove;
    if n == 0 {
    } else {
      MovesTrack(m, start, run, moves, symbols, symbol, domain, n - 1);
      MoveTracks(m, start, Moves(m, run, symbol, domain, n - 1), moves + n - 1, symbols, symbol, domain, n - 1);
    }
  }

  /** A symbol is absorbed exactly when its move count is in 1..255. */
  lemma SymbolTracks<C>(m: Mixing<C>, start: Body, run: Run<C>, moves: nat, symbols: nat, symbol: byte, domain: Domain, n: nat)
    requires Tracks(start, run, moves, symbols)
    ensures TracksIf(ValidCount(n), AbsorbSymbol(m, run, symbol, domain, n), start, moves + n, symbols + 1)
  {
    hide Moves, Legal, BodyAfter, NextIndex;
    if ValidCount(n) {
      MovesTrack(m, start, run, moves, symbols, symbol, domain, n);
      NextIndexCounts(symbols);
    }
  }

  lemma NextIndexCounts(symbols: nat)
    ensures NextIndex(symbols % TWO_64) == (symbols + 1) % TWO_64
  {
  }

  /** `n` repetitions of `count` moves. */
  function Times(n: nat, count: nat): nat {
    n * count
  }

  lemma TimesStep(n: nat, count: nat)
    ensures Times(n + 1, count) == Times(n, count) + count
    ensures Times(0, count) == 0
  {
  }

  /** A sequence is absorbed exactly when it is empty or the count is valid. */
  lemma {:induction false} SequenceTracks<C>(m: Mixing<C>, start: Body, run: Run<C>, moves: nat, symbols: nat, word: seq<byte>, domain: Domain, n: nat)
    requires Tracks(start, run, moves, symbols)
    ensures TracksIf(word == [] || ValidCount(n), AbsorbSequence(m, run, word, domain, n), start, moves + Times(|word|, n), symbols + |word|)
  {
    hide Tracks, AbsorbSymbol, Times;
    if word == [] {
      TimesStep(0, n);
    } else {
      var k := |word| - 1;
      SequenceTracks(m, start, run, moves, symbols, word[..k], domain, n);
      var before := AbsorbSequence(m, run, word[..k], domain, n);
      TimesStep(k, n);
      if before.Ok? {
        SymbolTracks(m, start, before.value, moves + Times(k, n), symbols + k, word[k], domain, n);
      }
    }
  }
}
