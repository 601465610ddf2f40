/** The cube as the program holds it: 512 cells in one array, rotated in place. */
module CubeObject {
  import opened Foundations
  import opened CubeGeometry

  class Cube {
    const cells: array<byte>

    ghost predicate Valid() {
      cells.Length == CELLS
    }

    ghost function View(): Cells
      requires Valid()
      reads cells
    {
      cells[..]
    }

    constructor (start: Cells)
      ensures Valid() && View() == start && fresh(cells)
    {
      cells := new byte[CELLS](i requires 0 <= i < CELLS => start[i]);
      new;
      assert cells[..] == start;
    }

    method At(c: Coord) returns (value: byte)
      requires Valid()
      ensures value == Cell(View(), c)
    {
      value := cells[Index(c)];
    }

    method Put(c: Coord, value: byte)
      requires Valid()
      modifies cells
      ensures Cell(View(), c) == value
      ensures forall d: Coord :: d != c ==> Cell(View(), d) == Cell(old(View()), d)
    {
      cells[Index(c)] := value;
      forall d: Coord | d != c ensures Cell(View(), d) == Cell(old(View()), d) {
        CoordIndex(c);
        CoordIndex(d);
      }
    }

    method ReadLine(axis: Axis, p: Coord) returns (line: seq<byte>)
      requires Valid()
      ensures line == Line(View(), axis, p)
    {
      line := [];
      for i := 0 to 8
        invariant line == Line(View(), axis, p)[..i]
      {
        var value := At(OnAxis(axis, p, i));
        line := line + [value];
      }
    }

    /** Reads the line, then writes each cell `amount` places further on. */
    method RotateLine(axis: Axis, p: Coord, amount: nat)
      requires Valid()
      modifies cells
      ensures View() == Rotate(old(View()), axis, p, amount)
    {
      var shift := amount % 8;
      if shift == 0 {
        TurnByNothing(View(), axis, p);
        return;
      }
      var line := ReadLine(axis, p);
      ghost var before := View();
      for i := 0 to 8
        invariant forall c: Coord :: Cell(View(), c) == PartlyTurned(before, axis, p, shift, i, c)
      {
        var destination := Step(OnAxis(axis, p, i), axis, shift);
        Put(destination, line[i]);
        forall c: Coord ensures Cell(View(), c) == PartlyTurned(before, axis, p, shift, i + 1, c) {
          WriteOrder(axis, p, shift, i, c);
        }
      }
      forall c: Coord ensures Cell(View(), c) == Cell(Rotate(before, axis, p, amount), c) {
        TurnAt(before, axis, p, shift, c);
      }
      EqualCells(View(), Rotate(before, axis, p, amount));
    }

    /** Counts how often each byte value occurs. */
    method Histogram() returns (counts: array<nat>)
      requires Valid()
      ensures fresh(counts) && counts.Length == 256
      ensures forall v: byte :: counts[Value(v)] == Occurrences(View(), v)
    {
      counts := new nat[256](_ => 0);
      ghost var view := View();
      for i := 0 to CELLS
        invariant View() == view
        invariant forall v: byte :: counts[Value(v)] == Occurrences(view[..i], v)
      {
        var value := cells[i];
        counts[Value(value)] := counts[Value(value)] + 1;
        assert view[..i + 1] == view[..i] + [value];
        forall v: byte ensures counts[Value(v)] == Occurrences(view[..i + 1], v) {
          ValueIsInjective(v, value);
          OccurrencesAppend(view[..i], value, v);
        }
      }
      assert view[..CELLS] == view;
    }

    method HasDoubleByteHistogram() returns (double: bool)
      requires Valid()
      ensures double <==> DoubleByte(View())
    {
      var counts := Histogram();
      double := true;
      for v := 0 to 256
        invariant double <==> forall u: byte :: Value(u) < v ==> Occurrences(View(), u) == 2
      {
        var value := ByteOf(v);
        assert counts[Value(value)] == Occurrences(View(), value);
        forall u: byte ensures Value(u) == v ==> u == value {
          ValueIsInjective(u, value);
        }
        double := double && counts[v] == 2;
      }
    }

    /** The 32 diagonal cells in digest order. */
    method BodyDiagonals() returns (digest: seq<byte>)
      requires Valid()
      ensures digest == Diagonals(View())
    {
      digest := [];
      for slot := 0 to 32
        invariant digest == Diagonals(View())[..slot]
      {
        var value := At(DiagonalCoord(slot));
        digest := digest + [value];
      }
    }
  }

  /** The line through `p`, in order of position. */
  function Line(cells: Cells, axis: Axis, p: Coord): (line: seq<byte>)
    ensures |line| == 8
  {
    seq(8, (i: nat) requires i < 8 => Cell(cells, OnAxis(axis, p, i)))
  }

  /** The cube after the first `n` of the eight writes. */
  ghost function PartlyTurned(before: Cells, axis: Axis, p: Coord, k: Digit, n: nat, c: Coord): byte {
    var source := Step(c, axis, Minus(k));
    if LineContains(axis, p, c) && Along(axis, source) < n then Cell(before, source) else Cell(before, c)
  }

  lemma WriteOrder(axis: Axis, p: Coord, k: Digit, i: Digit, c: Coord)
    ensures c == Step(OnAxis(axis, p, i), axis, k)
      <==> LineContains(axis, p, c) && Along(axis, Step(c, axis, Minus(k))) == i
    ensures LineContains(axis, p, c) && Along(axis, Step(c, axis, Minus(k))) == i
      ==> Step(c, axis, Minus(k)) == OnAxis(axis, p, i)
  {
  }
}
