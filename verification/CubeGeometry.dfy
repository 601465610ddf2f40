/** The 8x8x8 cube as a value: coordinates, lines, rotations, and what rotations conserve. */
module CubeGeometry {
  import opened Foundations

  datatype Axis = X | Y | Z

  /** A coordinate component; the type keeps every cell access in range. */
  type Digit = n: nat | n < 8

  datatype Coord = Coord(x: Digit, y: Digit, z: Digit)

  const CELLS: nat := 512

  /** The 512 cells in storage order. */
  type Cells = s: seq<byte> | |s| == CELLS witness seq(CELLS, (i: nat) => 0)

  function Index(c: Coord): (i: nat)
    ensures i < CELLS
  {
    c.z * 64 + c.y * 8 + c.x
  }

  function CoordAt(i: nat): Coord
    requires i < CELLS
  {
    Coord(i % 8, i / 8 % 8, i / 64)
  }

  lemma IndexCoord(i: nat)
    requires i < CELLS
    ensures Index(CoordAt(i)) == i
  {
  }

  lemma CoordIndex(c: Coord)
    ensures CoordAt(Index(c)) == c
  {
    var i := Index(c);
    assert i / 8 == c.z * 8 + c.y;
  }

  function Along(axis: Axis, c: Coord): Digit {
    match axis case X => c.x case Y => c.y case Z => c.z
  }

  /** The point of `c`'s line along `axis` at position `d`. */
  function OnAxis(axis: Axis, c: Coord, d: Digit): Coord {
    match axis case X => c.(x := d) case Y => c.(y := d) case Z => c.(z := d)
  }

  /** Addition modulo 8. */
  function Plus(a: Digit, k: Digit): (sum: Digit)
    ensures sum == (a + k) % 8
  {
    if a + k < 8 then a + k else a + k - 8
  }

  function Minus(k: Digit): Digit {
    if k == 0 then 0 else 8 - k
  }

  function Step(c: Coord, axis: Axis, k: Digit): Coord {
    OnAxis(axis, c, Plus(Along(axis, c), k))
  }

  function Advance(c: Coord, axis: Axis, amount: nat): Coord {
    Step(c, axis, amount % 8)
  }

  lemma StepBack(c: Coord, axis: Axis, k: Digit)
    ensures Step(Step(c, axis, k), axis, Minus(k)) == c
    ensures Step(Step(c, axis, Minus(k)), axis, k) == c
  {
  }

  predicate LineContains(axis: Axis, linePoint: Coord, point: Coord) {
    match axis
    case X => linePoint.y == point.y && linePoint.z == point.z
    case Y => linePoint.x == point.x && linePoint.z == point.z
    case Z => linePoint.x == point.x && linePoint.y == point.y
  }

  function Cell(cells: Cells, c: Coord): byte {
    cells[Index(c)]
  }

  /** Where the rotated cube finds the content of cell `i`. */
  function SourceCell(axis: Axis, p: Coord, k: Digit, i: nat): (j: nat)
    requires i < CELLS
    ensures j < CELLS
  {
    var c := CoordAt(i);
    if LineContains(axis, p, c) then Index(Step(c, axis, Minus(k))) else i
  }

  /** The line through `p` moved forward by `k`; every other cell stays. */
  function Turn(cells: Cells, axis: Axis, p: Coord, k: Digit): Cells {
    seq(CELLS, i requires 0 <= i < CELLS => cells[SourceCell(axis, p, k, i)])
  }

  function Rotate(cells: Cells, axis: Axis, p: Coord, amount: nat): Cells {
    Turn(cells, axis, p, amount % 8)
  }

  lemma TurnAt(cells: Cells, axis: Axis, p: Coord, k: Digit, c: Coord)
    ensures Cell(Turn(cells, axis, p, k), c) ==
      Cell(cells, if LineContains(axis, p, c) then Step(c, axis, Minus(k)) else c)
  {
    CoordIndex(c);
  }

  /** The content of a line travels forward by exactly the amount, as the cursor does. */
  lemma RotateCarries(cells: Cells, axis: Axis, p: Coord, amount: nat, c: Coord)
    requires LineContains(axis, p, c)
    ensures Cell(Rotate(cells, axis, p, amount), Advance(c, axis, amount)) == Cell(cells, c)
  {
    var k := amount % 8;
    TurnAt(cells, axis, p, k, Step(c, axis, k));
    StepBack(c, axis, k);
  }

  lemma EqualCells(a: Cells, b: Cells)
    requires forall c: Coord :: Cell(a, c) == Cell(b, c)
    ensures a == b
  {
    forall i: nat | i < CELLS ensures a[i] == b[i] {
      IndexCoord(i);
      assert Cell(a, CoordAt(i)) == Cell(b, CoordAt(i));
    }
  }

  lemma StepCompose(c: Coord, axis: Axis, k: Digit, l: Digit)
    ensures Step(Step(c, axis, Minus(l)), axis, Minus(k)) == Step(c, axis, Minus(Plus(k, l)))
  {
  }

  lemma SameLine(axis: Axis, p: Coord, q: Coord, c: Coord, k: Digit)
    requires LineContains(axis, p, q)
    ensures LineContains(axis, p, c) == LineContains(axis, q, c)
    ensures LineContains(axis, p, Step(c, axis, k)) == LineContains(axis, p, c)
  {
  }

  /** Turning a line twice is turning it once by the sum, from any point of the line. */
  lemma TurnCompose(cells: Cells, axis: Axis, p: Coord, q: Coord, k: Digit, l: Digit)
    requires LineContains(axis, p, q)
    ensures Turn(Turn(cells, axis, p, k), axis, q, l) == Turn(cells, axis, p, Plus(k, l))
  {
    hide *;
    var once, twice := Turn(cells, axis, p, Plus(k, l)), Turn(Turn(cells, axis, p, k), axis, q, l);
    forall c: Coord ensures Cell(twice, c) == Cell(once, c) {
      var back := Step(c, axis, Minus(l));
      TurnAt(Turn(cells, axis, p, k), axis, q, l, c);
      TurnAt(cells, axis, p, k, if LineContains(axis, q, c) then back else c);
      TurnAt(cells, axis, p, Plus(k, l), c);
      SameLine(axis, p, q, c, Minus(l));
      StepCompose(c, axis, k, l);
    }
    EqualCells(twice, once);
  }

  lemma TurnByNothing(cells: Cells, axis: Axis, p: Coord)
    ensures Turn(cells, axis, p, 0) == cells
  {
    forall c: Coord ensures Cell(Turn(cells, axis, p, 0), c) == Cell(cells, c) {
      TurnAt(cells, axis, p, 0, c);
    }
    EqualCells(Turn(cells, axis, p, 0), cells);
  }

  /** Rotations of one line compose by adding amounts modulo 8. */
  lemma RotateCompose(cells: Cells, axis: Axis, p: Coord, q: Coord, m: nat, n: nat)
    requires LineContains(axis, p, q)
    ensures Rotate(Rotate(cells, axis, p, m), axis, q, n) == Rotate(cells, axis, p, m + n)
  {
    TurnCompose(cells, axis, p, q, m % 8, n % 8);
    assert (m + n) % 8 == (m % 8 + n % 8) % 8;
  }

  /** Rotating back by the complement restores the cube. */
  lemma RotateUndo(cells: Cells, axis: Axis, p: Coord, q: Coord, amount: nat)
    requires LineContains(axis, p, q) && amount <= 8
    ensures Rotate(Rotate(cells, axis, p, amount), axis, q, 8 - amount) == cells
  {
    hide Turn;
    RotateCompose(cells, axis, p, q, amount, 8 - amount);
    TurnByNothing(cells, axis, p);
  }

  // ----- conservation -----

  ghost function Sources(axis: Axis, p: Coord, k: Digit): nat -> nat {
    (i: nat) => if i < CELLS then SourceCell(axis, p, k, i) else 0
  }

  lemma SourcesUndo(axis: Axis, p: Coord, k: Digit)
    ensures Undoes(Sources(axis, p, Minus(k)), Sources(axis, p, k), CELLS)
  {
    var f, g := Sources(axis, p, k), Sources(axis, p, Minus(k));
    forall i: nat | i < CELLS ensures f(i) < CELLS && g(f(i)) == i {
      SourceInverse(axis, p, k, i);
    }
  }

  lemma TurnKeepsCells(cells: Cells, axis: Axis, p: Coord, k: Digit)
    ensures multiset(Turn(cells, axis, p, k)) == multiset(cells)
  {
    hide SourceCell, Undoes;
    SourcesUndo(axis, p, k);
    SourcesUndo(axis, p, Minus(k));
    assert Minus(Minus(k)) == k;
    PermutedMultiset(cells, Turn(cells, axis, p, k), Sources(axis, p, k), Sources(axis, p, Minus(k)));
  }

  /** A rotation only rearranges the 512 cells. */
  lemma RotateKeepsCells(cells: Cells, axis: Axis, p: Coord, amount: nat)
    ensures multiset(Rotate(cells, axis, p, amount)) == multiset(cells)
  {
    TurnKeepsCells(cells, axis, p, amount % 8);
  }

  lemma SourceInverse(axis: Axis, p: Coord, k: Digit, i: nat)
    requires i < CELLS
    ensures SourceCell(axis, p, Minus(k), SourceCell(axis, p, k, i)) == i
  {
    var c := CoordAt(i);
    IndexCoord(i);
    CoordIndex(Step(c, axis, Minus(k)));
  }

  function LineSumTo(cells: Cells, axis: Axis, p: Coord, n: nat): nat
    requires n <= 8
  {
    if n == 0 then 0 else LineSumTo(cells, axis, p, n - 1) + Cell(cells, OnAxis(axis, p, n - 1)) as nat
  }

  /** The sum of the eight cells of a line. */
  function LineSum(cells: Cells, axis: Axis, p: Coord): nat {
    LineSumTo(cells, axis, p, 8)
  }

  lemma {:induction false} LineSumCells(a: Cells, b: Cells, axis: Axis, p: Coord, n: nat)
    requires n <= 8
    requires forall d: Digit :: Cell(a, OnAxis(axis, p, d)) == Cell(b, OnAxis(axis, p, d))
    ensures LineSumTo(a, axis, p, n) == LineSumTo(b, axis, p, n)
  {
    if n == 0 {
    } else {
      LineSumCells(a, b, axis, p, n - 1);
    }
  }

  lemma TurnedByOne(cells: Cells, axis: Axis, p: Coord, q: Coord, d: Digit)
    requires LineContains(axis, p, q)
    ensures Cell(Turn(cells, axis, p, 1), OnAxis(axis, q, d)) == Cell(cells, OnAxis(axis, q, Plus(d, 7)))
  {
    hide Cell, Turn;
    TurnAt(cells, axis, p, 1, OnAxis(axis, q, d));
  }

  /** Turning by one moves the last cell of the line in front of the others. */
  lemma {:induction false} LineSumShifted(cells: Cells, axis: Axis, p: Coord, q: Coord, n: nat)
    requires LineContains(axis, p, q) && 1 <= n <= 8
    ensures LineSumTo(Turn(cells, axis, p, 1), axis, q, n)
      == Cell(cells, OnAxis(axis, q, 7)) as nat + LineSumTo(cells, axis, q, n - 1)
  {
    hide Cell, Turn, OnAxis, LineContains;
    TurnedByOne(cells, axis, p, q, n - 1);
    if n == 1 {
      assert LineSumTo(Turn(cells, axis, p, 1), axis, q, 0) == 0;
    } else {
      LineSumShifted(cells, axis, p, q, n - 1);
    }
  }

  lemma TurnOneKeepsLineSums(cells: Cells, axis: Axis, p: Coord, q: Coord)
    ensures LineSum(Turn(cells, axis, p, 1), axis, q) == LineSum(cells, axis, q)
  {
    hide Cell, Turn;
    var after := Turn(cells, axis, p, 1);
    if LineContains(axis, p, q) {
      LineSumShifted(cells, axis, p, q, 8);
    } else {
      forall d: Digit ensures Cell(after, OnAxis(axis, q, d)) == Cell(cells, OnAxis(axis, q, d)) {
        TurnAt(cells, axis, p, 1, OnAxis(axis, q, d));
      }
      LineSumCells(after, cells, axis, q, 8);
    }
  }

  /** A rotation leaves the sum of every line along its own axis unchanged. */
  lemma {:induction false} RotateKeepsLineSums(cells: Cells, axis: Axis, p: Coord, amount: nat, q: Coord)
    ensures LineSum(Rotate(cells, axis, p, amount), axis, q) == LineSum(cells, axis, q)
    decreases amount
  {
    hide LineSum, LineContains, Turn;
    if amount == 0 {
      TurnByNothing(cells, axis, p);
    } else {
      RotateKeepsLineSums(cells, axis, p, amount - 1, q);
      TurnOneKeepsLineSums(Rotate(cells, axis, p, amount - 1), axis, p, q);
      assert LineContains(axis, p, p) by { OwnLine(axis, p); }
      RotateCompose(cells, axis, p, p, amount - 1, 1);
    }
  }

  lemma OwnLine(axis: Axis, p: Coord)
    ensures LineContains(axis, p, p)
  {
  }

  /** The double-byte histogram: each byte value occurs in exactly two cells. */
  ghost predicate DoubleByte(cells: Cells) {
    forall v: byte :: Occurrences(cells, v) == 2
  }

  lemma SameCellsDoubleByte(cells: Cells, turned: Cells)
    requires multiset(turned) == multiset(cells)
    ensures DoubleByte(turned) <==> DoubleByte(cells)
  {
    forall v: byte ensures Occurrences(turned, v) == Occurrences(cells, v) {
      SameOccurrences(turned, cells, v);
    }
  }

  // ----- the four body diagonals -----

  type Slot = n: nat | n < 32

  /** Slot 8d + i of the diagonals D0 || D1 || D2 || D3. */
  function DiagonalCoord(slot: Slot): Coord {
    var i := slot % 8;
    if slot < 8 then Coord(i, i, i)
    else if slot < 16 then Coord(7 - i, i, i)
    else if slot < 24 then Coord(i, 7 - i, i)
    else Coord(i, i, 7 - i)
  }

  function Diagonals(cells: Cells): (d: seq<byte>)
    ensures |d| == 32
  {
    seq(32, (slot: nat) requires slot < 32 => Cell(cells, DiagonalCoord(slot)))
  }
}
