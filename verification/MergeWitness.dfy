/** Two cursors that the line feedback of controller B does not tell apart. */
module MergeWitness {
  import opened Foundations
  import opened Words
  import opened CubeGeometry
  import opened Machine
  import opened Injection
  import opened ControllerB
  import A2 = ControllerA2

  // ----- rotations of constants -----

  lemma {:induction false} RotateSum(x: bv32, m: nat, n: nat)
    ensures RotateLeft32(x, m + n) == RotateLeft32(RotateLeft32(x, m), n)
    decreases n
  {
    hide Left32;
    if n > 0 { RotateSum(x, m, n - 1); }
  }

  lemma RotlIs(x: bv32, n: nat)
    requires n < 32
    ensures Rotl32(x, n) == RotateLeft32(x, n)
  {
    hide RotateLeft32;
  }

  lemma OneMore(x: bv32, n: nat, v: bv32, w: bv32)
    requires RotateLeft32(x, n) == v && Left32(v) == w
    ensures RotateLeft32(x, n + 1) == w
  {
    TurnStep(x, n + 1);
    hide *;
  }

  lemma SevenMore(x: bv32, n: nat, v: bv32, w: bv32)
    requires RotateLeft32(x, n) == v && Turn7(v) == w
    ensures RotateLeft32(x, n + 7) == w
  {
    RotateSum(x, n, 7);
    TurnBySeven(v);
    assert Rotl32(v, 7) == RotateLeft32(v, 7);
    hide *;
  }

  lemma FirstTurn()
    ensures Rotl32(0xA099_7E68, 11) == 0xCBF3_4504
  {
    hide RotateLeft32, Rotl32;
    var x: bv32 := 0xA099_7E68;
    RotlIs(x, 11);
    TurnStep(x, 0);
    OneMore(x, 0, 0xA099_7E68, 0x4132_FCD1);
    OneMore(x, 1, 0x4132_FCD1, 0x8265_F9A2);
    OneMore(x, 2, 0x8265_F9A2, 0x04CB_F345);
    OneMore(x, 3, 0x04CB_F345, 0x0997_E68A);
    SevenMore(x, 4, 0x0997_E68A, 0xCBF3_4504);
  }

  lemma SecondTurn()
    ensures Rotl32(0xA099_91C5, 11) == 0xCC8E_2D04
  {
    hide RotateLeft32, Rotl32;
    var x: bv32 := 0xA099_91C5;
    RotlIs(x, 11);
    TurnStep(x, 0);
    OneMore(x, 0, 0xA099_91C5, 0x4133_238B);
    OneMore(x, 1, 0x4133_238B, 0x8266_4716);
    OneMore(x, 2, 0x8266_4716, 0x04CC_8E2D);
    OneMore(x, 3, 0x04CC_8E2D, 0x0999_1C5A);
    SevenMore(x, 4, 0x0999_1C5A, 0xCC8E_2D04);
  }

  lemma EventTurn()
    ensures Rotl32(0x7FBD_B63B, 22) == 0x8EDF_EF6D
  {
    hide RotateLeft32, Rotl32;
    var x: bv32 := 0x7FBD_B63B;
    RotlIs(x, 22);
    TurnStep(x, 0);
    OneMore(x, 0, 0x7FBD_B63B, 0xFF7B_6C76);
    SevenMore(x, 1, 0xFF7B_6C76, 0xBDB6_3B7F);
    SevenMore(x, 8, 0xBDB6_3B7F, 0xDB1D_BFDE);
    SevenMore(x, 15, 0xDB1D_BFDE, 0x8EDF_EF6D);
  }

  lemma WeightTurn()
    ensures Rotl32(0xD0B7_4E3D, 30) == 0x742D_D38F
  {
    hide RotateLeft32, Rotl32;
    var x: bv32 := 0xD0B7_4E3D;
    RotlIs(x, 30);
    TurnStep(x, 0);
    OneMore(x, 0, 0xD0B7_4E3D, 0xA16E_9C7B);
    OneMore(x, 1, 0xA16E_9C7B, 0x42DD_38F7);
    SevenMore(x, 2, 0x42DD_38F7, 0x6E9C_7BA1);
    SevenMore(x, 9, 0x6E9C_7BA1, 0x4E3D_D0B7);
    SevenMore(x, 16, 0x4E3D_D0B7, 0x1EE8_5BA7);
    SevenMore(x, 23, 0x1EE8_5BA7, 0x742D_D38F);
  }

  // ----- the two heads -----

  lemma Sums()
    ensures Plus32(Plus32(0x0160_00A7, 0x9E37_79B9), 0x0102_0408) == 0xA099_7E68
    ensures Plus32(Plus32(0x0160_1404, 0x9E37_79B9), 0x0102_0408) == 0xA099_91C5
    ensures 0x0073_3A26 as bv32 + 0x7F4A_7C15 == 0x7FBD_B63B
    ensures 0x0102_0408 as bv32 ^ 0xD1B5_4A35 == 0xD0B7_4E3D
  {
  }

  lemma Mixes()
    ensures Plus32(Xor32(0xCBF3_4504, 0x8EDF_EF6D), 0x742D_D38F) == 0xB95A_7DF8
    ensures Plus32(Xor32(0xCC8E_2D04, 0x8EDF_EF6D), 0x742D_D38F) == 0xB67F_95F8
    ensures Multiplied(Folded(0xB95A_7DF8)) == 0x7D02_7CF9
    ensures Multiplied(Folded(0xB67F_95F8)) == 0xA0B9_0BAC
    ensures Xor32(0x7D02_7CF9, KERNEL) == 0xA0B9_0BAC
  {
  }

  lemma HeadParts(a: bv32, b: bv32, c: bv32, rotation: nat, x: bv32, m: bv32, w: bv32)
    requires Rotl32(Plus32(Plus32(a, 0x9E37_79B9), c), rotation) == x
    requires Rotl32(b + 0x7F4A_7C15, rotation + 11) == m && Rotl32(c ^ 0xD1B5_4A35, rotation + 19) == w
    ensures Head(a, b, c, rotation) == Multiplied(Folded(Plus32(Xor32(x, m), w)))
  {
    hide Rotl32, Plus32, Xor32, Folded, Multiplied;
  }

  lemma StartWordsMerge()
    ensures Merges(0x0160_00A7, 0x0160_1404, 0x0073_3A26, 0x0102_0408, 11)
  {
    Sums();
    Mixes();
    FirstTurn();
    SecondTurn();
    EventTurn();
    WeightTurn();
    hide Rotl32, Plus32, Xor32, Folded, Multiplied, Head;
    HeadParts(0x0160_00A7, 0x0073_3A26, 0x0102_0408, 11, 0xCBF3_4504, 0x8EDF_EF6D, 0x742D_D38F);
    HeadParts(0x0160_1404, 0x0073_3A26, 0x0102_0408, 11, 0xCC8E_2D04, 0x8EDF_EF6D, 0x742D_D38F);
  }

  // ----- the two moves -----

  const BEFORE: seq<byte> := [38, 0, 0, 0, 0, 0, 0, 58]
  const AFTER: seq<byte> := [0, 0, 0, 0, 0, 58, 38, 0]

  /** A move along X by 6 that ends at `cursor`. */
  function MoveTo(cursor: Coord): Effect {
    Effect(Decision(X, 6, [], []), [], [], cursor, BEFORE, AFTER, [])
  }

  lemma FirstStart()
    ensures A2.LineStart(MoveTo(Coord(0, 5, 7)), 1) == 0x0160_00A7
  {
  }

  lemma SecondStart()
    ensures A2.LineStart(MoveTo(Coord(5, 0, 4)), 1) == 0x0160_1404
  {
  }

  lemma WitnessWords()
    ensures Word32(115) == 0x73 && Word32(1) == 1
    ensures EventWordB(38, 58, 0x73) == 0x0073_3A26
  {
  }

  lemma FirstEvent(cursor: Coord)
    ensures LineEventB(MoveTo(cursor), 0) == 0x0073_3A26
  {
    WitnessWords();
    hide EventWordB, Word32;
    assert Nth(BEFORE, 0) == 38 && Nth(AFTER, 5) == 58;
  }

  lemma FirstWeight()
    ensures RoundWeight(0) == 0x0102_0408
  {
    WitnessWords();
    hide Word32;
  }

  /** The same decision and line, which is read as many places further on after the move as it is turned. */
  predicate OneTurn(e: Effect, f: Effect) {
    && A2.SameLines(e, f)
    && |e.lineBefore| == |e.lineAfter| == 8
    && forall i: nat :: i < 8 ==> e.lineAfter[(i + e.decision.amount) % 8] == e.lineBefore[i]
  }

  lemma MovesAgree(c: Coord, d: Coord)
    ensures OneTurn(MoveTo(c), MoveTo(d)) && A2.SameLines(MoveTo(c), MoveTo(d))
    ensures MoveTo(c).cursorAfter == c && MoveTo(c).decision.amount == 6
  {
    forall i: nat | i < 8 ensures AFTER[(i + 6) % 8] == BEFORE[i] {
      TurnedBySix(i);
    }
    hide BEFORE, AFTER;
  }

  lemma TurnedBySix(i: nat)
    requires i < 8
    ensures AFTER[(i + 6) % 8] == BEFORE[i]
  {
    assert i == 0 || i == 1 || i == 2 || i == 3 || i == 4 || i == 5 || i == 6 || i == 7;
  }

  lemma WitnessRoundMerges(c: Coord, d: Coord)
    requires c == Coord(0, 5, 7) && d == Coord(5, 0, 4)
    ensures RoundMerges(MoveTo(c), MoveTo(d), 1, 0)
  {
    hide *;
    FirstStart();
    SecondStart();
    FirstEvent(c);
    FirstWeight();
    MovesAgree(c, d);
    StartWordsMerge();
    StartMerges(MoveTo(c), MoveTo(d), 1);
  }

  /** The merging happens: two moves with the same decision on the same line end at different cursors and
      have the same line feedback. */
  lemma LineFeedbackCanMerge() returns (e: Effect, f: Effect)
    ensures OneTurn(e, f) && A2.SameLines(e, f) && e.cursorAfter != f.cursorAfter
    ensures LineFeedbackB(e, 1, 8) == LineFeedbackB(f, 1, 8)
  {
    hide *;
    var c, d := Coord(0, 5, 7), Coord(5, 0, 4);
    e, f := MoveTo(c), MoveTo(d);
    MovesAgree(c, d);
    MovesAgree(d, c);
    WitnessRoundMerges(c, d);
    LineFeedbackMerges(e, f, 1);
  }
}
