/** The subspace of stream inputs a Walsh trial visits: which bits vary, and how a mask sets them. */
module MaskEnumeration {
  import opened Foundations
  import opened Walsh
  import opened Nonlinearity
  import opened Frames
  import Fwht

  datatype Variable = NonceBit(bit: nat) | CounterBit(bit: nat)

  /** The two inputs a mask changes. */
  datatype Point = Point(nonce: Nonce192, counter: nat)

  // ----- bits -----

  /** Bit `i` of a number. */
  function Bit(n: nat, i: nat): bool
    decreases i
  {
    if i == 0 then n % 2 == 1 else Bit(n / 2, i - 1)
  }

  lemma {:induction false} BitOfXor(x: nat, y: nat, i: nat)
    ensures Bit(Xor(x, y), i) == (Bit(x, i) != Bit(y, i))
    decreases i
  {
    XorDigits(x, y);
    hide Xor;
    if i == 0 {
    } else {
      BitOfXor(x / 2, y / 2, i - 1);
    }
  }

  lemma {:induction false} BitOfZero(i: nat, n: nat)
    requires n == 0
    ensures !Bit(n, i)
  {
    if i > 0 { BitOfZero(i - 1, n / 2); }
  }

  lemma {:induction false} BitOfPower(b: nat, i: nat)
    ensures Bit(Pow2(b), i) <==> i == b
    decreases i
  {
    if b == 0 {
      if i > 0 { BitOfZero(i - 1, 0); }
    } else {
      PowStep(b);
      if i > 0 { BitOfPower(b - 1, i - 1); }
    }
  }

  /** Different numbers below 2^n differ in one of the low `n` bits. */
  lemma {:induction false} DifferentBit(x: nat, y: nat, n: nat) returns (i: nat)
    requires x < Pow2(n) && y < Pow2(n) && x != y
    ensures i < n && Bit(x, i) != Bit(y, i)
    decreases n
  {
    PowSmall(n);
    if n == 0 {
      assert false;
    } else if x % 2 != y % 2 {
      i := 0;
    } else {
      PowStep(n);
      assert x / 2 != y / 2;
      i := DifferentBit(x / 2, y / 2, n - 1);
      i := i + 1;
    }
  }

  const BYTE_MASKS: seq<byte> := [1, 2, 4, 8, 16, 32, 64, 128]

  predicate ByteBit(b: byte, i: nat)
    requires i < 8
  {
    b & BYTE_MASKS[i] != 0
  }

  lemma FlipSame(b: byte, m: byte)
    requires m != 0 && m & (m - 1) == 0
    ensures (b ^ m) & m != 0 <==> b & m == 0
  {
  }

  lemma FlipOther(b: byte, m: byte, k: byte)
    requires m & k == 0
    ensures (b ^ m) & k == b & k
  {
  }

  lemma MasksAreBits(i: nat, j: nat)
    requires i < 8 && j < 8
    ensures BYTE_MASKS[i] != 0 && BYTE_MASKS[i] & (BYTE_MASKS[i] - 1) == 0
    ensures i != j ==> BYTE_MASKS[i] & BYTE_MASKS[j] == 0
  {
    assert i == 0 || i == 1 || i == 2 || i == 3 || i == 4 || i == 5 || i == 6 || i == 7;
    assert j == 0 || j == 1 || j == 2 || j == 3 || j == 4 || j == 5 || j == 6 || j == 7;
  }

  lemma ByteBitFlip(b: byte, i: nat, j: nat)
    requires i < 8 && j < 8
    ensures ByteBit(b ^ BYTE_MASKS[i], j) == (ByteBit(b, j) != (i == j))
  {
    MasksAreBits(i, j);
    hide BYTE_MASKS;
    if i == j {
      FlipSame(b, BYTE_MASKS[i]);
    } else {
      FlipOther(b, BYTE_MASKS[i], BYTE_MASKS[j]);
    }
  }

  // ----- points -----

  predicate IsVariable(v: Variable) {
    match v
    case NonceBit(b) => b < 192
    case CounterBit(b) => b < 59
  }

  /** The input bit a variable names. */
  predicate InputBit(p: Point, v: Variable)
    requires v.NonceBit? ==> v.bit < 192
  {
    match v
    case NonceBit(b) => ByteBit(p.nonce[b / 8], b % 8)
    case CounterBit(b) => Bit(p.counter, b)
  }

  function Toggle(p: Point, v: Variable): Point
    requires IsVariable(v)
  {
    match v
    case NonceBit(b) => p.(nonce := p.nonce[b / 8 := p.nonce[b / 8] ^ BYTE_MASKS[b % 8]])
    case CounterBit(b) => p.(counter := Xor(p.counter, Pow2(b)))
  }

  lemma ToggleFlips(p: Point, v: Variable, w: Variable)
    requires IsVariable(v) && (w.NonceBit? ==> w.bit < 192)
    ensures InputBit(Toggle(p, v), w) == (InputBit(p, w) != (v == w))
  {
    match v
    case NonceBit(b) =>
      if w.NonceBit? && w.bit / 8 == b / 8 {
        ByteBitFlip(p.nonce[b / 8], b % 8, w.bit % 8);
      }
    case CounterBit(b) =>
      if w.CounterBit? {
        BitOfXor(p.counter, Pow2(b), w.bit);
        BitOfPower(b, w.bit);
      }
  }

  predicate AllVariables(variables: seq<Variable>) {
    forall i :: 0 <= i < |variables| ==> IsVariable(variables[i])
  }

  predicate AllDifferent(variables: seq<Variable>) {
    forall i, j :: 0 <= i < j < |variables| ==> variables[i] != variables[j]
  }

  /** The point after the first `n` variables of the mask are applied. */
  function Applied(p: Point, variables: seq<Variable>, mask: nat, n: nat): Point
    requires n <= |variables| && AllVariables(variables)
  {
    if n == 0 then p
    else
      var q := Applied(p, variables, mask, n - 1);
      if Bit(mask, n - 1) then Toggle(q, variables[n - 1]) else q
  }

  /** Whether the first `n` variables of the mask flip input bit `w`. */
  predicate Flipped(variables: seq<Variable>, mask: nat, n: nat, w: Variable)
    requires n <= |variables|
  {
    n > 0 && Flipped(variables, mask, n - 1, w) != (Bit(mask, n - 1) && variables[n - 1] == w)
  }

  /** A mask flips exactly the input bits it selects and no other of the 256. */
  lemma {:induction false} AppliedFlips(p: Point, variables: seq<Variable>, mask: nat, n: nat, w: Variable)
    requires n <= |variables| && AllVariables(variables) && (w.NonceBit? ==> w.bit < 192)
    ensures InputBit(Applied(p, variables, mask, n), w) == (InputBit(p, w) != Flipped(variables, mask, n, w))
  {
    if n == 0 {
    } else {
      AppliedFlips(p, variables, mask, n - 1, w);
      ToggleFlips(Applied(p, variables, mask, n - 1), variables[n - 1], w);
      hide Toggle, InputBit;
    }
  }

  lemma {:induction false} FlippedXor(variables: seq<Variable>, a: nat, b: nat, n: nat, w: Variable)
    requires n <= |variables|
    ensures Flipped(variables, Xor(a, b), n, w) == (Flipped(variables, a, n, w) != Flipped(variables, b, n, w))
  {
    if n == 0 {
    } else {
      FlippedXor(variables, a, b, n - 1, w);
      BitOfXor(a, b, n - 1);
    }
  }

  /** Whether input bit `w` of two points differs. */
  predicate Differs(p: Point, q: Point, w: Variable)
    requires w.NonceBit? ==> w.bit < 192
  {
    InputBit(p, w) != InputBit(q, w)
  }

  /** On every input bit, the difference a XOR of masks makes to a point is the XOR of their differences. */
  lemma MaskXorIsInputXor(p: Point, variables: seq<Variable>, a: nat, b: nat, n: nat, w: Variable)
    requires n <= |variables| && AllVariables(variables) && (w.NonceBit? ==> w.bit < 192)
    ensures Differs(p, Applied(p, variables, Xor(a, b), n), w)
            == (Differs(p, Applied(p, variables, a, n), w) != Differs(p, Applied(p, variables, b, n), w))
  {
    hide Applied, InputBit, Flipped, Xor;
    AppliedFlips(p, variables, Xor(a, b), n, w);
    AppliedFlips(p, variables, a, n, w);
    AppliedFlips(p, variables, b, n, w);
    FlippedXor(variables, a, b, n, w);
  }

  /** With different variables, mask bit `i` alone decides the `i`-th variable. */
  lemma {:induction false} FlippedIsMaskBit(variables: seq<Variable>, mask: nat, n: nat, i: nat)
    requires n <= |variables| && i < |variables| && AllDifferent(variables)
    ensures Flipped(variables, mask, n, variables[i]) == (i < n && Bit(mask, i))
  {
    if n == 0 {
    } else {
      FlippedIsMaskBit(variables, mask, n - 1, i);
      if n - 1 < i {
        assert variables[n - 1] != variables[i];
      } else if i < n - 1 {
        assert variables[i] != variables[n - 1];
      }
    }
  }

  /** Different masks reach different points. */
  lemma MasksReachDifferentPoints(p: Point, variables: seq<Variable>, a: nat, b: nat)
    requires AllVariables(variables) && AllDifferent(variables)
    requires a < Pow2(|variables|) && b < Pow2(|variables|) && a != b
    ensures Applied(p, variables, a, |variables|) != Applied(p, variables, b, |variables|)
  {
    var n := |variables|;
    var i := DifferentBit(a, b, n);
    var w := variables[i];
    AppliedFlips(p, variables, a, n, w);
    AppliedFlips(p, variables, b, n, w);
    FlippedIsMaskBit(variables, a, n, i);
    FlippedIsMaskBit(variables, b, n, i);
  }

  // ----- counters -----

  const MAXIMUM_PAYLOAD_COUNTER: nat := 0x7FF_FFFF_FFFF_FFFF

  lemma PayloadCounters(n: nat)
    requires n == 59
    ensures Pow2(n) == MAXIMUM_PAYLOAD_COUNTER + 1
  {
    assert Pow2(8) == 0x100;
    assert Pow2(16) == 0x1_0000;
    assert Pow2(24) == 0x100_0000;
    assert Pow2(32) == 0x1_0000_0000;
    assert Pow2(40) == 0x100_0000_0000;
    assert Pow2(48) == 0x1_0000_0000_0000;
    assert Pow2(56) == 0x100_0000_0000_0000;
    assert Pow2(59) == 0x800_0000_0000_0000;
  }

  /** No mask takes a payload counter out of range. */
  lemma {:induction false} CounterStaysPayload(p: Point, variables: seq<Variable>, mask: nat, n: nat)
    requires n <= |variables| && AllVariables(variables) && p.counter <= MAXIMUM_PAYLOAD_COUNTER
    ensures Applied(p, variables, mask, n).counter <= MAXIMUM_PAYLOAD_COUNTER
  {
    if n == 0 {
    } else {
      CounterStaysPayload(p, variables, mask, n - 1);
      var q, v := Applied(p, variables, mask, n - 1), variables[n - 1];
      PayloadCounters(59);
      if v.CounterBit? {
        BitBelow(v.bit);
        XorBelow(q.counter, Pow2(v.bit), 59);
      }
    }
  }

  lemma BitBelow(b: nat)
    requires b < 59
    ensures Pow2(b) < Pow2(59)
  {
    hide *;
    Fwht.PowMonotone(b + 1, 59);
    PowStep(b + 1);
  }

  /** `n` with bit `i` cleared. */
  function WithoutBit(n: nat, i: nat): (m: nat)
    ensures m <= n
  {
    if Bit(n, i) then (BitNeedsPower(n, i); n - Pow2(i)) else n
  }

  lemma {:induction false} BitNeedsPower(n: nat, i: nat)
    requires Bit(n, i)
    ensures Pow2(i) <= n
    decreases i
  {
    if i > 0 {
      PowStep(i);
      BitNeedsPower(n / 2, i - 1);
    }
  }

  lemma {:induction false} WithoutBitClears(n: nat, i: nat, j: nat)
    ensures Bit(WithoutBit(n, i), j) == (Bit(n, j) && i != j)
    decreases i
  {
    var m := WithoutBit(n, i);
    if i == 0 {
      assert m / 2 == n / 2 && m % 2 == 0;
    } else {
      PowStep(i);
      assert m / 2 == WithoutBit(n / 2, i - 1) && m % 2 == n % 2;
      if j > 0 { WithoutBitClears(n / 2, i - 1, j - 1); }
    }
  }

  function Cleared(counter: nat, variables: seq<Variable>, n: nat): (c: nat)
    requires n <= |variables|
    ensures c <= counter
  {
    if n == 0 then counter
    else
      var c := Cleared(counter, variables, n - 1);
      if variables[n - 1].CounterBit? then WithoutBit(c, variables[n - 1].bit) else c
  }

  method ClearCounterVariables(counter: nat, variables: seq<Variable>) returns (cleared: nat)
    ensures cleared == Cleared(counter, variables, |variables|)
  {
    cleared := counter;
    for i := 0 to |variables|
      invariant cleared == Cleared(counter, variables, i)
    {
      if variables[i].CounterBit? {
        cleared := WithoutBit(cleared, variables[i].bit);
      }
    }
  }

  /** Exactly the counter bits named by the variables are cleared. */
  lemma {:induction false} ClearedBits(counter: nat, variables: seq<Variable>, n: nat, j: nat)
    requires n <= |variables|
    ensures Bit(Cleared(counter, variables, n), j) <==> Bit(counter, j) && CounterBit(j) !in variables[..n]
  {
    if n == 0 {
    } else {
      ClearedBits(counter, variables, n - 1, j);
      assert variables[..n] == variables[..n - 1] + [variables[n - 1]];
      if variables[n - 1].CounterBit? {
        WithoutBitClears(Cleared(counter, variables, n - 1), variables[n - 1].bit, j);
      }
      hide Bit, WithoutBit;
    }
  }

  // ----- choosing the variables -----

  /** `count` bit positions spread evenly over a 192-bit nonce. */
  function SpreadBits(count: nat): (s: seq<Variable>)
    ensures |s| == count
  {
    seq(count, i requires 0 <= i < count => NonceBit(i * 192 / count))
  }

  function LowBits(count: nat): (s: seq<Variable>)
    ensures |s| == count
  {
    seq(count, i requires 0 <= i < count => CounterBit(i))
  }

  function Chosen(family: string, count: nat): Option<seq<Variable>> {
    if family == "nonce-spread" then Some(SpreadBits(count))
    else if family == "counter-low" then Some(LowBits(count))
    else if family == "mixed" then Some(SpreadBits(count / 2) + LowBits(count - count / 2))
    else None
  }

  method AppendSpreadBits(variables: seq<Variable>, count: nat) returns (r: seq<Variable>)
    ensures r == variables + SpreadBits(count)
  {
    r := variables;
    for i := 0 to count
      invariant r == variables + SpreadBits(count)[..i]
    {
      r := r + [NonceBit(i * 192 / count)];
    }
    assert SpreadBits(count)[..count] == SpreadBits(count);
  }

  method AppendLowBits(variables: seq<Variable>, count: nat) returns (r: seq<Variable>)
    ensures r == variables + LowBits(count)
  {
    r := variables;
    for i := 0 to count
      invariant r == variables + LowBits(count)[..i]
    {
      r := r + [CounterBit(i)];
    }
    assert LowBits(count)[..count] == LowBits(count);
  }

  /** The variables of a family; none for an unknown family. */
  method ChooseVariables(family: string, count: nat) returns (r: Option<seq<Variable>>)
    ensures r == Chosen(family, count)
  {
    hide SpreadBits, LowBits;
    var variables: seq<Variable> := [];
    if family == "nonce-spread" {
      variables := AppendSpreadBits(variables, count);
      assert variables == SpreadBits(count);
    } else if family == "counter-low" {
      variables := AppendLowBits(variables, count);
      assert variables == LowBits(count);
    } else if family == "mixed" {
      var nonceCount := count / 2;
      variables := AppendSpreadBits(variables, nonceCount);
      assert variables == SpreadBits(nonceCount);
      variables := AppendLowBits(variables, count - nonceCount);
    } else {
      return None;
    }
    return Some(variables);
  }

  lemma SpreadRises(i: nat, j: nat, count: nat)
    requires i < j < count <= 192
    ensures i * 192 / count < j * 192 / count < 192
  {
    var q, r := i * 192 / count, j * 192 / count;
    FloorIs(i * 192, count, q);
    FloorIs(j * 192, count, r);
    FloorIs(i * 192, count, r);
    ScaleBoth(r, q, count);
    ScaleBoth(192, r, count);
  }

  /** Up to 59 variables of any family are different, valid bits. */
  lemma ChosenAreDifferent(family: string, count: nat)
    requires count <= 59 && Chosen(family, count).Some?
    ensures var s := Chosen(family, count).value; |s| == count && AllVariables(s) && AllDifferent(s)
  {
    SpreadIsDifferent(count);
    SpreadIsDifferent(count / 2);
  }

  lemma SpreadIsDifferent(count: nat)
    requires count <= 192
    ensures AllVariables(SpreadBits(count)) && AllDifferent(SpreadBits(count))
  {
    forall i, j | 0 <= i < j < count ensures SpreadBits(count)[i] != SpreadBits(count)[j] {
      SpreadRises(i, j, count);
    }
    forall i | 0 <= i < count ensures IsVariable(SpreadBits(count)[i]) {
      FloorIs(i * 192, count, i * 192 / count);
      ScaleBoth(192, i * 192 / count, count);
    }
  }

  // ----- applying a mask in place -----

  method ApplyWalshMask(nonce: array<byte>, counter: nat, variables: seq<Variable>, mask: nat) returns (changed: nat)
    requires nonce.Length == 24 && AllVariables(variables)
    modifies nonce
    ensures Point(nonce[..], changed) == Applied(Point(old(nonce[..]), counter), variables, mask, |variables|)
  {
    hide Xor, Pow2, Bit;
    changed := counter;
    for i := 0 to |variables|
      invariant Point(nonce[..], changed) == Applied(Point(old(nonce[..]), counter), variables, mask, i)
    {
      if !Bit(mask, i) { continue; }
      var variable := variables[i];
      match variable
      case NonceBit(b) =>
        ghost var s := nonce[..];
        nonce[b / 8] := nonce[b / 8] ^ BYTE_MASKS[b % 8];
        assert nonce[..] == s[b / 8 := s[b / 8] ^ BYTE_MASKS[b % 8]];
      case CounterBit(b) =>
        changed := Xor(changed, Pow2(b));
    }
  }
}
