/** Which inputs the families of a Walsh stratum visit: the counters of an aligned block, evenly spread nonce
    bits, or both. */
module Families {
  import opened Foundations
  import opened Walsh
  import opened Nonlinearity
  import opened Frames
  import opened MaskEnumeration
  import opened WalshStratum

  // ----- a number in two parts -----

  /** The number without its low `k` bits. */
  function Drop(n: nat, k: nat): nat
    decreases k
  {
    if k == 0 then n else Drop(n / 2, k - 1)
  }

  /** The number of the low `k` bits. */
  function Low(n: nat, k: nat): nat
    decreases k
  {
    if k == 0 then 0 else 2 * Low(n / 2, k - 1) + n % 2
  }

  lemma {:induction false} DropStep(n: nat, k: nat)
    ensures Drop(n, k) == 2 * Drop(n, k + 1) + if Bit(n, k) then 1 else 0
    decreases k
  {
    if k > 0 { DropStep(n / 2, k - 1); }
  }

  lemma {:induction false} BitOfDrop(n: nat, k: nat, i: nat)
    ensures Bit(n, k + i) == Bit(Drop(n, k), i)
    decreases k
  {
    if k > 0 { BitOfDrop(n / 2, k - 1, i); }
  }

  lemma {:induction false} TwoParts(n: nat, k: nat)
    ensures n == Drop(n, k) * Pow2(k) + Low(n, k) && Low(n, k) < Pow2(k)
  {
    if k == 0 {
      NoParts(n, k);
    } else {
      TwoParts(n, k - 1);
      PowStep(k);
      DropStep(n, k - 1);
      LowStep(n, k);
      hide *;
      OneBitUp(Drop(n, k), Pow2(k - 1), Low(n, k - 1), Bit(n, k - 1));
    }
  }

  lemma NoParts(n: nat, k: nat)
    requires k == 0
    ensures Drop(n, k) == n && Low(n, k) == 0 && Pow2(k) == 1
  {
  }

  lemma OneBitUp(d: nat, p: nat, low: nat, b: bool)
    ensures (2 * d + if b then 1 else 0) * p + low == d * (2 * p) + (low + if b then p else 0)
  {
  }

  lemma {:induction false} LowStep(n: nat, k: nat)
    requires k > 0
    ensures Low(n, k) == Low(n, k - 1) + if Bit(n, k - 1) then Pow2(k - 1) else 0
    decreases k
  {
    if k > 1 {
      LowStep(n / 2, k - 1);
      PowStep(k - 1);
    }
  }

  lemma {:induction false} BitOfLow(n: nat, k: nat, i: nat)
    requires i < k
    ensures Bit(Low(n, k), i) == Bit(n, i)
    decreases k
  {
    if i > 0 { BitOfLow(n / 2, k - 1, i - 1); }
  }

  /** The parts are quotient and remainder by a power of two. */
  lemma PartsAreDivision(n: nat, k: nat)
    requires Pow2(k) > 0
    ensures Drop(n, k) == n / Pow2(k) && Low(n, k) == n % Pow2(k)
  {
    TwoParts(n, k);
    hide Drop, Low, Pow2;
    FloorIs(n, Pow2(k), Drop(n, k));
  }

  lemma {:induction false} PowSum(k: nat, n: nat)
    ensures Pow2(k + n) == Pow2(k) * Pow2(n)
  {
    if n > 0 {
      PowSum(k, n - 1);
      PowStep(k + n);
      PowStep(n);
      hide Pow2;
      assert Pow2(k) * (2 * Pow2(n - 1)) == 2 * (Pow2(k) * Pow2(n - 1));
    }
  }

  /** A mask of k + n bits without its low k has n bits. */
  lemma QuotientBelow(mask: nat, k: nat, n: nat)
    requires mask < Pow2(k + n)
    ensures Low(Drop(mask, k), n) == Drop(mask, k)
  {
    TwoParts(mask, k);
    TwoParts(Drop(mask, k), n);
    PowSum(k, n);
    hide Drop, Low, Pow2;
    var (d, high, p) := (Drop(mask, k), Drop(Drop(mask, k), n), Pow2(k) * Pow2(n));
    if high > 0 {
      ScaleBoth(1, high, Pow2(n));
      ScaleBoth(Pow2(n), d, Pow2(k));
    }
  }

  lemma PowZero(b: nat)
    requires b == 0
    ensures Pow2(b) == 1
  {
  }

  lemma BitStep(c: nat, b: nat)
    ensures Bit(c, b) == if b == 0 then c % 2 == 1 else Bit(c / 2, b - 1)
  {
  }

  lemma {:induction false} XorSetsBit(c: nat, b: nat)
    requires !Bit(c, b)
    ensures Xor(c, Pow2(b)) == c + Pow2(b)
    decreases b
  {
    hide *;
    XorStep(c, Pow2(b));
    BitStep(c, b);
    if b == 0 {
      PowZero(b);
      XorZero(c / 2);
    } else {
      PowStep(b);
      XorSetsBit(c / 2, b - 1);
    }
  }

  lemma {:induction false} XorZero(c: nat)
    ensures Xor(c, 0) == c
  {
    if c > 0 {
      hide *;
      XorStep(c, 0);
      XorZero(c / 2);
    }
  }

  // ----- nonce variables followed by the low counter bits -----

  predicate AllNonce(variables: seq<Variable>) {
    forall v :: v in variables ==> v.NonceBit?
  }

  lemma NotFlipped(variables: seq<Variable>, mask: nat, n: nat, w: Variable)
    requires n <= |variables| && w !in variables[..n]
    ensures !Flipped(variables, mask, n, w)
  {
    if n > 0 {
      assert w != variables[n - 1] by { assert variables[n - 1] == variables[..n][n - 1]; }
      assert w !in variables[..n - 1] by { assert variables[..n - 1] == variables[..n][..n - 1]; }
      NotFlipped(variables, mask, n - 1, w);
    }
  }

  lemma LowBitIndex(first: seq<Variable>, n: nat, j: nat)
    requires AllNonce(first) && j < n
    ensures (first + LowBits(n))[|first| + j] == CounterBit(j)
    ensures CounterBit(j) !in (first + LowBits(n))[..|first| + j]
    ensures CounterBit(j) in first + LowBits(n)
  {
    var s := first + LowBits(n);
    assert s[|first| + j] == LowBits(n)[j];
    forall i | 0 <= i < |first| + j ensures s[i] != CounterBit(j) {
      if i < |first| {
        assert s[i] in first;
      } else {
        assert s[i] == LowBits(n)[i - |first|];
      }
    }
  }

  /** Before the low counter bits nothing happens to the counter, and the nonce depends on these mask bits alone. */
  lemma {:induction false} NoncePart(p: Point, first: seq<Variable>, rest: seq<Variable>, mask: nat, n: nat)
    requires AllNonce(first) && AllVariables(first) && AllVariables(first + rest) && n <= |first|
    ensures Applied(p, first + rest, mask, n).counter == p.counter
    ensures Applied(p, first + rest, mask, n) == Applied(p, first, mask, n)
  {
    if n > 0 {
      NoncePart(p, first, rest, mask, n - 1);
      assert (first + rest)[n - 1] == first[n - 1] && first[n - 1] in first;
    }
  }

  /** The nonce reached depends on the nonce and on the low bits of the mask alone. */
  lemma {:induction false} SameNonce(p: Point, q: Point, variables: seq<Variable>, mask: nat, k: nat, n: nat)
    requires AllNonce(variables) && AllVariables(variables) && n <= k && n <= |variables| && p.nonce == q.nonce
    ensures Applied(p, variables, mask, n).nonce == Applied(q, variables, Low(mask, k), n).nonce
  {
    if n > 0 {
      SameNonce(p, q, variables, mask, k, n - 1);
      BitOfLow(mask, k, n - 1);
      assert variables[n - 1] in variables;
      hide Bit, Low;
    }
  }

  /** Each of the low counter bits a mask selects is added; the nonce stays. */
  lemma {:induction false} CounterPart(p: Point, first: seq<Variable>, n: nat, mask: nat, j: nat)
    requires AllNonce(first) && AllVariables(first) && AllVariables(first + LowBits(n)) && j <= n
    requires forall i :: 0 <= i < n ==> !Bit(p.counter, i)
    ensures var q := Applied(p, first + LowBits(n), mask, |first| + j);
      q.counter == p.counter + Low(Drop(mask, |first|), j) && q.nonce == Applied(p, first, mask, |first|).nonce
  {
    hide Bit, Xor, Pow2, InputBit, LowBits, AllVariables;
    if j == 0 {
      NoncePart(p, first, LowBits(n), mask, |first|);
    } else {
      var s := first + LowBits(n);
      var q := Applied(p, s, mask, |first| + j - 1);
      CounterPart(p, first, n, mask, j - 1);
      LowBitIndex(first, n, j - 1);
      BitOfDrop(mask, |first|, j - 1);
      BitStillClear(p, s, mask, |first| + j - 1, j - 1);
      XorSetsBit(q.counter, j - 1);
      LowStep(Drop(mask, |first|), j);
      hide Drop, Low;
    }
  }

  lemma BitStillClear(p: Point, variables: seq<Variable>, mask: nat, n: nat, b: nat)
    requires n <= |variables| && AllVariables(variables) && CounterBit(b) !in variables[..n] && !Bit(p.counter, b)
    ensures !Bit(Applied(p, variables, mask, n).counter, b)
  {
    AppliedFlips(p, variables, mask, n, CounterBit(b));
    NotFlipped(variables, mask, n, CounterBit(b));
  }

  /** Clearing the low counter bits takes their number away. */
  lemma {:induction false} ClearedPart(counter: nat, first: seq<Variable>, n: nat, j: nat)
    requires AllNonce(first) && j <= n
    ensures Cleared(counter, first + LowBits(n), |first| + j) == counter - Low(counter, j)
  {
    hide Bit, Pow2, LowBits;
    var s := first + LowBits(n);
    if j == 0 {
      ClearedNothing(counter, first, LowBits(n), |first|);
    } else {
      ClearedPart(counter, first, n, j - 1);
      LowBitIndex(first, n, j - 1);
      ClearedBits(counter, s, |first| + j - 1, j - 1);
      LowStep(counter, j);
      hide Low;
    }
  }

  lemma {:induction false} ClearedNothing(counter: nat, first: seq<Variable>, rest: seq<Variable>, n: nat)
    requires AllNonce(first) && n <= |first|
    ensures Cleared(counter, first + rest, n) == counter
  {
    if n > 0 {
      ClearedNothing(counter, first, rest, n - 1);
      assert (first + rest)[n - 1] in first;
    }
  }

  /** The payload counter drawn for a trial. */
  function Drawn(t: TrialInput): nat {
    t.word % (MAXIMUM_PAYLOAD_COUNTER + 1)
  }

  function Quotient(n: nat, d: nat): nat
    requires d > 0
  {
    n / d
  }

  function Remainder(n: nat, d: nat): (r: nat)
    requires d > 0
    ensures r <= n
  {
    FloorIs(n, d, n / d);
    n % d
  }

  /** Where the aligned block of 2^n counters begins that holds the drawn one. */
  function BlockStart(t: TrialInput, n: nat): nat {
    Drawn(t) - LowMask(Drawn(t), n)
  }

  /** The mask without its low `k` bits. */
  function HighMask(mask: nat, k: nat): nat {
    hide Pow2;
    PowSmall(k);
    Quotient(mask, Pow2(k))
  }

  /** The low `k` bits of the mask. */
  function LowMask(mask: nat, k: nat): (low: nat)
    ensures low <= mask
  {
    hide Pow2;
    PowSmall(k);
    Remainder(mask, Pow2(k))
  }

  lemma PartsAreMasks(n: nat, k: nat)
    ensures Drop(n, k) == HighMask(n, k) && Low(n, k) == LowMask(n, k)
  {
    PowSmall(k);
    PartsAreDivision(n, k);
    hide Pow2, Drop, Low;
  }

  /** With nonce variables before the low `n` counter bits, a mask chooses the counter in the aligned block of 2^n
      that holds the drawn one, by its high bits; the low bits alone choose the nonce. */
  lemma PointParts(t: TrialInput, first: seq<Variable>, n: nat, mask: nat)
    requires AllNonce(first) && AllVariables(first) && AllVariables(first + LowBits(n)) && mask < Pow2(|first| + n)
    ensures PointAt(t, first + LowBits(n), mask).counter == BlockStart(t, n) + HighMask(mask, |first|)
    ensures PointAt(t, first + LowBits(n), mask).nonce == PointAt(t, first, LowMask(mask, |first|)).nonce
  {
    hide *;
    var s := first + LowBits(n);
    BlockBase(t, first, n);
    PartsAreMasks(Drawn(t), n);
    PartsAreMasks(mask, |first|);
    BlockStartIs(t, n);
    PointIs(t, s, mask);
    PointIs(t, first, LowMask(mask, |first|));
    CounterPart(Base(t, s), first, n, mask, n);
    QuotientBelow(mask, |first|, n);
    SameNonce(Base(t, s), Base(t, first), first, mask, |first|, |first|);
  }

  lemma BlockStartIs(t: TrialInput, n: nat)
    ensures BlockStart(t, n) == Drawn(t) - LowMask(Drawn(t), n)
  {
  }

  lemma PointIs(t: TrialInput, variables: seq<Variable>, mask: nat)
    requires AllVariables(variables)
    ensures Base(t, variables).nonce == t.nonce
    ensures PointAt(t, variables, mask) == Applied(Base(t, variables), variables, mask, |variables|)
  {
    hide Applied, Cleared, AllVariables;
  }

  /** The counter of mask zero begins its block. */
  lemma BlockBase(t: TrialInput, first: seq<Variable>, n: nat)
    requires AllNonce(first)
    ensures Base(t, first + LowBits(n)).counter == Drawn(t) - Low(Drawn(t), n)
    ensures forall i :: 0 <= i < n ==> !Bit(Base(t, first + LowBits(n)).counter, i)
  {
    hide Bit, Cleared, Low, LowBits;
    var s := first + LowBits(n);
    assert s[..|s|] == s;
    forall i | 0 <= i < n ensures !Bit(Base(t, s).counter, i) {
      ClearedBits(Drawn(t), s, |s|, i);
      LowBitIndex(first, n, i);
    }
    ClearedPart(Drawn(t), first, n, n);
  }

  // ----- the three families -----

  /** "counter-low": the nonce is the drawn one, and mask m reaches counter m of the aligned block. */
  lemma CounterLowPoints(t: TrialInput, count: nat, variables: seq<Variable>, mask: nat)
    requires count <= 59 && Chosen("counter-low", count) == Some(variables) && mask < Pow2(count)
    ensures AllVariables(variables) && PointAt(t, variables, mask) == Point(t.nonce, BlockStart(t, count) + mask)
  {
    ChosenAreDifferent("counter-low", count);
    assert variables == LowBits(count) by { hide LowBits; }
    hide *;
    CounterLowAt(t, count, mask);
  }

  lemma CounterLowAt(t: TrialInput, count: nat, mask: nat)
    requires AllVariables(LowBits(count)) && mask < Pow2(count)
    ensures PointAt(t, LowBits(count), mask) == Point(t.nonce, BlockStart(t, count) + mask)
  {
    NoVariables(t, LowMask(mask, 0));
    WholeMask(mask);
    hide PointAt, LowBits, AllVariables, Pow2, BlockStart, HighMask, LowMask;
    assert [] + LowBits(count) == LowBits(count);
    PointParts(t, [], count, mask);
  }

  lemma WholeMask(mask: nat)
    ensures HighMask(mask, 0) == mask
  {
  }

  lemma NoVariables(t: TrialInput, mask: nat)
    ensures AllVariables([]) && PointAt(t, [], mask).nonce == t.nonce
  {
  }

  /** "nonce-spread": the counter is the drawn one for every mask, and mask bit i moves nonce bit floor(192 i / count);
      the first is bit 0 and neighbours are floor(192 / count) or one more apart. */
  lemma NonceSpreadPoints(t: TrialInput, count: nat, variables: seq<Variable>, mask: nat, w: Variable)
    requires count <= 59 && Chosen("nonce-spread", count) == Some(variables) && (w.NonceBit? ==> w.bit < 192)
    ensures AllVariables(variables) && PointAt(t, variables, mask).counter == Drawn(t)
    ensures InputBit(PointAt(t, variables, mask), w)
            == (InputBit(Point(t.nonce, Drawn(t)), w) != exists i :: 0 <= i < count && Bit(mask, i) && variables[i] == w)
    ensures count > 0 ==> variables[0] == NonceBit(0) && EvenlySpread(variables, 192 / count)
  {
    ChosenAreDifferent("nonce-spread", count);
    assert variables == SpreadBits(count) by { hide SpreadBits; }
    if count > 0 { SpreadIsEven(count); }
    assert AllNonce(variables);
    hide Chosen, SpreadBits, EvenlySpread;
    SpreadAt(t, variables, mask, w);
  }

  lemma SpreadAt(t: TrialInput, s: seq<Variable>, mask: nat, w: Variable)
    requires AllVariables(s) && AllDifferent(s) && AllNonce(s) && (w.NonceBit? ==> w.bit < 192)
    ensures PointAt(t, s, mask).counter == Drawn(t)
    ensures InputBit(PointAt(t, s, mask), w)
            == (InputBit(Point(t.nonce, Drawn(t)), w) != exists i :: 0 <= i < |s| && Bit(mask, i) && s[i] == w)
  {
    assert s + [] == s;
    assert Base(t, s) == Point(t.nonce, Drawn(t)) by { ClearedNothing(Drawn(t), s, [], |s|); }
    hide AllVariables, AllDifferent, Bit, InputBit, Drawn, Cleared, Pow2;
    NoncePart(Base(t, s), s, [], mask, |s|);
    AppliedFlips(Base(t, s), s, mask, |s|, w);
    FlippedIfSelected(s, mask, |s|, w);
  }

  /** Neighbouring bits are `gap` or one more apart. */
  predicate EvenlySpread(s: seq<Variable>, gap: nat) {
    forall i :: 0 <= i < |s| - 1 ==> s[i].bit + gap <= s[i + 1].bit <= s[i].bit + gap + 1
  }

  lemma SpreadIsEven(count: nat)
    requires 0 < count
    ensures SpreadBits(count)[0] == NonceBit(0) && EvenlySpread(SpreadBits(count), 192 / count)
  {
    forall i | 0 <= i < count - 1
      ensures i * 192 / count + 192 / count <= (i + 1) * 192 / count <= i * 192 / count + 192 / count + 1 {
      SpreadGap(i, count);
    }
    assert 0 * 192 / count == 0;
  }

  lemma SpreadGap(i: nat, count: nat)
    requires 0 < count
    ensures i * 192 / count + 192 / count <= (i + 1) * 192 / count <= i * 192 / count + 192 / count + 1
  {
    var (a, b, q) := (i * 192 / count, 192 / count, (i + 1) * 192 / count);
    FloorIs(i * 192, count, a);
    FloorIs(192, count, b);
    FloorIs((i + 1) * 192, count, q);
    ScaleBoth(q + 1, a + b, count);
    ScaleBoth(a + b + 2, q, count);
    assert (q + 1) * count == q * count + count;
    assert (a + b) * count == a * count + b * count && (a + b + 2) * count == a * count + b * count + 2 * count;
  }

  /** With different variables a bit is flipped exactly when the mask selects a variable that names it. */
  lemma {:induction false} FlippedIfSelected(variables: seq<Variable>, mask: nat, n: nat, w: Variable)
    requires n <= |variables| && AllDifferent(variables)
    ensures Flipped(variables, mask, n, w) <==> exists i :: 0 <= i < n && Bit(mask, i) && variables[i] == w
  {
    if n > 0 {
      FlippedIfSelected(variables, mask, n - 1, w);
      assert forall i :: 0 <= i < n - 1 ==> variables[i] != variables[n - 1];
      hide Bit;
    }
  }

  /** "mixed": of the mask bits, the low count/2 move the nonce only, as "nonce-spread" does, and the others the
      counter only, through the aligned block. */
  lemma MixedPoints(t: TrialInput, count: nat, variables: seq<Variable>, spread: seq<Variable>, mask: nat)
    requires count <= 59 && mask < Pow2(count)
    requires Chosen("mixed", count) == Some(variables) && Chosen("nonce-spread", count / 2) == Some(spread)
    ensures AllVariables(variables) && AllVariables(spread)
    ensures PointAt(t, variables, mask).counter == BlockStart(t, count - count / 2) + HighMask(mask, count / 2)
    ensures PointAt(t, variables, mask).nonce == PointAt(t, spread, LowMask(mask, count / 2)).nonce
  {
    var k := count / 2;
    ChosenAreDifferent("mixed", count);
    ChosenAreDifferent("nonce-spread", k);
    assert AllNonce(SpreadBits(k));
    assert variables == SpreadBits(k) + LowBits(count - k) && spread == SpreadBits(k) by { hide SpreadBits, LowBits; }
    hide *;
    assert |SpreadBits(k)| == k;
    PointParts(t, SpreadBits(k), count - k, mask);
  }
}
