/**
 * Nonlinearity of Boolean functions: what the peak of the Walsh spectrum says about the distance
 * to the affine functions.  A function on 2^v points is its truth table.
 */
module Nonlinearity {
  import opened Walsh

  function Xor(x: nat, y: nat): nat
    decreases x + y
  {
    if x == 0 && y == 0 then 0 else 2 * Xor(x / 2, y / 2) + (x + y) % 2
  }

  lemma {:induction false} XorBelow(x: nat, y: nat, v: nat)
    requires x < Pow2(v) && y < Pow2(v)
    ensures Xor(x, y) < Pow2(v)
    decreases v
  {
    if v == 0 {
    } else {
      XorBelow(x / 2, y / 2, v - 1);
    }
  }

  lemma XorStep(x: nat, y: nat)
    ensures Xor(x, y) == 2 * Xor(x / 2, y / 2) + (x + y) % 2
  {
    if x == 0 && y == 0 {
      assert Xor(x, y) == 0;
    }
  }

  lemma XorNone(x: nat, y: nat)
    requires x == 0 && y == 1
    ensures Xor(x, y) == 1
  {
    XorStep(x, y);
    assert x / 2 == 0 && y / 2 == 0;
  }

  lemma {:induction false} XorTopBit(x: nat, v: nat)
    requires x < Pow2(v)
    ensures Xor(x, Pow2(v)) == x + Pow2(v)
    decreases v
  {
    PowSmall(v);
    hide *;
    if v == 0 {
      XorNone(x, Pow2(v));
    } else {
      PowStep(v);
      XorStep(x, Pow2(v));
      XorTopBit(x / 2, v - 1);
    }
  }

  lemma PowSmall(v: nat)
    ensures v == 0 ==> Pow2(v) == 1
  {
  }

  lemma XorDigits(x: nat, y: nat)
    ensures Xor(x, y) / 2 == Xor(x / 2, y / 2) && Xor(x, y) % 2 == (x + y) % 2
  {
    XorStep(x, y);
    hide Xor;
  }

  lemma DotStep(k: nat, x: nat)
    ensures k == 0 ==> !Dot(k, x)
    ensures k > 0 ==> Dot(k, x) == ((k % 2 == 1 && x % 2 == 1) != Dot(k / 2, x / 2))
  {
  }

  lemma {:induction false} DotXor(k: nat, x: nat, y: nat)
    ensures Dot(k, Xor(x, y)) == (Dot(k, x) != Dot(k, y))
    decreases k
  {
    hide *;
    DotStep(k, x);
    DotStep(k, y);
    DotStep(k, Xor(x, y));
    if k == 0 {
    } else {
      XorDigits(x, y);
      DotXor(k / 2, x / 2, y / 2);
    }
  }

  lemma {:induction false} DotZero(k: nat)
    ensures !Dot(k, 0)
    decreases k
  {
    if k > 0 { DotZero(k / 2); }
  }

  // ----- affine functions -----

  predicate At(b: seq<bool>, x: nat) {
    x < |b| && b[x]
  }

  predicate AddsAt(b: seq<bool>, x: nat, y: nat) {
    At(b, Xor(x, y)) == ((At(b, x) != At(b, y)) != At(b, 0))
  }

  /** `b` is an affine function over the two-element field. */
  ghost predicate Affine(b: seq<bool>, v: nat) {
    |b| == Pow2(v) && forall x: nat, y: nat :: x < |b| && y < |b| ==> AddsAt(b, x, y)
  }

  /** The function x -> <k, x> + c. */
  function AffineTable(k: nat, c: bool, n: nat): (b: seq<bool>)
    ensures |b| == n
  {
    seq(n, x requires 0 <= x < n => Dot(k, x) != c)
  }

  lemma TableIsAffine(k: nat, c: bool, v: nat)
    ensures Affine(AffineTable(k, c, Pow2(v)), v)
  {
    var b := AffineTable(k, c, Pow2(v));
    forall x: nat, y: nat | x < |b| && y < |b| ensures AddsAt(b, x, y) {
      XorBelow(x, y, v);
      DotXor(k, x, y);
      DotZero(k);
    }
  }

  lemma LowerHalfIsAffine(b: seq<bool>, v: nat)
    requires Affine(b, v + 1)
    ensures Affine(b[..Pow2(v)], v)
  {
    var low := b[..Pow2(v)];
    forall x: nat, y: nat | x < |low| && y < |low| ensures AddsAt(low, x, y) {
      XorBelow(x, y, v);
      assert AddsAt(b, x, y);
    }
  }

  lemma UpperHalf(b: seq<bool>, v: nat, x: nat)
    requires Affine(b, v + 1) && x < Pow2(v)
    ensures b[x + Pow2(v)] == ((b[x] != b[Pow2(v)]) != b[0])
  {
    XorTopBit(x, v);
    assert AddsAt(b, x, Pow2(v));
  }

  /** From the table of the lower half to both halves. */
  lemma TableEntry(b: seq<bool>, v: nat, j: nat, y: nat)
    requires Affine(b, v + 1) && y < Pow2(v) && j < Pow2(v)
    requires b[..Pow2(v)] == AffineTable(j, b[0], Pow2(v))
    ensures b[y] == (Dot(j, y) != b[0]) == (Dot(j + Pow2(v), y) != b[0])
    ensures b[y + Pow2(v)] == if b[Pow2(v)] != b[0] then Dot(j + Pow2(v), y + Pow2(v)) != b[0]
                              else Dot(j, y + Pow2(v)) != b[0]
  {
    assert b[y] == b[..Pow2(v)][y];
    UpperHalf(b, v, y);
    DotTopBit(j, y, v);
    hide Affine, Dot;
  }

  /** Every affine function is one of the tables. */
  lemma {:induction false} AffineIsTable(b: seq<bool>, v: nat) returns (k: nat)
    requires Affine(b, v)
    ensures k < Pow2(v) && b == AffineTable(k, b[0], |b|)
    decreases v
  {
    if v == 0 {
      k := 0;
    } else {
      var h := Pow2(v - 1);
      LowerHalfIsAffine(b, v - 1);
      var j := AffineIsTable(b[..h], v - 1);
      k := if b[h] != b[0] then j + h else j;
      forall x: nat | x < |b| ensures b[x] == (Dot(k, x) != b[0]) {
        TableEntry(b, v - 1, j, if x < h then x else x - h);
      }
    }
  }

  // ----- distance and correlation -----

  /** The number of the first `n` points at which two functions differ. */
  function DifferencesTo(b: seq<bool>, g: seq<bool>, n: nat): (d: nat)
    requires n <= |b| && n <= |g|
    ensures d <= n
  {
    if n == 0 then 0 else DifferencesTo(b, g, n - 1) + if b[n - 1] != g[n - 1] then 1 else 0
  }

  /** The Hamming distance of two functions. */
  function Differences(b: seq<bool>, g: seq<bool>): nat
    requires |b| == |g|
  {
    DifferencesTo(b, g, |b|)
  }

  /** The +1/-1 form of `b` that is transformed. */
  function Signs(b: seq<bool>): (f: seq<int>)
    ensures |f| == |b|
  {
    seq(|b|, i requires 0 <= i < |b| => if b[i] then -1 else 1)
  }

  lemma {:induction false} CorrelationCounts(b: seq<bool>, k: nat, c: bool, n: nat)
    requires n <= |b|
    ensures Signed(c, CorrelationTo(Signs(b), k, n)) == n - 2 * DifferencesTo(b, AffineTable(k, c, |b|), n)
  {
    if n == 0 {
    } else {
      CorrelationCounts(b, k, c, n - 1);
    }
  }

  /** Each coefficient is the number of points minus twice a distance. */
  lemma CoefficientIsDistance(b: seq<bool>, v: nat, k: nat, c: bool)
    requires |b| == Pow2(v) && k < |b|
    ensures Signed(c, Transform(Signs(b), v)[k]) == |b| - 2 * Differences(b, AffineTable(k, c, |b|))
  {
    TransformIsCorrelation(Signs(b), v, k);
    CorrelationCounts(b, k, c, |b|);
  }

  // ----- the peak of the spectrum -----

  function Abs(x: int): nat {
    if x < 0 then -x else x
  }

  /** `m` is the largest magnitude in `t`. */
  ghost predicate IsPeak(t: seq<int>, m: int) {
    (forall i :: 0 <= i < |t| ==> Abs(t[i]) <= m) && exists i :: 0 <= i < |t| && Abs(t[i]) == m
  }

  /** `d` is the least distance of `b` to an affine function. */
  ghost predicate IsNonlinearity(b: seq<bool>, v: nat, d: int)
    requires |b| == Pow2(v)
  {
    (forall g :: Affine(g, v) ==> d <= Differences(b, g)) && exists g :: Affine(g, v) && Differences(b, g) == d
  }

  /** With at least one variable every coefficient is even and at most the number of points. */
  lemma CoefficientIsEven(b: seq<bool>, v: nat, k: nat)
    requires |b| == Pow2(v) && v > 0 && k < |b|
    ensures Transform(Signs(b), v)[k] % 2 == 0
    ensures Abs(Transform(Signs(b), v)[k]) <= |b|
  {
    hide *;
    PowStep(v);
    CoefficientIsDistance(b, v, k, false);
    CoefficientIsDistance(b, v, k, true);
    EvenAndBounded(Transform(Signs(b), v)[k], Pow2(v - 1),
                   Differences(b, AffineTable(k, false, |b|)), Differences(b, AffineTable(k, true, |b|)));
  }

  lemma EvenAndBounded(t: int, h: nat, d: nat, e: nat)
    requires Signed(false, t) == 2 * h - 2 * d && Signed(true, t) == 2 * h - 2 * e
    ensures t % 2 == 0 && Abs(t) <= 2 * h
  {
  }

  lemma PeakIsEven(b: seq<bool>, v: nat, m: int)
    requires |b| == Pow2(v) && v > 0 && IsPeak(Transform(Signs(b), v), m)
    ensures m % 2 == 0 && 0 <= m <= |b| && |b| % 2 == 0
  {
    hide *;
    PowStep(v);
    var k := PeakPosition(Transform(Signs(b), v), m);
    CoefficientIsEven(b, v, k);
    SameParity(Transform(Signs(b), v)[k], m);
  }

  lemma PeakPosition(t: seq<int>, m: int) returns (k: nat)
    requires IsPeak(t, m)
    ensures k < |t| && Abs(t[k]) == m
  {
    k :| k < |t| && Abs(t[k]) == m;
  }

  lemma SameParity(x: int, m: int)
    requires Abs(x) == m && x % 2 == 0
    ensures 0 <= m && m % 2 == 0
  {
  }

  /** Half the points minus half the peak is the true minimum distance to any affine function. */
  lemma PeakGivesNonlinearity(b: seq<bool>, v: nat, m: int)
    requires |b| == Pow2(v) && v > 0 && IsPeak(Transform(Signs(b), v), m)
    ensures IsNonlinearity(b, v, |b| / 2 - m / 2)
  {
    PeakIsEven(b, v, m);
    var t := Transform(Signs(b), v);
    forall g | Affine(g, v) ensures |b| / 2 - m / 2 <= Differences(b, g) {
      var k := AffineIsTable(g, v);
      CoefficientIsDistance(b, v, k, g[0]);
      assert Abs(t[k]) <= m;
    }
    var k :| 0 <= k < |t| && Abs(t[k]) == m;
    var c := t[k] < 0;
    CoefficientIsDistance(b, v, k, c);
    TableIsAffine(k, c, v);
    assert Differences(b, AffineTable(k, c, |b|)) == |b| / 2 - m / 2;
  }

  lemma {:induction false} NoDifferences(b: seq<bool>, g: seq<bool>, n: nat)
    requires n <= |b| && n <= |g|
    ensures DifferencesTo(b, g, n) == 0 <==> b[..n] == g[..n]
  {
    if n == 0 {
    } else {
      NoDifferences(b, g, n - 1);
      assert b[..n] == b[..n - 1] + [b[n - 1]] && g[..n] == g[..n - 1] + [g[n - 1]];
    }
  }

  /** The peak reaches the number of points exactly for the affine functions. */
  lemma PeakIsFullIffAffine(b: seq<bool>, v: nat, m: int)
    requires |b| == Pow2(v) && v > 0 && IsPeak(Transform(Signs(b), v), m)
    ensures m == |b| <==> Affine(b, v)
  {
    PeakIsEven(b, v, m);
    PeakGivesNonlinearity(b, v, m);
    var d := |b| / 2 - m / 2;
    if m == |b| {
      var g :| Affine(g, v) && Differences(b, g) == d;
      NoDifferences(b, g, |b|);
      assert b[..|b|] == b && g[..|b|] == g;
    }
    if Affine(b, v) {
      NoDifferences(b, b, |b|);
      assert d <= Differences(b, b);
    }
  }

  // ----- the peak is never small -----

  lemma {:induction false} SignEnergy(b: seq<bool>)
    ensures Energy(Signs(b)) == |b|
  {
    if b == [] {
    } else {
      var n := |b| - 1;
      SignEnergy(b[..n]);
      assert Signs(b)[..n] == Signs(b[..n]);
    }
  }

  lemma Square(x: int, m: int)
    requires Abs(x) <= m
    ensures x * x <= Product(m, m)
  {
    if x < 0 {
      assert (-x) * (-x) <= m * m;
      assert (-x) * (-x) == x * x;
    } else {
      assert x * x <= m * m;
    }
  }

  lemma {:induction false} EnergyBound(t: seq<int>, m: int)
    requires forall i :: 0 <= i < |t| ==> Abs(t[i]) <= m
    ensures Energy(t) <= Product(|t|, Product(m, m))
  {
    if t == [] {
    } else {
      var n := |t| - 1;
      EnergyBound(t[..n], m);
      Square(t[n], m);
      assert Product(|t|, Product(m, m)) == Product(n, Product(m, m)) + Product(m, m);
    }
  }

  lemma Cancel(n: int, p: int)
    requires n > 0 && Product(n, n) <= Product(n, p)
    ensures n <= p
  {
    hide *;
    if p < n { ProductGrows(n, p, n); }
  }

  lemma ProductGrows(n: int, p: int, q: int)
    requires n > 0 && p < q
    ensures Product(n, p) < Product(n, q)
  {
  }

  /** No function correlates with every affine function less than the square root allows. */
  lemma PeakIsLarge(b: seq<bool>, v: nat, m: int)
    requires |b| == Pow2(v) && IsPeak(Transform(Signs(b), v), m)
    ensures m * m >= |b|
  {
    TransformEnergy(Signs(b), v);
    SignEnergy(b);
    EnergyBound(Transform(Signs(b), v), m);
    Cancel(|b|, Product(m, m));
  }
}
