/** The fast Walsh-Hadamard transform and the double sum it computes. */
module Walsh {
  import opened Foundations

  /** A C++ `int`. */
  type int32 = x: int | -0x8000_0000 <= x <= 0x7FFF_FFFF

  function Pow2(v: nat): (n: nat)
    ensures n > 0
  {
    if v == 0 then 1 else 2 * Pow2(v - 1)
  }

  /** The parity of popcount(k AND x). */
  function Dot(k: nat, x: nat): bool
    decreases k
  {
    if k == 0 then false else (k % 2 == 1 && x % 2 == 1) != Dot(k / 2, x / 2)
  }

  /** (-1) to the power popcount(k AND x). */
  function Chi(k: nat, x: nat): int {
    if Dot(k, x) then -1 else 1
  }

  /** The first `n` terms of the correlation of `f` with character `k`. */
  function CorrelationTo(f: seq<int>, k: nat, n: nat): int
    requires n <= |f|
  {
    if n == 0 then 0 else CorrelationTo(f, k, n - 1) + Chi(k, n - 1) * f[n - 1]
  }

  function Correlation(f: seq<int>, k: nat): int {
    CorrelationTo(f, k, |f|)
  }

  // ----- vectors -----

  function Add(a: seq<int>, b: seq<int>): (c: seq<int>)
    requires |a| == |b|
    ensures |c| == |a|
  {
    seq(|a|, i requires 0 <= i < |a| => a[i] + b[i])
  }

  function Sub(a: seq<int>, b: seq<int>): (c: seq<int>)
    requires |a| == |b|
    ensures |c| == |a|
  {
    seq(|a|, i requires 0 <= i < |a| => a[i] - b[i])
  }

  function Scaled(c: int, f: seq<int>): (s: seq<int>)
    ensures |s| == |f|
  {
    seq(|f|, i requires 0 <= i < |f| => c * f[i])
  }

  lemma SplitSums(a: seq<int>, b: seq<int>, c: seq<int>, d: seq<int>)
    requires |a| == |c| && |b| == |d|
    ensures Add(a + b, c + d) == Add(a, c) + Add(b, d)
    ensures Sub(a + b, c + d) == Sub(a, c) + Sub(b, d)
  {
  }

  lemma Interchange(a: seq<int>, b: seq<int>, c: seq<int>, d: seq<int>)
    requires |a| == |b| == |c| == |d|
    ensures Add(Add(a, b), Add(c, d)) == Add(Add(a, c), Add(b, d))
    ensures Sub(Add(a, b), Add(c, d)) == Add(Sub(a, c), Sub(b, d))
    ensures Add(Sub(a, b), Sub(c, d)) == Sub(Add(a, c), Add(b, d))
    ensures Sub(Sub(a, b), Sub(c, d)) == Sub(Sub(a, c), Sub(b, d))
  {
  }

  lemma Doubling(h: int, x: int, y: int)
    ensures (h * x + h * y) + (h * x - h * y) == (2 * h) * x
    ensures (h * x + h * y) - (h * x - h * y) == (2 * h) * y
  {
  }

  lemma ScaledOne(f: seq<int>, v: nat)
    requires v == 0
    ensures Scaled(Pow2(v), f) == f
  {
  }

  lemma ScaledConcat(c: int, a: seq<int>, b: seq<int>)
    ensures Scaled(c, a + b) == Scaled(c, a) + Scaled(c, b)
  {
  }

  lemma DoubledSums(h: int, a: seq<int>, b: seq<int>)
    requires |a| == |b|
    ensures Add(Add(Scaled(h, a), Scaled(h, b)), Sub(Scaled(h, a), Scaled(h, b))) == Scaled(2 * h, a)
    ensures Sub(Add(Scaled(h, a), Scaled(h, b)), Sub(Scaled(h, a), Scaled(h, b))) == Scaled(2 * h, b)
  {
    forall i | 0 <= i < |a|
      ensures (h * a[i] + h * b[i]) + (h * a[i] - h * b[i]) == (2 * h) * a[i]
      ensures (h * a[i] + h * b[i]) - (h * a[i] - h * b[i]) == (2 * h) * b[i]
    {
      Doubling(h, a[i], b[i]);
    }
  }

  lemma PowStep(v: nat)
    requires v > 0
    ensures Pow2(v) == 2 * Pow2(v - 1)
  {
  }

  lemma Halves(f: seq<int>, v: nat) returns (a: seq<int>, b: seq<int>)
    requires |f| == Pow2(v + 1)
    ensures f == a + b && |a| == |b| == Pow2(v)
  {
    a, b := f[..Pow2(v)], f[Pow2(v)..];
  }

  // ----- the transform by halves -----

  function Transform(f: seq<int>, v: nat): (t: seq<int>)
    requires |f| == Pow2(v)
    ensures |t| == |f|
    decreases v
  {
    if v == 0 then f
    else
      var h := Pow2(v - 1);
      var a, b := Transform(f[..h], v - 1), Transform(f[h..], v - 1);
      Add(a, b) + Sub(a, b)
  }

  lemma TransformOne(f: seq<int>, v: nat)
    requires v == 0 && |f| == Pow2(v)
    ensures |f| == 1 && Transform(f, v) == f
  {
  }

  lemma TransformJoin(a: seq<int>, b: seq<int>, v: nat)
    requires |a| == |b| == Pow2(v)
    ensures |a + b| == Pow2(v + 1)
    ensures Transform(a + b, v + 1) ==
      Add(Transform(a, v), Transform(b, v)) + Sub(Transform(a, v), Transform(b, v))
  {
    assert (a + b)[..|a|] == a && (a + b)[|a|..] == b;
  }

  lemma TransformJoinAt(a: seq<int>, b: seq<int>, v: nat, j: nat)
    requires |a| == |b| == Pow2(v) && j < |a|
    ensures |a + b| == Pow2(v + 1)
    ensures Transform(a + b, v + 1)[j] == Transform(a, v)[j] + Transform(b, v)[j]
    ensures Transform(a + b, v + 1)[j + Pow2(v)] == Transform(a, v)[j] - Transform(b, v)[j]
  {
    TransformJoin(a, b, v);
    hide Transform;
  }

  /** The top bit of the index decides the sign of the upper half. */
  lemma {:induction false} DotTopBit(k: nat, x: nat, v: nat)
    requires k < Pow2(v) && x < Pow2(v)
    ensures Dot(k, x + Pow2(v)) == Dot(k, x)
    ensures Dot(k + Pow2(v), x) == Dot(k, x)
    ensures Dot(k + Pow2(v), x + Pow2(v)) == !Dot(k, x)
  {
    if v == 0 {
      assert Dot(1, 0) == false && Dot(1, 1) == true by {
        assert Dot(0, 0) == false;
      }
    } else {
      var h := Pow2(v - 1);
      DotTopBit(k / 2, x / 2, v - 1);
      assert (k + 2 * h) / 2 == k / 2 + h && (k + 2 * h) % 2 == k % 2;
      assert (x + 2 * h) / 2 == x / 2 + h && (x + 2 * h) % 2 == x % 2;
    }
  }

  /** The first half contributes the same terms whether or not `k` has the top bit. */
  lemma {:induction false} LowerTerms(a: seq<int>, b: seq<int>, k: nat, j: nat, v: nat, n: nat)
    requires n <= |a| == Pow2(v) && j < Pow2(v) && (k == j || k == j + Pow2(v))
    ensures CorrelationTo(a + b, k, n) == CorrelationTo(a, j, n)
  {
    if n == 0 {
    } else {
      LowerTerms(a, b, k, j, v, n - 1);
      DotTopBit(j, n - 1, v);
    }
  }

  function Signed(negative: bool, x: int): int {
    if negative then -x else x
  }

  /** The second half contributes its own correlation, negated when `k` has the top bit. */
  lemma {:induction false} UpperTerms(a: seq<int>, b: seq<int>, k: nat, j: nat, v: nat, n: nat)
    requires |a| == |b| == Pow2(v) && n <= |b| && j < Pow2(v) && (k == j || k == j + Pow2(v))
    ensures CorrelationTo(a + b, k, |a| + n) ==
      CorrelationTo(a, j, |a|) + Signed(k != j, CorrelationTo(b, j, n))
  {
    if n == 0 {
      LowerTerms(a, b, k, j, v, |a|);
    } else {
      UpperTerms(a, b, k, j, v, n - 1);
      DotTopBit(j, n - 1, v);
      assert (a + b)[|a| + n - 1] == b[n - 1];
      assert Chi(k, |a| + n - 1) == Signed(k != j, Chi(j, n - 1));
    }
  }

  lemma CorrelationJoin(a: seq<int>, b: seq<int>, j: nat, v: nat)
    requires |a| == |b| == Pow2(v) && j < Pow2(v)
    ensures Correlation(a + b, j) == Correlation(a, j) + Correlation(b, j)
    ensures Correlation(a + b, j + Pow2(v)) == Correlation(a, j) - Correlation(b, j)
  {
    UpperTerms(a, b, j, j, v, |b|);
    UpperTerms(a, b, j + Pow2(v), j, v, |b|);
  }

  lemma SinglePoint(f: seq<int>, k: nat)
    requires |f| == 1 && k == 0
    ensures Correlation(f, k) == f[0]
  {
    assert CorrelationTo(f, k, |f|) == CorrelationTo(f, k, |f| - 1) + Chi(k, |f| - 1) * f[|f| - 1];
    assert !Dot(k, |f| - 1);
  }

  /** Entry k of the transform is the sum over x of (-1)^popcount(k AND x) * f[x]. */
  lemma {:induction false} TransformIsCorrelation(f: seq<int>, v: nat, k: nat)
    requires |f| == Pow2(v) && k < Pow2(v)
    ensures Transform(f, v)[k] == Correlation(f, k)
    decreases v
  {
    hide *;
    if v == 0 {
      TransformOne(f, v);
      SinglePoint(f, k);
    } else {
      PowStep(v);
      var h := Pow2(v - 1);
      var a, b := Halves(f, v - 1);
      var j := if k < h then k else k - h;
      TransformIsCorrelation(a, v - 1, j);
      TransformIsCorrelation(b, v - 1, j);
      TransformJoinAt(a, b, v - 1, j);
      CorrelationJoin(a, b, j, v - 1);
    }
  }

  // ----- linearity, involution, energy -----

  lemma {:induction false} TransformIsLinear(f: seq<int>, g: seq<int>, v: nat)
    requires |f| == |g| == Pow2(v)
    ensures Transform(Add(f, g), v) == Add(Transform(f, v), Transform(g, v))
    ensures Transform(Sub(f, g), v) == Sub(Transform(f, v), Transform(g, v))
    decreases v
  {
    hide *;
    if v == 0 {
      TransformOne(f, v);
      TransformOne(g, v);
      TransformOne(Add(f, g), v);
      TransformOne(Sub(f, g), v);
    } else {
      var a, b := Halves(f, v - 1);
      var c, d := Halves(g, v - 1);
      TransformIsLinear(a, c, v - 1);
      TransformIsLinear(b, d, v - 1);
      SplitSums(a, b, c, d);
      TransformJoin(a, b, v - 1);
      TransformJoin(c, d, v - 1);
      TransformJoin(Add(a, c), Add(b, d), v - 1);
      TransformJoin(Sub(a, c), Sub(b, d), v - 1);
      LinearStep(Transform(a, v - 1), Transform(b, v - 1), Transform(c, v - 1), Transform(d, v - 1));
    }
  }

  lemma LinearStep(a: seq<int>, b: seq<int>, c: seq<int>, d: seq<int>)
    requires |a| == |b| == |c| == |d|
    ensures Add(Add(a, b) + Sub(a, b), Add(c, d) + Sub(c, d)) ==
      Add(Add(a, c), Add(b, d)) + Sub(Add(a, c), Add(b, d))
    ensures Sub(Add(a, b) + Sub(a, b), Add(c, d) + Sub(c, d)) ==
      Add(Sub(a, c), Sub(b, d)) + Sub(Sub(a, c), Sub(b, d))
  {
    SplitSums(Add(a, b), Sub(a, b), Add(c, d), Sub(c, d));
    Interchange(a, b, c, d);
  }

  /** Transforming twice multiplies by the length. */
  lemma {:induction false} TransformTwice(f: seq<int>, v: nat)
    requires |f| == Pow2(v)
    ensures Transform(Transform(f, v), v) == Scaled(Pow2(v), f)
    decreases v
  {
    hide *;
    if v == 0 {
      TransformOne(f, v);
      ScaledOne(f, v);
    } else {
      PowStep(v);
      var h := Pow2(v - 1);
      var a, b := Halves(f, v - 1);
      TransformTwice(a, v - 1);
      TransformTwice(b, v - 1);
      TransformJoin(a, b, v - 1);
      var s, t := Transform(a, v - 1), Transform(b, v - 1);
      TransformIsLinear(s, t, v - 1);
      TransformJoin(Add(s, t), Sub(s, t), v - 1);
      DoubledSums(h, a, b);
      ScaledConcat(2 * h, a, b);
    }
  }

  function Energy(f: seq<int>): int {
    if f == [] then 0 else Energy(f[..|f| - 1]) + f[|f| - 1] * f[|f| - 1]
  }

  lemma {:induction false} EnergyConcat(a: seq<int>, b: seq<int>)
    ensures Energy(a + b) == Energy(a) + Energy(b)
    decreases |b|
  {
    if b == [] {
      assert a + b == a;
    } else {
      var n := |b| - 1;
      EnergyConcat(a, b[..n]);
      var c := a + b;
      assert c[..|c| - 1] == a + b[..n] && c[|c| - 1] == b[n];
    }
  }

  lemma {:induction false} EnergyButterfly(a: seq<int>, b: seq<int>)
    requires |a| == |b|
    ensures Energy(Add(a, b)) + Energy(Sub(a, b)) == 2 * (Energy(a) + Energy(b))
  {
    if a == [] {
    } else {
      var n := |a| - 1;
      EnergyButterfly(a[..n], b[..n]);
      assert Add(a, b)[..n] == Add(a[..n], b[..n]) && Sub(a, b)[..n] == Sub(a[..n], b[..n]);
      Parallelogram(a[n], b[n]);
    }
  }

  lemma Parallelogram(x: int, y: int)
    ensures (x + y) * (x + y) + (x - y) * (x - y) == 2 * (x * x + y * y)
  {
  }

  function Product(n: int, x: int): int {
    n * x
  }

  lemma ProductSum(n: int, x: int, y: int)
    ensures 2 * (Product(n, x) + Product(n, y)) == Product(2 * n, x + y)
  {
  }

  /** The sum of squares grows by exactly the length. */
  lemma {:induction false} TransformEnergy(f: seq<int>, v: nat)
    requires |f| == Pow2(v)
    ensures Energy(Transform(f, v)) == Product(Pow2(v), Energy(f))
    decreases v
  {
    hide *;
    if v == 0 {
      TransformOne(f, v);
      EnergyOne(f, v);
    } else {
      PowStep(v);
      var a, b := Halves(f, v - 1);
      TransformEnergy(a, v - 1);
      TransformEnergy(b, v - 1);
      TransformJoin(a, b, v - 1);
      EnergyStep(a, b, Transform(a, v - 1), Transform(b, v - 1), Pow2(v - 1));
    }
  }

  lemma EnergyOne(f: seq<int>, v: nat)
    requires v == 0
    ensures Energy(f) == Product(Pow2(v), Energy(f))
  {
    hide Energy;
  }

  lemma EnergyStep(a: seq<int>, b: seq<int>, s: seq<int>, t: seq<int>, h: int)
    requires |s| == |t| && Energy(s) == Product(h, Energy(a)) && Energy(t) == Product(h, Energy(b))
    ensures Energy(Add(s, t) + Sub(s, t)) == Product(2 * h, Energy(a + b))
  {
    hide *;
    EnergyConcat(Add(s, t), Sub(s, t));
    EnergyButterfly(s, t);
    EnergyConcat(a, b);
    ProductSum(h, Energy(a), Energy(b));
  }

  // ----- the butterfly passes -----

  /** One pass: butterflies of span `length` on each block of 2 * `length` values in turn. */
  function Pass(f: seq<int>, length: nat): (g: seq<int>)
    requires length > 0
    ensures |g| == |f|
    decreases |f|
  {
    if |f| < 2 * length then f
    else Butterflies(f[..2 * length], length) + Pass(f[2 * length..], length)
  }

  /** The butterflies of one block. */
  function Butterflies(f: seq<int>, length: nat): (g: seq<int>)
    requires |f| == 2 * length
    ensures |g| == |f|
  {
    Add(f[..length], f[length..]) + Sub(f[..length], f[length..])
  }

  /** The values after the first `j` passes. */
  function Passes(f: seq<int>, j: nat): (g: seq<int>)
    ensures |g| == |f|
  {
    if j == 0 then f else Pass(Passes(f, j - 1), Pow2(j - 1))
  }

  /** `n` values are whole blocks of `d`. */
  predicate Blocks(n: nat, d: nat) {
    n == 0 || (0 < d <= n && Blocks(n - d, d))
  }

  lemma {:induction false} BlocksAdd(n: nat, m: nat, d: nat)
    requires Blocks(n, d) && Blocks(m, d)
    ensures Blocks(n + m, d)
  {
    if n == 0 {
    } else {
      BlocksAdd(n - d, m, d);
    }
  }

  lemma {:induction false} PowBlocks(v: nat, j: nat)
    requires j <= v
    ensures Blocks(Pow2(v), Pow2(j))
    decreases v
  {
    if v == j {
    } else {
      PowBlocks(v - 1, j);
      BlocksAdd(Pow2(v - 1), Pow2(v - 1), Pow2(j));
    }
  }

  lemma FirstBlock(block: seq<int>, rest: seq<int>, length: nat)
    requires |block| == 2 * length > 0
    ensures Pass(block + rest, length) == Butterflies(block, length) + Pass(rest, length)
  {
    var f := block + rest;
    assert f[..2 * length] == block && f[2 * length..] == rest;
    hide Butterflies;
  }

  /** A pass over whole blocks works on two parts separately. */
  lemma {:induction false} PassJoin(a: seq<int>, b: seq<int>, length: nat)
    requires length > 0 && Blocks(|a|, 2 * length)
    ensures Pass(a + b, length) == Pass(a, length) + Pass(b, length)
    decreases |a|
  {
    hide *;
    var d := 2 * length;
    if a == [] {
      PassNone(a, length);
      assert a + b == b;
    } else {
      BlocksStep(|a|, d);
      var block, rest := a[..d], a[d..];
      assert block + rest == a && block + (rest + b) == a + b;
      PassJoin(rest, b, length);
      FirstBlock(block, rest, length);
      FirstBlock(block, rest + b, length);
    }
  }

  lemma PassNone(f: seq<int>, length: nat)
    requires length > 0 && f == []
    ensures Pass(f, length) == f
  {
  }

  lemma BlocksStep(n: nat, d: nat)
    requires n > 0 && Blocks(n, d)
    ensures 0 < d <= n && Blocks(n - d, d)
  {
  }

  lemma {:induction false} PassesJoin(a: seq<int>, b: seq<int>, v: nat, j: nat)
    requires |a| == |b| == Pow2(v) && j <= v
    ensures Passes(a + b, j) == Passes(a, j) + Passes(b, j)
    decreases j
  {
    hide *;
    PassesStep(a, j);
    PassesStep(b, j);
    PassesStep(a + b, j);
    if j == 0 {
    } else {
      PowStep(j);
      PassesJoin(a, b, v, j - 1);
      PowBlocks(v, j);
      PassJoin(Passes(a, j - 1), Passes(b, j - 1), Pow2(j - 1));
    }
  }

  lemma LastPass(a: seq<int>, b: seq<int>)
    requires |a| == |b| > 0
    ensures Pass(a + b, |a|) == Add(a, b) + Sub(a, b)
  {
    var f := a + b;
    assert f[..2 * |a|] == f && f[2 * |a|..] == [];
    assert f[..|a|] == a && f[|a|..] == b;
  }

  lemma PassesStep(f: seq<int>, j: nat)
    ensures Passes(f, j) == if j == 0 then f else Pass(Passes(f, j - 1), Pow2(j - 1))
  {
  }

  /** The passes of doubling span compute the transform. */
  lemma {:induction false} PassesAreTransform(f: seq<int>, v: nat)
    requires |f| == Pow2(v)
    ensures Passes(f, v) == Transform(f, v)
    decreases v
  {
    hide *;
    PassesStep(f, v);
    if v == 0 {
      TransformOne(f, v);
    } else {
      var h := Pow2(v - 1);
      var a, b := Halves(f, v - 1);
      PassesAreTransform(a, v - 1);
      PassesAreTransform(b, v - 1);
      PassesJoin(a, b, v - 1, v - 1);
      TransformJoin(a, b, v - 1);
      var s, t := Transform(a, v - 1), Transform(b, v - 1);
      assert Passes(f, v) == Pass(s + t, h);
      LastPass(s, t);
    }
  }

  // ----- range -----

  predicate Within(f: seq<int>, bound: int) {
    forall i :: 0 <= i < |f| ==> -bound <= f[i] <= bound
  }

  /** `bound` doubled `j` times. */
  function Doubled(bound: nat, j: nat): nat {
    if j == 0 then bound else 2 * Doubled(bound, j - 1)
  }

  lemma {:induction false} DoubledIsProduct(bound: nat, j: nat)
    ensures Doubled(bound, j) == Pow2(j) * bound
  {
    if j == 0 {
    } else {
      DoubledIsProduct(bound, j - 1);
    }
  }

  lemma {:induction false} DoubledGrows(bound: nat, j: nat, v: nat)
    requires j <= v
    ensures Doubled(bound, j) <= Doubled(bound, v)
    decreases v
  {
    if j < v { DoubledGrows(bound, j, v - 1); }
  }

  /** No intermediate entry exceeds the span so far times the largest input. */
  lemma {:induction false} PassesWithin(f: seq<int>, bound: nat, j: nat)
    requires Within(f, bound)
    ensures Within(Passes(f, j), Doubled(bound, j))
  {
    if j == 0 {
    } else {
      PassesWithin(f, bound, j - 1);
      var g := Passes(f, j - 1);
      PassWithin(g, Pow2(j - 1), Doubled(bound, j - 1));
    }
  }

  lemma {:induction false} PassWithin(g: seq<int>, length: nat, bound: nat)
    requires length > 0 && Within(g, bound)
    ensures Within(Pass(g, length), 2 * bound)
    decreases |g|
  {
    if |g| < 2 * length {
    } else {
      PassWithin(g[2 * length..], length, bound);
      assert Within(Butterflies(g[..2 * length], length), 2 * bound);
    }
  }
}
