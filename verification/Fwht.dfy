/** The in-place butterfly loops of the transform, on arrays of C++ `int`. */
module Fwht {
  import opened Walsh

  const INT_MAX: int := 0x7FFF_FFFF

  lemma ButterfliesAt(f: seq<int>, g: seq<int>, length: nat)
    requires |f| == |g| == 2 * length
    requires forall i :: 0 <= i < length ==> g[i] == f[i] + f[i + length]
    requires forall i :: length <= i < 2 * length ==> g[i] == f[i - length] - f[i]
    ensures g == Butterflies(f, length)
  {
    var b := Butterflies(f, length);
    assert forall i :: 0 <= i < length ==> b[i] == f[..length][i] + f[length..][i];
    assert forall i :: length <= i < 2 * length ==> b[i] == f[..length][i - length] - f[length..][i - length];
  }

  lemma BlockDone(before: seq<int>, after: seq<int>, base: nat, length: nat)
    requires |before| == |after| && base + 2 * length <= |before|
    requires forall p :: base <= p < base + length ==> after[p] == before[p] + before[p + length]
    requires forall p :: base + length <= p < base + 2 * length ==> after[p] == before[p - length] - before[p]
    ensures after[base..base + 2 * length] == Butterflies(before[base..base + 2 * length], length)
  {
    ButterfliesAt(before[base..base + 2 * length], after[base..base + 2 * length], length);
  }

  /** Entry `p` after the first `offset` butterflies of the block at `base`. */
  function PartlyDone(f: seq<int>, base: nat, length: nat, offset: nat, p: nat): int
    requires base + 2 * length <= |f| && offset <= length && p < |f|
  {
    if base <= p < base + offset then f[p] + f[p + length]
    else if base + length <= p < base + length + offset then f[p - length] - f[p]
    else f[p]
  }

  /** The innermost loop: the butterflies of the block at `base`. */
  method TransformBlock(values: array<int32>, base: nat, length: nat, ghost bound: int)
    requires base + 2 * length <= values.Length && 2 * bound <= INT_MAX
    requires forall p :: base <= p < base + 2 * length ==> -bound <= values[p] <= bound
    modifies values
    ensures forall p :: 0 <= p < values.Length && !(base <= p < base + 2 * length) ==> values[p] == old(values[p])
    ensures values[base..base + 2 * length] == Butterflies(old(values[base..base + 2 * length]), length)
  {
    hide Butterflies;
    ghost var f: seq<int> := values[..];
    for offset := 0 to length
      invariant forall p: nat :: p < values.Length ==> values[p] == PartlyDone(f, base, length, offset, p)
    {
      var left := values[base + offset];
      var right := values[base + offset + length];
      values[base + offset] := left + right;
      values[base + offset + length] := left - right;
    }
    BlockDone(f, values[..], base, length);
    assert f[base..base + 2 * length] == old(values[base..base + 2 * length]);
    assert values[..][base..base + 2 * length] == values[base..base + 2 * length];
  }

  /** One more block done: what it leaves, and what the rest of the pass still has to do. */
  lemma NextBlock(f: seq<int>, done: seq<int>, base: nat, length: nat)
    requires length > 0 && base + 2 * length <= |f| && |done| == base
    ensures done + Pass(f[base..], length) ==
      (done + Butterflies(f[base..base + 2 * length], length)) + Pass(f[base + 2 * length..], length)
  {
    hide *;
    var block, rest := f[base..base + 2 * length], f[base + 2 * length..];
    assert block + rest == f[base..];
    FirstBlock(block, rest, length);
  }

  /** The middle loop: one pass over all blocks. */
  method TransformPass(values: array<int32>, length: nat, ghost bound: nat)
    requires length > 0 && Blocks(values.Length, 2 * length)
    requires Within(values[..], bound) && 2 * bound <= INT_MAX
    modifies values
    ensures values[..] == Pass(old(values[..]), length)
  {
    hide Pass, Butterflies;
    ghost var f: seq<int> := values[..];
    ghost var done: seq<int> := [];
    var base := 0;
    assert f[0..] == f;
    while base < values.Length
      invariant base <= values.Length && Blocks(values.Length - base, 2 * length)
      invariant forall p :: base <= p < values.Length ==> values[p] == f[p]
      invariant |done| == base && values[..base] == done
      invariant done + Pass(f[base..], length) == Pass(f, length)
    {
      var next := base + 2 * length;
      assert values[base..next] == f[base..next];
      TransformBlock(values, base, length, bound);
      NextBlock(f, done, base, length);
      assert values[..next] == values[..base] + values[base..next];
      done := done + Butterflies(f[base..next], length);
      base := next;
    }
    PassNone(f[base..], length);
    assert values[..base] == values[..];
  }

  lemma {:induction false} PowMonotone(j: nat, v: nat)
    requires j <= v
    ensures Pow2(j) <= Pow2(v)
    decreases v
  {
    if j < v { PowMonotone(j, v - 1); }
  }

  /** The whole transform; with entries of size at most `bound` no sum leaves the range of `int`. */
  method Fwht(values: array<int32>, ghost v: nat, ghost bound: nat)
    requires values.Length == Pow2(v) && Within(values[..], bound) && Pow2(v) * bound <= INT_MAX
    modifies values
    ensures values[..] == Transform(old(values[..]), v)
  {
    ghost var f: seq<int> := values[..];
    DoubledIsProduct(bound, v);
    var length := 1;
    ghost var j := 0;
    while length < values.Length
      invariant j <= v && length == Pow2(j)
      invariant values[..] == Passes(f, j)
      decreases v - j
    {
      PassesWithin(f, bound, j);
      DoubledGrows(bound, j + 1, v);
      PowBlocks(v, j + 1);
      TransformPass(values, length, Doubled(bound, j));
      length := 2 * length;
      j := j + 1;
    }
    if j < v {
      PowMonotone(j + 1, v);
      assert false;
    }
    PassesAreTransform(f, v);
  }
}
