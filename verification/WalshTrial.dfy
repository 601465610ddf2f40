/** The measurement loops of a Walsh trial: peaks, nonlinearity, affine bits, collisions. */
module WalshTrial {
  import opened Foundations
  import opened Walsh
  import opened Nonlinearity
  import Fwht

  const OUTPUT_BITS := 256

  /** The 32 bytes one evaluation returns. */
  type Output = s: seq<byte> | |s| == 32 witness ZeroBytes(32)

  predicate OutputBit(output: Output, bit: nat)
    requires bit < OUTPUT_BITS
  {
    (output[bit / 8] >> (bit % 8)) & 1 != 0
  }

  /** Output bit `bit` as a Boolean function of the mask. */
  function TruthTable(outputs: seq<Output>, bit: nat): (b: seq<bool>)
    requires bit < OUTPUT_BITS
    ensures |b| == |outputs|
  {
    seq(|outputs|, m requires 0 <= m < |outputs| => OutputBit(outputs[m], bit))
  }

  // ----- the peak of one spectrum -----

  function Max(x: int, y: int): int {
    if x < y then y else x
  }

  function Min(x: int, y: int): int {
    if y < x then y else x
  }

  function MaxAbs(t: seq<int>): nat {
    if t == [] then 0 else Max(MaxAbs(t[..|t| - 1]), Abs(t[|t| - 1]))
  }

  lemma {:induction false} MaxAbsIsPeak(t: seq<int>)
    ensures t != [] ==> IsPeak(t, MaxAbs(t))
    ensures forall i :: 0 <= i < |t| ==> Abs(t[i]) <= MaxAbs(t)
  {
    if t == [] {
    } else {
      var n := |t| - 1;
      var s := t[..n];
      MaxAbsIsPeak(s);
      assert t == s + [t[n]];
      if s != [] && MaxAbs(t) == MaxAbs(s) {
        var i :| 0 <= i < |s| && Abs(s[i]) == MaxAbs(s);
        assert Abs(t[i]) == MaxAbs(t);
      } else {
        assert Abs(t[n]) == MaxAbs(t);
      }
    }
  }

  function Peak(b: seq<bool>, v: nat): nat
    requires |b| == Pow2(v)
  {
    MaxAbs(Transform(Signs(b), v))
  }

  function NonlinearityOf(b: seq<bool>, v: nat): int
    requires |b| == Pow2(v)
  {
    |b| / 2 - Peak(b, v) / 2
  }

  /** What a peak and a nonlinearity mean, whatever the function. */
  lemma PeakMeaning(b: seq<bool>, v: nat)
    requires |b| == Pow2(v) && v > 0
    ensures IsNonlinearity(b, v, NonlinearityOf(b, v))
    ensures 0 <= NonlinearityOf(b, v) && Peak(b, v) <= |b| && Peak(b, v) % 2 == 0
    ensures Peak(b, v) == |b| <==> Affine(b, v)
    ensures |b| <= Peak(b, v) * Peak(b, v)
  {
    MaxAbsIsPeak(Transform(Signs(b), v));
    PeakGivesNonlinearity(b, v, Peak(b, v));
    PeakIsEven(b, v, Peak(b, v));
    PeakIsFullIffAffine(b, v, Peak(b, v));
    PeakIsLarge(b, v, Peak(b, v));
  }

  // ----- aggregates -----

  /** What the first `n` output bits add to an aggregate. */
  datatype Summary = Summary(
    observations: nat, correlationSum: real, nonlinearitySum: real, maximum: int, minimum: int, affine: nat)

  ghost function Observed(s: Summary, b: seq<bool>, v: nat): Summary
    requires |b| == Pow2(v)
  {
    Summary(s.observations + 1, s.correlationSum + Peak(b, v) as real, s.nonlinearitySum + NonlinearityOf(b, v) as real,
            Max(s.maximum, Peak(b, v)), Min(s.minimum, NonlinearityOf(b, v)),
            s.affine + if Affine(b, v) then 1 else 0)
  }

  ghost function ObservedBits(s: Summary, outputs: seq<Output>, v: nat, n: nat): Summary
    requires |outputs| == Pow2(v) && n <= OUTPUT_BITS
  {
    if n == 0 then s else Observed(ObservedBits(s, outputs, v, n - 1), TruthTable(outputs, n - 1), v)
  }

  /** The running totals of one stratum; the floating-point sums are reals. */
  class WalshAggregate {
    var observations: nat
    var maximumCorrelationSum: real
    var nonlinearitySum: real
    var globalMaximumCorrelation: int32
    var globalMinimumNonlinearity: u64
    var affineOutputs: nat

    ghost function Totals(): Summary
      reads this
    {
      Summary(observations, maximumCorrelationSum, nonlinearitySum,
              globalMaximumCorrelation, globalMinimumNonlinearity, affineOutputs)
    }

    constructor ()
      ensures Totals() == Summary(0, 0.0, 0.0, 0, TWO_64 - 1, 0)
    {
      observations := 0;
      maximumCorrelationSum := 0.0;
      nonlinearitySum := 0.0;
      globalMaximumCorrelation := 0;
      globalMinimumNonlinearity := TWO_64 - 1;
      affineOutputs := 0;
    }

    method Add(maximum: int32, nonlinearity: u64)
      modifies this`observations, this`maximumCorrelationSum, this`nonlinearitySum,
               this`globalMaximumCorrelation, this`globalMinimumNonlinearity
      ensures Totals() == Summary(old(observations) + 1, old(maximumCorrelationSum) + maximum as real,
                                  old(nonlinearitySum) + nonlinearity as real,
                                  Max(old(globalMaximumCorrelation), maximum),
                                  Min(old(globalMinimumNonlinearity), nonlinearity), old(affineOutputs))
    {
      observations := observations + 1;
      maximumCorrelationSum := maximumCorrelationSum + maximum as real;
      nonlinearitySum := nonlinearitySum + nonlinearity as real;
      globalMaximumCorrelation := Max(globalMaximumCorrelation, maximum);
      globalMinimumNonlinearity := Min(globalMinimumNonlinearity, nonlinearity);
    }
  }

  /** The number of points fits: at most 16 variables. */
  lemma CountFits(v: nat)
    requires v <= 16
    ensures Pow2(v) <= 0x1_0000
  {
    assert Pow2(4) == 0x10;
    assert Pow2(8) == 0x100;
    assert Pow2(12) == 0x1000;
    assert Pow2(16) == 0x1_0000;
    Fwht.PowMonotone(v, 16);
  }

  /** The largest magnitude, by a running maximum. */
  method LargestMagnitude(spectrum: array<int32>, ghost count: nat) returns (maximum: int32)
    requires count <= Fwht.INT_MAX && forall i :: 0 <= i < spectrum.Length ==> Abs(spectrum[i]) <= count
    ensures maximum == MaxAbs(spectrum[..])
  {
    maximum := 0;
    for i := 0 to spectrum.Length
      invariant maximum == MaxAbs(spectrum[..i])
    {
      assert spectrum[..i + 1][..i] == spectrum[..i];
      maximum := Max(maximum, Abs(spectrum[i]));
    }
    assert spectrum[..spectrum.Length] == spectrum[..];
  }

  /** Fills the spectrum with the signs of one output bit. */
  method FillSigns(outputs: seq<Output>, bit: nat, spectrum: array<int32>)
    requires bit < OUTPUT_BITS && |outputs| == spectrum.Length
    modifies spectrum
    ensures spectrum[..] == Signs(TruthTable(outputs, bit))
  {
    ghost var signs := Signs(TruthTable(outputs, bit));
    for mask := 0 to |outputs|
      invariant forall m :: 0 <= m < mask ==> spectrum[m] == signs[m]
    {
      spectrum[mask] := if OutputBit(outputs[mask], bit) then -1 else 1;
    }
    assert forall m :: 0 <= m < |outputs| ==> spectrum[..][m] == signs[m];
    assert spectrum[..] == signs;
  }

  lemma SignsWithin(b: seq<bool>)
    ensures Within(Signs(b), 1)
  {
  }

  /** One output bit: fill the spectrum, transform it, and add the observation. */
  method MeasureBit(outputs: seq<Output>, bit: nat, spectrum: array<int32>, aggregate: WalshAggregate, ghost v: nat)
    returns (maximum: int32, nonlinearity: u64)
    requires bit < OUTPUT_BITS && 0 < v <= 16 && |outputs| == spectrum.Length == Pow2(v)
    modifies spectrum, aggregate
    ensures maximum == Peak(TruthTable(outputs, bit), v) && nonlinearity == NonlinearityOf(TruthTable(outputs, bit), v)
    ensures aggregate.Totals() == Observed(old(aggregate.Totals()), TruthTable(outputs, bit), v)
  {
    hide Transform, Pow2, Signs, Within, TruthTable, Affine, IsNonlinearity, MaxAbs;
    CountFits(v);
    var count := |outputs|;
    ghost var table := TruthTable(outputs, bit);
    FillSigns(outputs, bit, spectrum);
    SignsWithin(table);
    Fwht.Fwht(spectrum, v, 1);
    PeakMeaning(table, v);
    MaxAbsIsPeak(spectrum[..]);
    assert forall i :: 0 <= i < count ==> spectrum[i] == spectrum[..][i];
    maximum := LargestMagnitude(spectrum, count);
    nonlinearity := count / 2 - maximum / 2;
    aggregate.Add(maximum, nonlinearity);
    if maximum == count { aggregate.affineOutputs := aggregate.affineOutputs + 1; }
  }

  // ----- collisions -----

  ghost predicate AllDistinct(outputs: seq<Output>) {
    forall i, j :: 0 <= i < j < |outputs| ==> outputs[i] != outputs[j]
  }

  ghost function Members(outputs: seq<Output>): set<Output> {
    set o | o in outputs
  }

  lemma {:induction false} MembersSize(outputs: seq<Output>)
    ensures |Members(outputs)| <= |outputs|
    ensures |Members(outputs)| == |outputs| <==> AllDistinct(outputs)
  {
    if outputs == [] {
    } else {
      var n := |outputs| - 1;
      var rest := outputs[..n];
      MembersSize(rest);
      assert outputs == rest + [outputs[n]];
      assert Members(outputs) == Members(rest) + {outputs[n]};
      if outputs[n] in rest {
        var i :| 0 <= i < n && rest[i] == outputs[n];
        assert Members(outputs) == Members(rest);
        assert outputs[i] == outputs[n];
      } else {
        assert forall i :: 0 <= i < n ==> outputs[i] == rest[i];
      }
    }
  }

  /** Outputs already seen, counted by inserting into a set. */
  method CountCollisions(outputs: seq<Output>) returns (collisions: nat)
    ensures collisions == |outputs| - |Members(outputs)|
    ensures collisions == 0 <==> AllDistinct(outputs)
  {
    collisions := 0;
    var distinct: set<Output> := {};
    for i := 0 to |outputs|
      invariant distinct == Members(outputs[..i])
      invariant collisions + |distinct| == i
    {
      assert outputs[..i + 1] == outputs[..i] + [outputs[i]];
      assert Members(outputs[..i + 1]) == distinct + {outputs[i]};
      if outputs[i] in distinct {
        collisions := collisions + 1;
        assert distinct + {outputs[i]} == distinct;
      }
      distinct := distinct + {outputs[i]};
    }
    assert outputs[..|outputs|] == outputs;
    MembersSize(outputs);
  }

  // ----- one trial -----

  datatype TrialResult = TrialResult(
    candidateMaximum: int32, candidateMean: real, controlMaximum: int32, controlMean: real, collisions: nat)

  ghost function LargestPeak(outputs: seq<Output>, v: nat, n: nat): int
    requires |outputs| == Pow2(v) && n <= OUTPUT_BITS
  {
    if n == 0 then 0 else Max(LargestPeak(outputs, v, n - 1), Peak(TruthTable(outputs, n - 1), v))
  }

  ghost function TotalNonlinearity(outputs: seq<Output>, v: nat, n: nat): int
    requires |outputs| == Pow2(v) && n <= OUTPUT_BITS
  {
    if n == 0 then 0 else TotalNonlinearity(outputs, v, n - 1) + NonlinearityOf(TruthTable(outputs, n - 1), v)
  }

  /** The largest peak bounds the peak of every bit and is one of them. */
  lemma {:induction false} LargestPeakMeaning(outputs: seq<Output>, v: nat, n: nat)
    requires |outputs| == Pow2(v) && n <= OUTPUT_BITS
    ensures forall i :: 0 <= i < n ==> Peak(TruthTable(outputs, i), v) <= LargestPeak(outputs, v, n)
    ensures n > 0 ==> exists i :: 0 <= i < n && Peak(TruthTable(outputs, i), v) == LargestPeak(outputs, v, n)
  {
    hide Peak, TruthTable, Pow2;
    if n > 0 {
      LargestPeakMeaning(outputs, v, n - 1);
      assert Peak(TruthTable(outputs, n - 1), v) <= LargestPeak(outputs, v, n);
      if n == 1 {
        assert LargestPeak(outputs, v, 1) == Peak(TruthTable(outputs, 0), v) by { assert LargestPeak(outputs, v, 0) == 0; }
      }
    }
  }

  /** The nonlinearities of the bits sum up between `n` times a lower and `n` times an upper bound of them. */
  lemma {:induction false} TotalNonlinearityMeaning(outputs: seq<Output>, v: nat, n: nat, lo: int, hi: int)
    requires |outputs| == Pow2(v) && n <= OUTPUT_BITS
    requires forall i :: 0 <= i < n ==> lo <= NonlinearityOf(TruthTable(outputs, i), v) <= hi
    ensures n * lo <= TotalNonlinearity(outputs, v, n) <= n * hi
  {
    hide NonlinearityOf, TruthTable, Pow2;
    if n > 0 {
      TotalNonlinearityMeaning(outputs, v, n - 1, lo, hi);
      assert n * lo == (n - 1) * lo + lo && n * hi == (n - 1) * hi + hi;
    }
  }

  method MeasureTrial(candidateOutputs: seq<Output>, controlOutputs: seq<Output>,
                      candidate: WalshAggregate, control: WalshAggregate, ghost v: nat)
    returns (result: TrialResult)
    requires 0 < v <= 16 && |candidateOutputs| == |controlOutputs| == Pow2(v) && candidate != control
    modifies candidate, control
    ensures candidate.Totals() == ObservedBits(old(candidate.Totals()), candidateOutputs, v, OUTPUT_BITS)
    ensures control.Totals() == ObservedBits(old(control.Totals()), controlOutputs, v, OUTPUT_BITS)
    ensures result.candidateMaximum == LargestPeak(candidateOutputs, v, OUTPUT_BITS)
    ensures result.controlMaximum == LargestPeak(controlOutputs, v, OUTPUT_BITS)
    ensures result.candidateMean == TotalNonlinearity(candidateOutputs, v, OUTPUT_BITS) as real / OUTPUT_BITS as real
    ensures result.controlMean == TotalNonlinearity(controlOutputs, v, OUTPUT_BITS) as real / OUTPUT_BITS as real
    ensures result.collisions == |candidateOutputs| - |Members(candidateOutputs)|
    ensures result.collisions == 0 <==> AllDistinct(candidateOutputs)
  {
    hide Pow2, TruthTable, Peak, NonlinearityOf, Observed;
    var count := |candidateOutputs|;
    var collisions := CountCollisions(candidateOutputs);
    var spectrum := new int32[count];
    var candidateMaximum: int32, controlMaximum: int32 := 0, 0;
    var candidateMean, controlMean := 0.0, 0.0;
    for bit := 0 to OUTPUT_BITS
      invariant candidate.Totals() == ObservedBits(old(candidate.Totals()), candidateOutputs, v, bit)
      invariant control.Totals() == ObservedBits(old(control.Totals()), controlOutputs, v, bit)
      invariant candidateMaximum == LargestPeak(candidateOutputs, v, bit)
      invariant controlMaximum == LargestPeak(controlOutputs, v, bit)
      invariant candidateMean == TotalNonlinearity(candidateOutputs, v, bit) as real
      invariant controlMean == TotalNonlinearity(controlOutputs, v, bit) as real
    {
      var maximum, nonlinearity := MeasureBit(candidateOutputs, bit, spectrum, candidate, v);
      candidateMaximum := Max(candidateMaximum, maximum);
      candidateMean := candidateMean + nonlinearity as real;
      maximum, nonlinearity := MeasureBit(controlOutputs, bit, spectrum, control, v);
      controlMaximum := Max(controlMaximum, maximum);
      controlMean := controlMean + nonlinearity as real;
    }
    candidateMean := candidateMean / OUTPUT_BITS as real;
    controlMean := controlMean / OUTPUT_BITS as real;
    result := TrialResult(candidateMaximum, candidateMean, controlMaximum, controlMean, collisions);
  }

  // ----- what the totals mean -----

  ghost predicate SomeBitAffine(outputs: seq<Output>, v: nat, n: nat)
    requires n <= OUTPUT_BITS
  {
    exists bit: nat :: bit < n && Affine(TruthTable(outputs, bit), v)
  }

  /** How many of the first `n` output bits are affine functions of the mask. */
  ghost function AffineBits(outputs: seq<Output>, v: nat, n: nat): nat
    requires n <= OUTPUT_BITS
  {
    if n == 0 then 0 else AffineBits(outputs, v, n - 1) + if Affine(TruthTable(outputs, n - 1), v) then 1 else 0
  }

  /** The affine count grows by the number of affine output bits, the observations by one for each bit. */
  lemma {:induction false} AffineCountMeaning(s: Summary, outputs: seq<Output>, v: nat, n: nat)
    requires |outputs| == Pow2(v) && n <= OUTPUT_BITS
    ensures ObservedBits(s, outputs, v, n).affine == s.affine + AffineBits(outputs, v, n)
    ensures ObservedBits(s, outputs, v, n).observations == s.observations + n
    ensures AffineBits(outputs, v, n) == 0 <==> !SomeBitAffine(outputs, v, n)
  {
    hide Affine, TruthTable, Peak, NonlinearityOf;
    if n == 0 {
    } else {
      AffineCountMeaning(s, outputs, v, n - 1);
      assert SomeBitAffine(outputs, v, n) <==>
          SomeBitAffine(outputs, v, n - 1) || Affine(TruthTable(outputs, n - 1), v);
    }
  }

  /** No output bit is nearer to an affine function than the recorded minimum, and the minimum is reached. */
  lemma {:induction false} MinimumMeaning(s: Summary, outputs: seq<Output>, v: nat, n: nat)
    requires |outputs| == Pow2(v) && v > 0 && n <= OUTPUT_BITS
    ensures forall bit: nat, g :: bit < n && Affine(g, v) ==>
              ObservedBits(s, outputs, v, n).minimum <= Differences(TruthTable(outputs, bit), g)
    ensures ObservedBits(s, outputs, v, n).minimum < s.minimum ==>
              exists bit: nat, g :: bit < n && Affine(g, v)
                && Differences(TruthTable(outputs, bit), g) == ObservedBits(s, outputs, v, n).minimum
  {
    hide Affine, TruthTable, Peak, NonlinearityOf, Differences;
    if n == 0 {
    } else {
      MinimumMeaning(s, outputs, v, n - 1);
      PeakMeaning(TruthTable(outputs, n - 1), v);
    }
  }
}
