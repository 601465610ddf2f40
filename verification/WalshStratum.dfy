/** A stratum of Walsh trials: the frames of all masks, their outputs, and the alarms raised. */
module WalshStratum {
  import opened Foundations
  import opened Walsh
  import opened Nonlinearity
  import opened Frames
  import opened MaskEnumeration
  import opened WalshTrial
  import Mac
  import Aead

  /** The randomly drawn inputs of one trial. */
  datatype TrialInput = TrialInput(key: Mac.Key256, nonce: Nonce192, word: u64, controlOutputs: seq<Output>)

  predicate ValidVariables(variables: seq<Variable>) {
    AllVariables(variables) && AllDifferent(variables) && 2 <= |variables| <= 16
  }

  /** The point of mask zero. */
  function Base(t: TrialInput, variables: seq<Variable>): (p: Point)
    ensures p.counter <= MAXIMUM_PAYLOAD_COUNTER
  {
    Point(t.nonce, Cleared(t.word % (MAXIMUM_PAYLOAD_COUNTER + 1), variables, |variables|))
  }

  function PointAt(t: TrialInput, variables: seq<Variable>, mask: nat): (p: Point)
    requires AllVariables(variables)
    ensures p.counter <= MAXIMUM_PAYLOAD_COUNTER
  {
    CounterStaysPayload(Base(t, variables), variables, mask, |variables|);
    Applied(Base(t, variables), variables, mask, |variables|)
  }

  function FrameAt(t: TrialInput, variables: seq<Variable>, tag: TagSize, mask: nat): seq<byte>
    requires AllVariables(variables)
  {
    var p := PointAt(t, variables, mask);
    StreamFrame(p.nonce, p.counter, tag)
  }

  /** Every mask is a different point and a different C1 input. */
  lemma FramesAreDistinct(t: TrialInput, variables: seq<Variable>, tag: TagSize, a: nat, b: nat)
    requires ValidVariables(variables) && a < Pow2(|variables|) && b < Pow2(|variables|) && a != b
    ensures FrameAt(t, variables, tag, a) != FrameAt(t, variables, tag, b)
  {
    hide StreamFrame, FrameAt, PointAt, Pow2;
    var p, q := PointAt(t, variables, a), PointAt(t, variables, b);
    PointsAreDistinct(t, variables, a, b);
    FrameIs(t, variables, tag, a);
    FrameIs(t, variables, tag, b);
    if StreamFrame(p.nonce, p.counter, tag) == StreamFrame(q.nonce, q.counter, tag) {
      StreamFrameIsInjective(StreamFields(p.nonce, p.counter, tag), StreamFields(q.nonce, q.counter, tag));
    }
  }

  lemma PointsAreDistinct(t: TrialInput, variables: seq<Variable>, a: nat, b: nat)
    requires ValidVariables(variables) && a < Pow2(|variables|) && b < Pow2(|variables|) && a != b
    ensures PointAt(t, variables, a) != PointAt(t, variables, b)
  {
    hide Applied, AllDifferent, Pow2, Cleared;
    MasksReachDifferentPoints(Base(t, variables), variables, a, b);
  }

  lemma FrameIs(t: TrialInput, variables: seq<Variable>, tag: TagSize, mask: nat)
    requires ValidVariables(variables)
    ensures AllVariables(variables)
    ensures PointAt(t, variables, mask).counter < TWO_64
    ensures FrameAt(t, variables, tag, mask) ==
            StreamFrame(PointAt(t, variables, mask).nonce, PointAt(t, variables, mask).counter, tag)
  {
  }

  function OutputAt(prf: Mac.Prf, t: TrialInput, variables: seq<Variable>, tag: TagSize, mask: nat): Output
    requires AllVariables(variables)
  {
    prf(t.key, FrameAt(t, variables, tag, mask))
  }

  function OutputsOf(prf: Mac.Prf, t: TrialInput, variables: seq<Variable>, tag: TagSize): (outputs: seq<Output>)
    requires AllVariables(variables)
    ensures |outputs| == Pow2(|variables|)
  {
    seq(Pow2(|variables|), mask requires 0 <= mask < Pow2(|variables|) => OutputAt(prf, t, variables, tag, mask))
  }

  /** Evaluates every mask in order; each mask starts again from the base point. */
  method EvaluateMasks(prf: Mac.Prf, t: TrialInput, variables: seq<Variable>, tag: TagSize, count: nat)
    returns (outputs: seq<Output>)
    requires ValidVariables(variables) && IsSupportedTagSize(tag) && count == Pow2(|variables|)
    ensures outputs == OutputsOf(prf, t, variables, tag)
  {
    hide Applied, StreamFrame, Pow2;
    var baseCounter := ClearCounterVariables(t.word % (MAXIMUM_PAYLOAD_COUNTER + 1), variables);
    outputs := [];
    for mask := 0 to count
      invariant |outputs| == mask
      invariant forall m :: 0 <= m < mask ==> outputs[m] == prf(t.key, FrameAt(t, variables, tag, m))
    {
      var nonce := new byte[24](i requires 0 <= i < 24 => t.nonce[i]);
      assert nonce[..] == t.nonce;
      var counter := ApplyWalshMask(nonce, baseCounter, variables, mask);
      assert Point(nonce[..], counter) == PointAt(t, variables, mask);
      var frame := Aead.FrameStreamBlock(nonce[..], counter, tag);
      outputs := outputs + [prf(t.key, frame.value)];
    }
  }

  // ----- the alarms of a stratum -----

  /** No two masks have the same output, and no output bit is an affine function of the mask. */
  ghost predicate CleanTrial(prf: Mac.Prf, t: TrialInput, variables: seq<Variable>, tag: TagSize)
    requires AllVariables(variables)
  {
    var outputs := OutputsOf(prf, t, variables, tag);
    AllDistinct(outputs) && !SomeBitAffine(outputs, |variables|, OUTPUT_BITS)
  }

  /** Two masks of the trial give different frames and the same output. */
  predicate Collide(prf: Mac.Prf, t: TrialInput, variables: seq<Variable>, tag: TagSize, a: nat, b: nat)
    requires AllVariables(variables)
  {
    var x, y := FrameAt(t, variables, tag, a), FrameAt(t, variables, tag, b);
    x != y && prf(t.key, x) == prf(t.key, y)
  }

  /** A trial is unclean exactly when two masks give different C1 inputs with one output, or when an output
      bit is an affine function of the mask. */
  lemma AlarmMeaning(prf: Mac.Prf, t: TrialInput, variables: seq<Variable>, tag: TagSize)
    requires ValidVariables(variables)
    ensures !CleanTrial(prf, t, variables, tag) <==>
            || SomeBitAffine(OutputsOf(prf, t, variables, tag), |variables|, OUTPUT_BITS)
            || (exists a: nat, b: nat :: a < b < Pow2(|variables|) && Collide(prf, t, variables, tag, a, b))
  {
    hide FrameAt, SomeBitAffine, Pow2;
    var outputs := OutputsOf(prf, t, variables, tag);
    if !AllDistinct(outputs) {
      var a, b :| 0 <= a < b < |outputs| && outputs[a] == outputs[b];
      FramesAreDistinct(t, variables, tag, a, b);
      assert Collide(prf, t, variables, tag, a, b);
    }
    forall a: nat, b: nat | a < b < |outputs| && Collide(prf, t, variables, tag, a, b) ensures outputs[a] == outputs[b] {}
  }

  /** What one trial adds to the alarms: outputs seen before, and affine output bits. */
  ghost function TrialAlarms(prf: Mac.Prf, t: TrialInput, variables: seq<Variable>, tag: TagSize): int
    requires AllVariables(variables)
  {
    var outputs := OutputsOf(prf, t, variables, tag);
    |outputs| - |Members(outputs)| + AffineBits(outputs, |variables|, OUTPUT_BITS)
  }

  ghost function TotalAlarms(prf: Mac.Prf, trials: seq<TrialInput>, variables: seq<Variable>, tag: TagSize, n: nat): int
    requires AllVariables(variables) && n <= |trials|
  {
    if n == 0 then 0 else TotalAlarms(prf, trials, variables, tag, n - 1) + TrialAlarms(prf, trials[n - 1], variables, tag)
  }

  lemma TrialAlarmsMeaning(prf: Mac.Prf, t: TrialInput, variables: seq<Variable>, tag: TagSize)
    requires ValidVariables(variables)
    ensures TrialAlarms(prf, t, variables, tag) >= 0
    ensures TrialAlarms(prf, t, variables, tag) == 0 <==> CleanTrial(prf, t, variables, tag)
  {
    hide OutputsOf, Pow2, SomeBitAffine, AllDistinct, AffineBits, Members;
    var outputs := OutputsOf(prf, t, variables, tag);
    MembersSize(outputs);
    AffineCountMeaning(Summary(0, 0.0, 0.0, 0, 0, 0), outputs, |variables|, OUTPUT_BITS);
  }

  /** The alarms are zero exactly when every trial is clean. */
  lemma {:induction false} TotalAlarmsMeaning(prf: Mac.Prf, trials: seq<TrialInput>, variables: seq<Variable>, tag: TagSize, n: nat)
    requires ValidVariables(variables) && n <= |trials|
    ensures TotalAlarms(prf, trials, variables, tag, n) >= 0
    ensures TotalAlarms(prf, trials, variables, tag, n) == 0 <==>
            forall i :: 0 <= i < n ==> CleanTrial(prf, trials[i], variables, tag)
  {
    hide TrialAlarms, CleanTrial;
    if n == 0 {
    } else {
      TotalAlarmsMeaning(prf, trials, variables, tag, n - 1);
      TrialAlarmsMeaning(prf, trials[n - 1], variables, tag);
    }
  }

  /** The alarms of a stratum; none for an unknown family. */
  method RunStratum(prf: Mac.Prf, family: string, count: nat, tag: TagSize, trials: seq<TrialInput>)
    returns (alarms: Option<nat>)
    requires 2 <= count <= 16 && IsSupportedTagSize(tag)
    requires forall t :: t in trials ==> |t.controlOutputs| == Pow2(count)
    ensures alarms.Some? <==> Chosen(family, count).Some?
    ensures alarms.Some? ==> ValidVariables(Chosen(family, count).value)
    ensures alarms.Some? ==> alarms.value == TotalAlarms(prf, trials, Chosen(family, count).value, tag, |trials|)
    ensures alarms.Some? ==>
              (alarms.value == 0 <==>
              forall i :: 0 <= i < |trials| ==> CleanTrial(prf, trials[i], Chosen(family, count).value, tag))
  {
    var chosen := ChooseVariables(family, count);
    if chosen.None? { return None; }
    var variables := chosen.value;
    ChosenAreDifferent(family, count);
    assert ValidVariables(variables);
    hide *;
    TotalAlarmsMeaning(prf, trials, variables, tag, |trials|);
    var n := MeasureTrials(prf, variables, tag, trials);
    return Some(n);
  }

  method MeasureTrials(prf: Mac.Prf, variables: seq<Variable>, tag: TagSize, trials: seq<TrialInput>)
    returns (alarms: nat)
    requires ValidVariables(variables) && IsSupportedTagSize(tag)
    requires forall t :: t in trials ==> |t.controlOutputs| == Pow2(|variables|)
    ensures alarms == TotalAlarms(prf, trials, variables, tag, |trials|)
  {
    hide OutputsOf, Pow2, ObservedBits, AffineBits, Members, SomeBitAffine, AllDistinct, LargestPeak, TotalNonlinearity;
    var candidate := new WalshAggregate();
    var control := new WalshAggregate();
    var count := PointCount(|variables|);
    var collisions: nat := 0;
    for i := 0 to |trials|
      invariant candidate != control && fresh(candidate) && fresh(control)
      invariant collisions + candidate.affineOutputs == TotalAlarms(prf, trials, variables, tag, i)
    {
      var t := trials[i];
      var outputs := EvaluateMasks(prf, t, variables, tag, count);
      AffineCountMeaning(candidate.Totals(), outputs, |variables|, OUTPUT_BITS);
      var result := MeasureTrial(outputs, t.controlOutputs, candidate, control, |variables|);
      collisions := collisions + result.collisions;
    }
    alarms := collisions + candidate.affineOutputs;
  }

  /** 1 << v. */
  method PointCount(v: nat) returns (count: nat)
    ensures count == Pow2(v)
  {
    count := 1;
    for i := 0 to v
      invariant count == Pow2(i)
    {
      count := 2 * count;
    }
  }
}
