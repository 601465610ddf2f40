/** Candidate C1 with its default profile as the keyed function under A1 and M1, over any starting cube. */
module Candidate {
  import opened Foundations
  import opened CubeGeometry
  import opened Evaluation
  import opened Frames
  import opened Mac
  import opened Aead
  import Machine
  import A2 = ControllerA2
  import Injection
  import WorkingStates

  type Start = Machine.State<Injection.ControllerState>

  function Bootstrap(cells: Cells): Start {
    A2.InitialState(cells, A2.PUBLIC_BOOTSTRAP_SEED)
  }

  /** One evaluation with the default profile from the public bootstrap state. */
  function Evaluated(cells: Cells, key: Key256, message: Message)
    : Result<Squeezed<Injection.ControllerState>, Machine.Error>
  {
    Evaluate(A2.C1(), Bootstrap(cells), key, message, DEFAULT_PROFILE)
  }

  lemma CompletedFacts(start: Start, r: Result<Squeezed<Injection.ControllerState>, Machine.Error>, moves: nat, symbols: nat)
    requires Completed(start, r, moves, symbols)
    ensures r.Ok? && |r.value.output| == 32 && |r.value.run.trace| == moves
  {
  }

  lemma EvaluatedIs(cells: Cells, key: Key256, message: Message)
    ensures Evaluated(cells, key, message) == Evaluate(A2.C1(), Bootstrap(cells), key, message, DEFAULT_PROFILE)
  {
    hide Evaluate, A2.C1, Bootstrap;
  }

  lemma EvaluatedCompletes(cells: Cells, key: Key256, message: Message)
    ensures Evaluated(cells, key, message).Ok? && |Evaluated(cells, key, message).value.output| == 32
    ensures |Evaluated(cells, key, message).value.run.trace| == 704 + 16 * |message|
  {
    hide *;
    EvaluatedIs(cells, key, message);
    A2.CandidateC1(A2.C1(), Bootstrap(cells), key, message);
    CompletedFacts(Bootstrap(cells), Evaluated(cells, key, message), 704 + 16 * |message|, 2 * |message| + 72);
  }

  /** The 32 bytes of an evaluation; a span is never longer than a size_t can say. */
  function OutputOf(cells: Cells, key: Key256, x: seq<byte>): Block256 {
    hide *;
    if |x| < TWO_64 then
      EvaluatedCompletes(cells, key, x);
      Evaluated(cells, key, x).value.output
    else ZeroBytes(32)
  }

  /** The keyed function that A1 and M1 call. */
  function C1Function(cells: Cells): Prf {
    (key: Key256, x: seq<byte>) => OutputOf(cells, key, x)
  }

  lemma C1FunctionIs(cells: Cells, key: Key256, message: Message)
    ensures Evaluated(cells, key, message).Ok?
    ensures C1Function(cells)(key, message) == Evaluated(cells, key, message).value.output
  {
    hide Evaluated;
    EvaluatedCompletes(cells, key, message);
  }

  /** The object-level evaluation never fails and returns the bytes of that function. */
  method ResearchKeyedReturnOutput(cells: Cells, key: Key256, message: Message) returns (output: Block256)
    ensures output == C1Function(cells)(key, message)
  {
    hide *;
    C1FunctionIs(cells, key, message);
    EvaluatedIs(cells, key, message);
    EvaluatedCompletes(cells, key, message);
    var r := WorkingStates.KeyedReturnOutput(A2.C1(), Bootstrap(cells), key, message, DEFAULT_PROFILE);
    return r.value;
  }

  // ----- A1 over C1 -----

  /** With C1 itself: opening a sealed message returns its plaintext. */
  lemma C1OpensSealed(cells: Cells, keys: KeyPair, nonce: Nonce192, ad: Span, plaintext: Span, size: TagSize)
    ensures var s := Sealed(C1Function(cells), keys, nonce, ad, plaintext, size);
      s.Ok? ==> Opened(C1Function(cells), keys, nonce, ad, s.value.ciphertext, s.value.tag) == Ok(Some(plaintext))
  {
    hide *;
    OpenSealed(C1Function(cells), keys, nonce, ad, plaintext, size);
  }

  /** `tag` is the beginning of the bytes the machine returns for `input`. */
  ghost predicate BeginsOutput(cells: Cells, key: Key256, input: Message, tag: seq<byte>) {
    exists r :: Evaluated(cells, key, input) == Ok(r) && tag <= r.output
  }

  /** With C1 itself: open accepts exactly a tag that is the beginning of what the machine returns for the
      authenticated input. */
  lemma C1AcceptsExactly(cells: Cells, keys: KeyPair, nonce: Nonce192, ad: Span, ciphertext: Span, tag: Span)
    requires IsSupportedTagSize(|tag|) && !TooLong(ad, ciphertext)
    ensures Opened(C1Function(cells), keys, nonce, ad, ciphertext, tag) != Ok(None) <==>
            BeginsOutput(cells, keys.authentication, AuthenticatedInput(AuthenticatedFields(nonce, ad, ciphertext, |tag|)), tag)
  {
    hide MacFrame, AuthContext, Evaluated, OutputOf, C1Function, Masked;
    var input := AuthenticatedInput(AuthenticatedFields(nonce, ad, ciphertext, |tag|));
    C1FunctionIs(cells, keys.authentication, input);
    EvaluatedCompletes(cells, keys.authentication, input);
    OpenAcceptsExactly(C1Function(cells), keys, nonce, ad, ciphertext, tag);
    assert Evaluated(cells, keys.authentication, input) == Ok(Evaluated(cells, keys.authentication, input).value);
  }

  // ----- the work of a call -----

  /** The moves of one evaluation. */
  function MovesOf(cells: Cells, key: Key256, message: Message): nat {
    hide *;
    EvaluatedCompletes(cells, key, message);
    |Evaluated(cells, key, message).value.run.trace|
  }

  lemma MovesOfEvaluation(cells: Cells, key: Key256, message: Message)
    ensures MovesOf(cells, key, message) == 704 + 16 * |message|
  {
    hide Evaluated;
    EvaluatedCompletes(cells, key, message);
  }

  /** Every input of the calls is a span. */
  predicate SpanCalls(calls: seq<Call>) {
    forall i :: 0 <= i < |calls| ==> |calls[i].input| < TWO_64
  }

  /** The moves of a list of evaluations, read off their traces. */
  function Work(cells: Cells, calls: seq<Call>): nat
    requires SpanCalls(calls)
  {
    if calls == [] then 0
    else
      var last := |calls| - 1;
      Work(cells, calls[..last]) + MovesOf(cells, calls[last].key, calls[last].input)
  }

  lemma {:induction false} WorkAppend(cells: Cells, first: seq<Call>, second: seq<Call>)
    requires SpanCalls(first) && SpanCalls(second)
    ensures SpanCalls(first + second) && Work(cells, first + second) == Work(cells, first) + Work(cells, second)
    decreases |second|
  {
    hide MovesOf;
    var whole := first + second;
    if second == [] {
      assert whole == first;
    } else {
      var n := |second| - 1;
      WorkAppend(cells, first, second[..n]);
      assert whole[..|whole| - 1] == first + second[..n] && whole[|whole| - 1] == second[n];
    }
  }

  /** The evaluations of n stream blocks turn the cube exactly 1472 * n times. */
  lemma {:induction false} StreamWork(cells: Cells, key: Key256, nonce: Nonce192, tag: TagSize, n: nat)
    requires n <= MAX_BLOCKS
    ensures SpanCalls(StreamCalls(key, nonce, tag, n))
    ensures Work(cells, StreamCalls(key, nonce, tag, n)) == 1472 * n
  {
    hide MovesOf, StreamFrame;
    if n == 0 {
    } else {
      StreamWork(cells, key, nonce, tag, n - 1);
      assert StreamCalls(key, nonce, tag, n)[..n - 1] == StreamCalls(key, nonce, tag, n - 1);
      MovesOfEvaluation(cells, key, StreamFrame(nonce, n - 1, tag));
    }
  }

  lemma TagWork(cells: Cells, key: Key256, nonce: Nonce192, ad: Span, message: Span, tag: TagSize)
    requires IsSupportedTagSize(tag) && !TooLong(ad, message)
    ensures FitsContext(ad)
    ensures var calls := TagCalls(key, AuthContext(nonce, ad, tag), message, tag);
      SpanCalls(calls) && Work(cells, calls) == 1968 + 16 * (|ad| + |message|)
  {
    hide MovesOf, MacFrame, AuthContext;
    var context := AuthContext(nonce, ad, tag);
    var call := Call(key, MacFrame(context, message, tag));
    assert TagCalls(key, context, message, tag) == [call];
    MovesOfEvaluation(cells, key, call.input);
    OneCall(cells, call);
  }

  lemma OneCall(cells: Cells, call: Call)
    requires |call.input| < TWO_64
    ensures SpanCalls([call]) && Work(cells, [call]) == MovesOf(cells, call.key, call.input)
  {
    hide MovesOf;
    var calls := [call];
    var none := calls[..|calls| - 1];
    assert none == [] && Work(cells, none) == 0;
  }

  /** The evaluations a successful seal of n bytes with a bytes of associated data makes turn the cube exactly
      1472 * ceil(n / 32) + 1968 + 16 * (a + n) times, whatever the keys, the nonce and the contents. */
  lemma SealWork(prf: Prf, cells: Cells, keys: KeyPair, q: Query)
    requires Answer(prf, keys, q).Ok?
    ensures var calls := SealCalls(prf, keys, q.nonce, q.ad, q.plaintext, q.size);
      SpanCalls(calls)
      && Work(cells, calls) == 1472 * Blocks(|q.plaintext|) + 1968 + 16 * (|q.ad| + |q.plaintext|)
  {
    SealFailsExactly(prf, keys, q.nonce, q.ad, q.plaintext, q.size);
    hide Work, SpanCalls, StreamCalls, TagCalls, AuthContext, Masked, Blocks, Sealed;
    BlocksBound(|q.plaintext|);
    var ciphertext := Masked(prf, keys.encryption, q.nonce, q.plaintext, q.size);
    StreamWork(cells, keys.encryption, q.nonce, q.size, Blocks(|q.plaintext|));
    TagWork(cells, keys.authentication, q.nonce, q.ad, ciphertext, q.size);
    WorkAppend(cells, StreamCalls(keys.encryption, q.nonce, q.size, Blocks(|q.plaintext|)),
               TagCalls(keys.authentication, AuthContext(q.nonce, q.ad, q.size), ciphertext, q.size));
  }

  /** An open of the same lengths costs as much when it accepts, and only the tag when it rejects. */
  lemma OpenWork(prf: Prf, cells: Cells, keys: KeyPair, nonce: Nonce192, ad: Span, ciphertext: Span, tag: Span)
    requires IsSupportedTagSize(|tag|) && !TooLong(ad, ciphertext)
    ensures var calls := OpenCalls(prf, keys, nonce, ad, ciphertext, tag);
      SpanCalls(calls)
      && Work(cells, calls) == 1968 + 16 * (|ad| + |ciphertext|)
         + if Authentic(prf, keys, nonce, ad, ciphertext, tag) then 1472 * Blocks(|ciphertext|) else 0
  {
    hide Work, SpanCalls, StreamCalls, TagCalls, AuthContext, Blocks, Authentic;
    BlocksBound(|ciphertext|);
    TagWork(cells, keys.authentication, nonce, ad, ciphertext, |tag|);
    StreamWork(cells, keys.encryption, nonce, |tag|, Blocks(|ciphertext|));
    var tagCalls := TagCalls(keys.authentication, AuthContext(nonce, ad, |tag|), ciphertext, |tag|);
    WorkAppend(cells, tagCalls, StreamCalls(keys.encryption, nonce, |tag|, Blocks(|ciphertext|)));
    assert tagCalls + [] == tagCalls;
  }
}
