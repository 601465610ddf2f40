/** The canonical M1 layer: appended frames, truncated tags, and tag verification. */
module Mac {
  import opened Foundations
  import opened NonceCounter
  import opened Frames

  type Key256 = s: seq<byte> | |s| == 32 witness ZeroBytes(32)

  type Block256 = s: seq<byte> | |s| == 32 witness ZeroBytes(32)

  /** The keyed C1 evaluation: any deterministic function of a key and a byte string. */
  type Prf = (Key256, seq<byte>) -> Block256

  /** One evaluation of the keyed function. */
  datatype Call = Call(key: Key256, input: seq<byte>)

  const SIZE_MAX: nat := TWO_64 - 1

  // ----- appending a 64-bit number -----

  lemma DivDiv(a: nat, c: nat)
    requires c > 0
    ensures (a / 256) / c == a / (256 * c)
  {
    var q := a / 256 / c;
    FloorIs(a / 256, c, q);
    assert (256 * c) * q == 256 * (q * c);
    FloorIs(a, 256 * c, q);
  }

  lemma {:induction false} BigEndianAt(value: nat, n: nat, i: nat)
    requires i < n
    ensures BigEndian(value, n)[i] == ByteOf(value / Power256(n - 1 - i) % 256)
    decreases n
  {
    if i == n - 1 {
      assert Power256(0) == 1;
    } else {
      BigEndianAt(value / 256, n - 1, i);
      DivDiv(value, Power256(n - 2 - i));
    }
  }

  method AppendU64(out: seq<byte>, value: u64) returns (r: seq<byte>)
    ensures r == out + U64Bytes(value)
  {
    hide BigEndian, Power256, ByteOf;
    r := out;
    var shift := 56;
    while true
      invariant shift % 8 == 0 && 0 <= shift <= 56
      invariant r == out + BigEndian(value, 8)[..7 - shift / 8]
      decreases shift
    {
      var i := 7 - shift / 8;
      BigEndianAt(value, 8, i);
      assert BigEndian(value, 8)[..i + 1] == BigEndian(value, 8)[..i] + [BigEndian(value, 8)[i]];
      r := r + [ByteOf(value / Power256(shift / 8) % 256)];
      if shift == 0 { break; }
      shift := shift - 8;
    }
    assert BigEndian(value, 8)[..8] == BigEndian(value, 8);
  }

  // ----- frames and tags -----

  /** The whole frame has a length that a size_t can hold. */
  predicate FrameFits(context: Span, message: Span) {
    MAC_HEADER_SIZE + |context| + |message| < TWO_64
  }

  function Framed(context: Span, message: Span, tag: TagSize): Result<seq<byte>, Error> {
    if !IsSupportedTagSize(tag) then Err(UnsupportedTagSize)
    else if !FrameFits(context, message) then Err(FrameTooLong)
    else Ok(MacFrame(context, message, tag))
  }

  method FrameMessage(context: Span, message: Span, tag: TagSize) returns (r: Result<seq<byte>, Error>)
    ensures r == Framed(context, message, tag)
  {
    if !IsSupportedTagSize(tag) { return Err(UnsupportedTagSize); }
    if |context| > SIZE_MAX - MAC_HEADER_SIZE || |message| > SIZE_MAX - MAC_HEADER_SIZE - |context| {
      return Err(FrameTooLong);
    }
    var framed := [];
    framed := framed + MAC_MAGIC;
    framed := framed + [SEPARATOR];
    framed := framed + [FRAME_VERSION];
    framed := framed + [PRIMITIVE_PROFILE_C1];
    framed := framed + [ByteOf(tag)];
    framed := framed + [RESERVED];
    assert framed == MacHeader(tag);
    hide MacHeader, U64Bytes;
    framed := AppendU64(framed, |context|);
    framed := AppendU64(framed, |message|);
    framed := framed + context;
    framed := framed + message;
    return Ok(framed);
  }

  function FullTag(prf: Prf, key: Key256, context: Span, message: Span, tag: TagSize): Result<Block256, Error> {
    var framed :- Framed(context, message, tag);
    Ok(prf(key, framed))
  }

  /** The leading bytes of C1 on the frame. */
  function Tag(prf: Prf, key: Key256, context: Span, message: Span, tag: TagSize): Result<seq<byte>, Error> {
    var full :- FullTag(prf, key, context, message, tag);
    Ok(full[..tag])
  }

  /** The evaluation a tag takes: one on the frame, or none when there is no frame. */
  function TagCalls(key: Key256, context: Span, message: Span, tag: TagSize): seq<Call> {
    match Framed(context, message, tag)
    case Err(_) => []
    case Ok(framed) => [Call(key, framed)]
  }

  method ComputeTag(prf: Prf, key: Key256, context: Span, message: Span, tag: TagSize)
    returns (r: Result<seq<byte>, Error>, ghost calls: seq<Call>)
    ensures r == Tag(prf, key, context, message, tag)
    ensures calls == TagCalls(key, context, message, tag)
  {
    calls := [];
    var framed :- FrameMessage(context, message, tag);
    var full := prf(key, framed);
    calls := [Call(key, framed)];
    r := Ok(full[..tag]);
  }

  /** The accumulated difference is zero exactly when all bytes so far agree. */
  lemma DifferenceStep(difference: byte, x: byte, y: byte)
    ensures difference | (x ^ y) == 0 <==> difference == 0 && x == y
  {
  }

  /** The comparison loop that looks at every supplied byte. */
  method SameBytes(expected: Block256, supplied: seq<byte>) returns (same: bool)
    requires |supplied| <= |expected|
    ensures same <==> supplied == expected[..|supplied|]
  {
    var difference: byte := 0;
    for i := 0 to |supplied|
      invariant difference == 0 <==> forall j :: 0 <= j < i ==> expected[j] == supplied[j]
    {
      DifferenceStep(difference, expected[i], supplied[i]);
      difference := difference | (expected[i] ^ supplied[i]);
    }
    return difference == 0;
  }

  method VerifyTag(prf: Prf, key: Key256, context: Span, message: Span, supplied: Span)
    returns (r: Result<bool, Error>, ghost calls: seq<Call>)
    ensures !IsSupportedTagSize(|supplied|) ==> r == Ok(false)
    ensures IsSupportedTagSize(|supplied|) && !FrameFits(context, message) ==> r == Err(FrameTooLong)
    ensures IsSupportedTagSize(|supplied|) && FrameFits(context, message) ==>
              r == Ok(Tag(prf, key, context, message, |supplied|) == Ok(supplied))
    ensures calls == if IsSupportedTagSize(|supplied|) then TagCalls(key, context, message, |supplied|) else []
  {
    calls := [];
    if !IsSupportedTagSize(|supplied|) { return Ok(false), calls; }
    hide MacFrame;
    var framed :- FrameMessage(context, message, |supplied|);
    var expected := prf(key, framed);
    calls := [Call(key, framed)];
    var same := SameBytes(expected, supplied);
    r := Ok(same);
  }
}
