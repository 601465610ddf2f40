/** The independent M1 implementation: fields stored at offsets of a buffer of the final size. */
module IndependentMac {
  import opened Foundations
  import opened NonceCounter
  import opened Frames
  import opened Mac

  /** `s` with `t` written over it at `at`. */
  function Placed(s: seq<byte>, at: nat, t: seq<byte>): (r: seq<byte>)
    requires at + |t| <= |s|
    ensures |r| == |s|
  {
    s[..at] + t + s[at + |t|..]
  }

  /** Copies `s` into the buffer at offset `at`. */
  method CopyTo(buffer: array<byte>, at: nat, s: seq<byte>)
    requires at + |s| <= buffer.Length
    modifies buffer
    ensures buffer[..] == Placed(old(buffer[..]), at, s)
  {
    for i := 0 to |s|
      invariant forall j :: 0 <= j < buffer.Length && !(at <= j < at + i) ==> buffer[j] == old(buffer[j])
      invariant forall j :: at <= j < at + i ==> buffer[j] == s[j - at]
    {
      buffer[at + i] := s[i];
    }
    var done := Placed(old(buffer[..]), at, s);
    forall j | 0 <= j < buffer.Length ensures buffer[..][j] == done[j] {}
  }

  /** Stores the eight bytes of `value` at offset `at`. */
  method StoreU64(buffer: array<byte>, at: nat, value: u64)
    requires at + 8 <= buffer.Length
    modifies buffer
    ensures buffer[..] == Placed(old(buffer[..]), at, U64Bytes(value))
  {
    hide BigEndian, Power256, ByteOf;
    for i := 0 to 8
      invariant forall j :: 0 <= j < buffer.Length && !(at <= j < at + i) ==> buffer[j] == old(buffer[j])
      invariant forall j :: at <= j < at + i ==> buffer[j] == BigEndian(value, 8)[j - at]
    {
      var shift := (8 - 1 - i) * 8;
      BigEndianAt(value, 8, i);
      buffer[at + i] := ByteOf(value / Power256(shift / 8) % 256);
    }
    var done := Placed(old(buffer[..]), at, U64Bytes(value));
    forall j | 0 <= j < buffer.Length ensures buffer[..][j] == done[j] {}
  }

  const FIXED_PREFIX: seq<byte> :=
    [0x50, 0x56, 0x43, 0x2D, 0x4D, 0x41, 0x43, 0x2D, 0x30, 0x00, 0x01, 0xC1, 0x00, 0x00]
  const HEADER_BYTES := 30
  const TAG_OFFSET := 12
  const CONTEXT_LENGTH_OFFSET := 14
  const MESSAGE_LENGTH_OFFSET := 22

  /** The five writes, in the order they are made, leave the canonical frame. */
  lemma WritesMakeFrame(blank: seq<byte>, context: Span, message: Span, tag: TagSize)
    requires |blank| == HEADER_BYTES + |context| + |message|
    ensures
      var s1 := Placed(blank, 0, FIXED_PREFIX)[TAG_OFFSET := ByteOf(tag)];
      var s2 := Placed(s1, CONTEXT_LENGTH_OFFSET, U64Bytes(|context|));
      var s3 := Placed(s2, MESSAGE_LENGTH_OFFSET, U64Bytes(|message|));
      var s4 := Placed(s3, HEADER_BYTES, context);
      Placed(s4, HEADER_BYTES + |context|, message) == MacFrame(context, message, tag)
  {
    var s1 := Placed(blank, 0, FIXED_PREFIX)[TAG_OFFSET := ByteOf(tag)];
    assert s1[..14] == MacHeader(tag);
    hide MacHeader, U64Bytes, ByteOf;
    var s2 := Placed(s1, CONTEXT_LENGTH_OFFSET, U64Bytes(|context|));
    assert s2[..22] == s1[..14] + U64Bytes(|context|);
    var s3 := Placed(s2, MESSAGE_LENGTH_OFFSET, U64Bytes(|message|));
    assert s3[..30] == s2[..22] + U64Bytes(|message|);
    var s4 := Placed(s3, HEADER_BYTES, context);
    assert s4[..30 + |context|] == s3[..30] + context;
    assert s4[30 + |context| + |message|..] == [];
  }

  /** Writes a frame whose length is known to fit. */
  method WriteFrame(context: Span, message: Span, tag: TagSize) returns (frame: seq<byte>)
    ensures frame == MacFrame(context, message, tag)
  {
    hide Placed, U64Bytes, MacFrame, ByteOf;
    var framed := new byte[HEADER_BYTES + |context| + |message|](i => 0);
    WritesMakeFrame(framed[..], context, message, tag);
    CopyTo(framed, 0, FIXED_PREFIX);
    ghost var s := framed[..];
    framed[TAG_OFFSET] := ByteOf(tag);
    assert framed[..] == s[TAG_OFFSET := ByteOf(tag)];
    StoreU64(framed, CONTEXT_LENGTH_OFFSET, |context|);
    StoreU64(framed, MESSAGE_LENGTH_OFFSET, |message|);
    CopyTo(framed, HEADER_BYTES, context);
    CopyTo(framed, HEADER_BYTES + |context|, message);
    return framed[..];
  }

  method FrameMessage(context: Span, message: Span, tag: TagSize) returns (r: Result<seq<byte>, Error>)
    ensures r == Framed(context, message, tag)
  {
    if !IsSupportedTagSize(tag) { return Err(UnsupportedTagSize); }
    if |context| > SIZE_MAX - HEADER_BYTES { return Err(FrameTooLong); }
    var prefixAndContext := HEADER_BYTES + |context|;
    if |message| > SIZE_MAX - prefixAndContext { return Err(FrameTooLong); }
    hide MacFrame;
    var framed := WriteFrame(context, message, tag);
    return Ok(framed);
  }

  method ComputeTag(prf: Prf, key: Key256, context: Span, message: Span, tag: TagSize)
    returns (r: Result<seq<byte>, Error>, ghost calls: seq<Call>)
    ensures r == Tag(prf, key, context, message, tag)
    ensures calls == TagCalls(key, context, message, tag)
  {
    calls := [];
    var framed :- FrameMessage(context, message, tag);
    var full := prf(key, framed);
    calls := [Call(key, framed)];
    r := Ok(full[..tag]);
  }

  method VerifyTag(prf: Prf, key: Key256, context: Span, message: Span, supplied: Span)
    returns (r: Result<bool, Error>, ghost calls: seq<Call>)
    ensures !IsSupportedTagSize(|supplied|) ==> r == Ok(false)
    ensures IsSupportedTagSize(|supplied|) && !FrameFits(context, message) ==> r == Err(FrameTooLong)
    ensures IsSupportedTagSize(|supplied|) && FrameFits(context, message) ==>
              r == Ok(Tag(prf, key, context, message, |supplied|) == Ok(supplied))
    ensures calls == if IsSupportedTagSize(|supplied|) then TagCalls(key, context, message, |supplied|) else []
  {
    calls := [];
    if !IsSupportedTagSize(|supplied|) { return Ok(false), calls; }
    hide MacFrame;
    var framed :- FrameMessage(context, message, |supplied|);
    var expected := prf(key, framed);
    calls := [Call(key, framed)];
    var same := SameBytes(expected, supplied);
    r := Ok(same);
  }
}
