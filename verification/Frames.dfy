/** The byte strings given to C1: stream frames, authentication contexts, and M1 frames. */
module Frames {
  import opened Foundations
  import opened NonceCounter
  import NonceCodec

  type Nonce192 = NonceCodec.Nonce

  /** A byte string whose length is a size_t. */
  type Span = s: seq<byte> | |s| < TWO_64

  /** The underlying value of the tag-size enumeration; an unnamed enumerator can hold any byte. */
  type TagSize = n: nat | n < 256

  datatype Error = UnsupportedTagSize | ContextTooLong | FrameTooLong

  predicate IsSupportedTagSize(bytes: nat) {
    bytes == 16 || bytes == 24 || bytes == 32
  }

  // ----- 64-bit lengths and counters -----

  /** The `n` low-order bytes of `value`, most significant first. */
  function BigEndian(value: nat, n: nat): (s: seq<byte>)
    ensures |s| == n
    decreases n
  {
    if n == 0 then [] else BigEndian(value / 256, n - 1) + [ByteOf(value % 256)]
  }

  function U64Bytes(value: u64): (s: seq<byte>)
    ensures |s| == 8
  {
    BigEndian(value, 8)
  }

  lemma {:induction false} NumberOfBigEndian(value: nat, n: nat)
    requires value < Power256(n)
    ensures NumberOf(BigEndian(value, n)) == value
    decreases n
  {
    if n == 0 {
    } else {
      NumberOfBigEndian(value / 256, n - 1);
      var s := BigEndian(value, n);
      assert s[..n - 1] == BigEndian(value / 256, n - 1);
    }
  }

  lemma U64Power(n: nat)
    requires n == 8
    ensures Power256(n) == TWO_64
  {
    assert Power256(4) == 0x1_0000_0000;
    assert Power256(8) == TWO_64;
  }

  /** Reading back the eight bytes of a 64-bit number. */
  lemma ReadU64(value: u64)
    ensures NumberOf(U64Bytes(value)) == value
  {
    U64Power(8);
    NumberOfBigEndian(value, 8);
  }

  /** Every eight bytes are the encoding of the number they hold. */
  lemma WriteU64(s: seq<byte>)
    requires |s| == 8
    ensures NumberOf(s) < TWO_64 && U64Bytes(NumberOf(s)) == s
  {
    U64Power(8);
    NumberBound(s);
    NumberOfBigEndian(NumberOf(s), 8);
    NumberIsInjective(U64Bytes(NumberOf(s)), s);
  }

  // ----- the layouts -----

  const AEAD_MAGIC: seq<byte> := [0x50, 0x56, 0x43, 0x2D, 0x41, 0x45, 0x41, 0x44, 0x2D, 0x30]
  const MAC_MAGIC: seq<byte> := [0x50, 0x56, 0x43, 0x2D, 0x4D, 0x41, 0x43, 0x2D, 0x30]
  const SEPARATOR: byte := 0x00
  const FRAME_VERSION: byte := 0x01
  const PRIMITIVE_PROFILE_C1: byte := 0xC1
  const MAC_PROFILE_M1: byte := 0xD1
  const ROLE_STREAM: byte := 0x53
  const ROLE_AUTHENTICATION: byte := 0x41
  const RESERVED: byte := 0x00
  const AUTH_FIXED_SIZE := 49
  const MAC_HEADER_SIZE := 30

  function StreamHeader(tag: TagSize): (s: seq<byte>)
    ensures |s| == 16
  {
    AEAD_MAGIC + [SEPARATOR, FRAME_VERSION, ROLE_STREAM, PRIMITIVE_PROFILE_C1, ByteOf(tag), RESERVED]
  }

  function StreamFrame(nonce: Nonce192, counter: u64, tag: TagSize): (s: seq<byte>)
    ensures |s| == 48
  {
    StreamHeader(tag) + nonce + U64Bytes(counter)
  }

  function AuthHeader(tag: TagSize): (s: seq<byte>)
    ensures |s| == 17
  {
    AEAD_MAGIC + [SEPARATOR, FRAME_VERSION, ROLE_AUTHENTICATION, PRIMITIVE_PROFILE_C1, MAC_PROFILE_M1,
                  ByteOf(tag), RESERVED]
  }

  function AuthContext(nonce: Nonce192, ad: Span, tag: TagSize): (s: seq<byte>)
    ensures |s| == AUTH_FIXED_SIZE + |ad|
  {
    AuthHeader(tag) + nonce + U64Bytes(|ad|) + ad
  }

  function MacHeader(tag: TagSize): (s: seq<byte>)
    ensures |s| == 14
  {
    MAC_MAGIC + [SEPARATOR, FRAME_VERSION, PRIMITIVE_PROFILE_C1, ByteOf(tag), RESERVED]
  }

  function MacFrame(context: Span, message: Span, tag: TagSize): (s: seq<byte>)
    ensures |s| == MAC_HEADER_SIZE + |context| + |message|
  {
    MacHeader(tag) + U64Bytes(|context|) + U64Bytes(|message|) + context + message
  }

  // ----- parsers -----

  datatype StreamFields = StreamFields(nonce: Nonce192, counter: u64, tag: TagSize)
  datatype AuthFields = AuthFields(nonce: Nonce192, ad: Span, tag: TagSize)
  datatype MacFields = MacFields(context: Span, message: Span, tag: TagSize)

  function Number64(s: seq<byte>): (n: u64)
    requires |s| == 8
  {
    WriteU64(s);
    NumberOf(s)
  }

  lemma WriteNumber64(s: seq<byte>)
    requires |s| == 8
    ensures U64Bytes(Number64(s)) == s
  {
    WriteU64(s);
  }

  function ParseStream(frame: seq<byte>): Option<StreamFields> {
    if |frame| != 48 || frame[..16] != StreamHeader(Value(frame[14])) then None
    else Some(StreamFields(frame[16..40], Number64(frame[40..]), Value(frame[14])))
  }

  function ParseAuth(frame: seq<byte>): Option<AuthFields> {
    if |frame| < 49 || frame[..17] != AuthHeader(Value(frame[15])) || Number64(frame[41..49]) != |frame| - 49 then None
    else Some(AuthFields(frame[17..41], frame[49..], Value(frame[15])))
  }

  function ParseMac(frame: seq<byte>): Option<MacFields> {
    if |frame| < 30 || frame[..14] != MacHeader(Value(frame[12])) then None
    else
      var c, m := Number64(frame[14..22]), Number64(frame[22..30]);
      if 30 + c + m != |frame| then None
      else Some(MacFields(frame[30..30 + c], frame[30 + c..], Value(frame[12])))
  }

  /** A byte string cut at four places and put together again. */
  lemma Pieces(s: seq<byte>, a: nat, b: nat, c: nat, d: nat)
    requires a <= b <= c <= d <= |s|
    ensures s[..a] + s[a..b] + s[b..c] + s[c..d] + s[d..] == s
  {
  }

  /** The five pieces of a concatenation, cut out again. */
  lemma Cuts(a: seq<byte>, b: seq<byte>, c: seq<byte>, d: seq<byte>, e: seq<byte>)
    ensures (a + b + c + d + e)[..|a|] == a
    ensures (a + b + c + d + e)[|a|..|a| + |b|] == b
    ensures (a + b + c + d + e)[|a| + |b|..|a| + |b| + |c|] == c
    ensures (a + b + c + d + e)[|a| + |b| + |c|..|a| + |b| + |c| + |d|] == d
    ensures (a + b + c + d + e)[|a| + |b| + |c| + |d|..] == e
  {
  }

  /** The parser recovers every field of a stream frame, and accepts nothing else. */
  lemma StreamRoundTrip(fields: StreamFields)
    ensures ParseStream(StreamFrame(fields.nonce, fields.counter, fields.tag)) == Some(fields)
  {
    var frame := StreamFrame(fields.nonce, fields.counter, fields.tag);
    assert frame[..16] == StreamHeader(fields.tag) && frame[14] == ByteOf(fields.tag);
    assert frame[16..40] == fields.nonce && frame[40..] == U64Bytes(fields.counter);
    ReadU64(fields.counter);
  }

  lemma StreamParsesOnlyFrames(frame: seq<byte>)
    ensures ParseStream(frame).Some? ==>
              var f := ParseStream(frame).value; StreamFrame(f.nonce, f.counter, f.tag) == frame
  {
    hide StreamHeader, NumberOf, U64Bytes, Number64;
    if ParseStream(frame).Some? {
      WriteNumber64(frame[40..]);
      Pieces(frame, 16, 40, 48, 48);
      assert frame[40..48] == frame[40..];
    }
  }

  lemma AuthRoundTrip(fields: AuthFields)
    ensures ParseAuth(AuthContext(fields.nonce, fields.ad, fields.tag)) == Some(fields)
  {
    var frame := AuthContext(fields.nonce, fields.ad, fields.tag);
    assert frame[..17] == AuthHeader(fields.tag) && frame[15] == ByteOf(fields.tag);
    assert frame[17..41] == fields.nonce && frame[41..49] == U64Bytes(|fields.ad|) && frame[49..] == fields.ad;
    ReadU64(|fields.ad|);
  }

  lemma AuthParsesOnlyFrames(frame: seq<byte>)
    ensures ParseAuth(frame).Some? ==>
              var f := ParseAuth(frame).value; AuthContext(f.nonce, f.ad, f.tag) == frame
  {
    hide AuthHeader, NumberOf, U64Bytes, Number64;
    if ParseAuth(frame).Some? {
      WriteNumber64(frame[41..49]);
      Pieces(frame, 17, 41, 49, |frame|);
      assert frame[49..|frame|] == frame[49..];
    }
  }

  lemma MacTagByte(context: Span, message: Span, tag: TagSize)
    ensures MacFrame(context, message, tag)[12] == ByteOf(tag)
  {
    hide U64Bytes, ByteOf;
  }

  lemma MacRoundTrip(fields: MacFields)
    ensures ParseMac(MacFrame(fields.context, fields.message, fields.tag)) == Some(fields)
  {
    hide MacHeader, U64Bytes, NumberOf, ByteOf;
    var (c, m) := (|fields.context|, |fields.message|);
    Cuts(MacHeader(fields.tag), U64Bytes(c), U64Bytes(m), fields.context, fields.message);
    MacTagByte(fields.context, fields.message, fields.tag);
    ReadU64(c);
    ReadU64(m);
  }

  lemma MacParsesOnlyFrames(frame: seq<byte>)
    ensures ParseMac(frame).Some? ==>
              var f := ParseMac(frame).value; MacFrame(f.context, f.message, f.tag) == frame
  {
    hide MacHeader, NumberOf, U64Bytes, Number64;
    if ParseMac(frame).Some? {
      WriteNumber64(frame[14..22]);
      WriteNumber64(frame[22..30]);
      Pieces(frame, 14, 22, 30, 30 + Number64(frame[14..22]));
    }
  }

  // ----- unique decoding -----

  lemma StreamFrameIsInjective(a: StreamFields, b: StreamFields)
    requires StreamFrame(a.nonce, a.counter, a.tag) == StreamFrame(b.nonce, b.counter, b.tag)
    ensures a == b
  {
    StreamRoundTrip(a);
    StreamRoundTrip(b);
  }

  /** The nonce, associated data, ciphertext and tag size an authenticated input is built from. */
  datatype AuthenticatedFields = AuthenticatedFields(nonce: Nonce192, ad: Span, ciphertext: Span, tag: TagSize)

  predicate FitsContext(ad: Span) {
    AUTH_FIXED_SIZE + |ad| < TWO_64
  }

  function AuthenticatedInput(f: AuthenticatedFields): seq<byte>
    requires FitsContext(f.ad)
  {
    MacFrame(AuthContext(f.nonce, f.ad, f.tag), f.ciphertext, f.tag)
  }

  /** The M1 frame over an authentication context determines every field. */
  lemma AuthenticatedInputIsInjective(f: AuthenticatedFields, g: AuthenticatedFields)
    requires FitsContext(f.ad) && FitsContext(g.ad) && AuthenticatedInput(f) == AuthenticatedInput(g)
    ensures f == g
  {
    hide MacFrame, AuthContext, ParseMac, ParseAuth;
    MacRoundTrip(MacFields(AuthContext(f.nonce, f.ad, f.tag), f.ciphertext, f.tag));
    MacRoundTrip(MacFields(AuthContext(g.nonce, g.ad, g.tag), g.ciphertext, g.tag));
    AuthRoundTrip(AuthFields(f.nonce, f.ad, f.tag));
    AuthRoundTrip(AuthFields(g.nonce, g.ad, g.tag));
  }

  /** No keystream input is ever a MAC input, whatever the fields and tag sizes. */
  lemma StreamIsNeverMac(s: StreamFields, context: Span, message: Span, tag: TagSize)
    ensures StreamFrame(s.nonce, s.counter, s.tag) != MacFrame(context, message, tag)
  {
    assert StreamFrame(s.nonce, s.counter, s.tag)[4] == AEAD_MAGIC[4];
    assert MacFrame(context, message, tag)[4] == MAC_MAGIC[4];
  }

  /** The two AEAD frame families differ in their role byte. */
  lemma StreamIsNeverContext(s: StreamFields, a: AuthFields)
    ensures StreamFrame(s.nonce, s.counter, s.tag) != AuthContext(a.nonce, a.ad, a.tag)
  {
    assert StreamFrame(s.nonce, s.counter, s.tag)[12] == ROLE_STREAM;
    assert AuthContext(a.nonce, a.ad, a.tag)[12] == ROLE_AUTHENTICATION;
  }
}
