/**
 * The independent A1 implementation.  Its block count (n + 31) / 32 is an expression of type size_t, so
 * the sum would wrap for the last 31 lengths.  Sealing and opening agree with the canonical
 * implementation on every input.
 */
module IndependentAead {
  import opened Foundations
  import opened Frames
  import opened Mac
  import opened Aead
  import opened IndependentMac

  const STREAM_PREFIX: seq<byte> :=
    [0x50, 0x56, 0x43, 0x2D, 0x41, 0x45, 0x41, 0x44, 0x2D, 0x30, 0x00, 0x01, 0x53, 0xC1, 0x00, 0x00]
  const AUTH_PREFIX: seq<byte> :=
    [0x50, 0x56, 0x43, 0x2D, 0x41, 0x45, 0x41, 0x44, 0x2D, 0x30, 0x00, 0x01, 0x41, 0xC1, 0xD1, 0x00, 0x00]
  const STREAM_FRAME_BYTES := 48
  const STREAM_TAG_OFFSET := 14
  const STREAM_NONCE_OFFSET := 16
  const STREAM_COUNTER_OFFSET := 40
  const AUTH_FIXED_BYTES := 49
  const AUTH_TAG_OFFSET := 15
  const AUTH_NONCE_OFFSET := 17
  const AUTH_LENGTH_OFFSET := 41
  const BLOCK_BYTES := 32

  // ----- frames by offset -----

  lemma WritesMakeStreamFrame(blank: seq<byte>, nonce: Nonce192, counter: u64, tag: TagSize)
    requires |blank| == STREAM_FRAME_BYTES
    ensures
      var s1 := Placed(blank, 0, STREAM_PREFIX)[STREAM_TAG_OFFSET := ByteOf(tag)];
      var s2 := Placed(s1, STREAM_NONCE_OFFSET, nonce);
      Placed(s2, STREAM_COUNTER_OFFSET, U64Bytes(counter)) == StreamFrame(nonce, counter, tag)
  {
    var s1 := Placed(blank, 0, STREAM_PREFIX)[STREAM_TAG_OFFSET := ByteOf(tag)];
    assert s1[..16] == StreamHeader(tag);
    hide StreamHeader, U64Bytes, ByteOf;
    var s2 := Placed(s1, STREAM_NONCE_OFFSET, nonce);
    assert s2[..40] == s1[..16] + nonce;
    assert s2[48..] == [];
  }

  method FrameStreamBlock(nonce: Nonce192, counter: u64, tag: TagSize) returns (r: Result<seq<byte>, Error>)
    ensures r == if IsSupportedTagSize(tag) then Ok(StreamFrame(nonce, counter, tag)) else Err(UnsupportedTagSize)
  {
    if !IsSupportedTagSize(tag) { return Err(UnsupportedTagSize); }
    hide Placed, U64Bytes, StreamFrame, ByteOf;
    var frame := new byte[STREAM_FRAME_BYTES](i => 0);
    WritesMakeStreamFrame(frame[..], nonce, counter, tag);
    CopyTo(frame, 0, STREAM_PREFIX);
    ghost var s := frame[..];
    frame[STREAM_TAG_OFFSET] := ByteOf(tag);
    assert frame[..] == s[STREAM_TAG_OFFSET := ByteOf(tag)];
    CopyTo(frame, STREAM_NONCE_OFFSET, nonce);
    StoreU64(frame, STREAM_COUNTER_OFFSET, counter);
    return Ok(frame[..]);
  }

  lemma WritesMakeContext(blank: seq<byte>, nonce: Nonce192, ad: Span, tag: TagSize)
    requires |blank| == AUTH_FIXED_BYTES + |ad|
    ensures
      var s1 := Placed(blank, 0, AUTH_PREFIX)[AUTH_TAG_OFFSET := ByteOf(tag)];
      var s2 := Placed(s1, AUTH_NONCE_OFFSET, nonce);
      var s3 := Placed(s2, AUTH_LENGTH_OFFSET, U64Bytes(|ad|));
      Placed(s3, AUTH_FIXED_BYTES, ad) == AuthContext(nonce, ad, tag)
  {
    var s1 := Placed(blank, 0, AUTH_PREFIX)[AUTH_TAG_OFFSET := ByteOf(tag)];
    assert s1[..17] == AuthHeader(tag);
    hide AuthHeader, U64Bytes, ByteOf;
    var s2 := Placed(s1, AUTH_NONCE_OFFSET, nonce);
    assert s2[..41] == s1[..17] + nonce;
    var s3 := Placed(s2, AUTH_LENGTH_OFFSET, U64Bytes(|ad|));
    assert s3[..49] == s2[..41] + U64Bytes(|ad|);
    assert s3[49 + |ad|..] == [];
  }

  method FrameAuthenticationContext(nonce: Nonce192, ad: Span, tag: TagSize) returns (r: Result<Span, Error>)
    ensures r == Context(nonce, ad, tag)
  {
    if !IsSupportedTagSize(tag) { return Err(UnsupportedTagSize); }
    if |ad| > SIZE_MAX - AUTH_FIXED_BYTES { return Err(ContextTooLong); }
    hide Placed, U64Bytes, AuthContext, ByteOf;
    var frame := new byte[AUTH_FIXED_BYTES + |ad|](i => 0);
    WritesMakeContext(frame[..], nonce, ad, tag);
    CopyTo(frame, 0, AUTH_PREFIX);
    ghost var s := frame[..];
    frame[AUTH_TAG_OFFSET] := ByteOf(tag);
    assert frame[..] == s[AUTH_TAG_OFFSET := ByteOf(tag)];
    CopyTo(frame, AUTH_NONCE_OFFSET, nonce);
    StoreU64(frame, AUTH_LENGTH_OFFSET, |ad|);
    CopyTo(frame, AUTH_FIXED_BYTES, ad);
    return Ok(frame[..]);
  }

  // ----- the keystream -----

  /** The block count, with the sum wrapping at 2^64. */
  function IndependentBlocks(n: u64): nat {
    if n == 0 then 0 else (n + (BLOCK_BYTES - 1)) % TWO_64 / BLOCK_BYTES
  }

  /** The two block counts agree exactly while the length plus 31 fits a size_t. */
  lemma BlockCountsAgreeExactly(n: u64)
    ensures IndependentBlocks(n) == Blocks(n) <==> n + 31 < TWO_64
    ensures n + 31 >= TWO_64 ==> IndependentBlocks(n) == 0
  {
    if n + 31 < TWO_64 {
      assert (n + 31) % TWO_64 == n + 31;
    } else {
      assert (n + 31) % TWO_64 == n + 31 - TWO_64;
    }
  }

  /** What the loop leaves: bytes past the last block stay zero. */
  function IndependentMasked(prf: Prf, key: Key256, nonce: Nonce192, input: Span, tag: TagSize): (r: Span)
    ensures |r| == |input|
  {
    seq(|input|, i requires 0 <= i < |input| =>
      if i < 32 * IndependentBlocks(|input|) then input[i] ^ StreamByte(prf, key, nonce, tag, i) else 0)
  }

  method XorKeystream(prf: Prf, key: Key256, nonce: Nonce192, input: Span, tag: TagSize)
    returns (r: Result<Span, Error>, ghost calls: seq<Call>)
    ensures r == if IsSupportedTagSize(tag) || IndependentBlocks(|input|) == 0
                 then Ok(IndependentMasked(prf, key, nonce, input, tag))
                 else Err(UnsupportedTagSize)
    ensures IndependentBlocks(|input|) <= MAX_BLOCKS
    ensures calls == if IsSupportedTagSize(tag) then StreamCalls(key, nonce, tag, IndependentBlocks(|input|)) else []
  {
    hide StreamFrame;
    var output := new byte[|input|](i => 0);
    var blocks := if |input| == 0 then 0 else (|input| + (BLOCK_BYTES - 1)) % TWO_64 / BLOCK_BYTES;
    BlockCountsAgreeExactly(|input|);
    BlocksBound(|input|);
    calls := [];
    for block := 0 to blocks
      invariant block > 0 ==> IsSupportedTagSize(tag)
      invariant calls == StreamCalls(key, nonce, tag, block)
      invariant forall j :: 0 <= j < 32 * block && j < |input| ==>
                  output[j] == input[j] ^ StreamByte(prf, key, nonce, tag, j)
      invariant forall j :: 32 * block <= j < |input| ==> output[j] == 0
    {
      var frame :- FrameStreamBlock(nonce, block, tag);
      var stream := prf(key, frame);
      calls := calls + [Call(key, frame)];
      var offset := block * BLOCK_BYTES;
      var take := if BLOCK_BYTES < |input| - offset then BLOCK_BYTES else |input| - offset;
      MaskBlock(output, input, offset, take, stream);
      forall j | offset <= j < offset + take ensures output[j] == input[j] ^ StreamByte(prf, key, nonce, tag, j) {
        BlockPosition(j, block);
      }
    }
    assert output[..] == IndependentMasked(prf, key, nonce, input, tag);
    r := Ok(output[..]);
  }

  lemma KeystreamsAgree(prf: Prf, key: Key256, nonce: Nonce192, input: Span, tag: TagSize)
    requires |input| + 31 < TWO_64
    ensures IndependentMasked(prf, key, nonce, input, tag) == Masked(prf, key, nonce, input, tag)
  {
    BlockCountsAgreeExactly(|input|);
    BlocksBound(|input|);
  }

  /** Past the wrap, a C1 whose first stream byte differs from the first input byte tells the routines apart. */
  lemma KeystreamsDiffer(key: Key256, nonce: Nonce192, input: Span, tag: TagSize) returns (prf: Prf)
    requires |input| + 31 >= TWO_64
    ensures IndependentMasked(prf, key, nonce, input, tag) != Masked(prf, key, nonce, input, tag)
  {
    BlockCountsAgreeExactly(|input|);
    var first := input[0] ^ 1;
    var block: Block256 := [first] + ZeroBytes(31);
    prf := (k: Key256, x: seq<byte>) => block;
    assert IndependentMasked(prf, key, nonce, input, tag)[0] == 0;
    assert StreamByte(prf, key, nonce, tag, 0) == first;
    assert input[0] ^ first == 1;
    assert Masked(prf, key, nonce, input, tag)[0] == 1;
  }

  /** As arithmetic: the two loops mask every input alike, for every C1, exactly while the length plus 31
      fits a size_t. */
  lemma KeystreamsAgreeExactly(key: Key256, nonce: Nonce192, input: Span, tag: TagSize)
    ensures (forall prf: Prf :: IndependentMasked(prf, key, nonce, input, tag) == Masked(prf, key, nonce, input, tag))
            <==> |input| + 31 < TWO_64
  {
    if |input| + 31 < TWO_64 {
      forall prf: Prf ensures IndependentMasked(prf, key, nonce, input, tag) == Masked(prf, key, nonce, input, tag) {
        KeystreamsAgree(prf, key, nonce, input, tag);
      }
    } else {
      var prf := KeystreamsDiffer(key, nonce, input, tag);
    }
  }

  // ----- seal and open -----

  function IndependentSealed(prf: Prf, keys: KeyPair, nonce: Nonce192, ad: Span, plaintext: Span, size: TagSize)
    : Result<SealedMessage, Error>
  {
    var context :- Context(nonce, ad, size);
    var ciphertext := IndependentMasked(prf, keys.encryption, nonce, plaintext, size);
    var tag :- Tag(prf, keys.authentication, context, ciphertext, size);
    Ok(SealedMessage(ciphertext, tag))
  }

  method Seal(prf: Prf, keys: KeyPair, nonce: Nonce192, ad: Span, plaintext: Span, size: TagSize)
    returns (r: Result<SealedMessage, Error>, ghost calls: seq<Call>)
    ensures r == IndependentSealed(prf, keys, nonce, ad, plaintext, size)
    ensures |plaintext| + 31 < TWO_64 ==> calls == SealCalls(prf, keys, nonce, ad, plaintext, size)
  {
    hide IndependentMasked, Masked, Tag, TagCalls, StreamCalls, AuthContext, Blocks, IndependentBlocks;
    BlockCountsAgreeExactly(|plaintext|);
    if |plaintext| + 31 < TWO_64 {
      KeystreamsAgree(prf, keys.encryption, nonce, plaintext, size);
    }
    calls := [];
    var ciphertext, streamCalls :- XorKeystream(prf, keys.encryption, nonce, plaintext, size);
    calls := streamCalls;
    var context :- FrameAuthenticationContext(nonce, ad, size);
    var tag, tagCalls := IndependentMac.ComputeTag(prf, keys.authentication, context, ciphertext, size);
    calls := calls + tagCalls;
    r := if tag.Err? then Err(tag.error) else Ok(SealedMessage(ciphertext, tag.value));
  }

  function IndependentOpened(prf: Prf, keys: KeyPair, nonce: Nonce192, ad: Span, ciphertext: Span, tag: Span)
    : Result<Option<Span>, Error>
  {
    if !IsSupportedTagSize(|tag|) then Ok(None)
    else if !FitsContext(ad) then Err(ContextTooLong)
    else if TooLong(ad, ciphertext) then Err(FrameTooLong)
    else if !Authentic(prf, keys, nonce, ad, ciphertext, tag) then Ok(None)
    else Ok(Some(IndependentMasked(prf, keys.encryption, nonce, ciphertext, |tag|)))
  }

  method Open(prf: Prf, keys: KeyPair, nonce: Nonce192, ad: Span, ciphertext: Span, tag: Span)
    returns (r: Result<Option<Span>, Error>, ghost calls: seq<Call>)
    ensures r == IndependentOpened(prf, keys, nonce, ad, ciphertext, tag)
    ensures calls == OpenCalls(prf, keys, nonce, ad, ciphertext, tag)
  {
    calls := [];
    if !IsSupportedTagSize(|tag|) { return Ok(None), calls; }
    hide IndependentMasked, StreamCalls, AuthContext, MacFrame, Blocks, IndependentBlocks;
    BlockCountsAgreeExactly(|ciphertext|);
    var size: TagSize := |tag|;
    var context :- FrameAuthenticationContext(nonce, ad, size);
    var valid, tagCalls := IndependentMac.VerifyTag(prf, keys.authentication, context, ciphertext, tag);
    calls := tagCalls;
    if valid.Err? { return Err(valid.error), calls; }
    if !valid.value { return Ok(None), calls; }
    var plaintext, streamCalls := XorKeystream(prf, keys.encryption, nonce, ciphertext, size);
    calls := calls + streamCalls;
    r := Ok(Some(plaintext.value));
  }

  /** The two implementations seal alike on every input: lengths that would wrap do not fit a frame. */
  lemma SealsAgree(prf: Prf, keys: KeyPair, nonce: Nonce192, ad: Span, plaintext: Span, size: TagSize)
    ensures IndependentSealed(prf, keys, nonce, ad, plaintext, size) == Sealed(prf, keys, nonce, ad, plaintext, size)
  {
    if |plaintext| + 31 < TWO_64 {
      KeystreamsAgree(prf, keys.encryption, nonce, plaintext, size);
    }
    hide IndependentMasked, Masked, AuthContext, MacFrame;
  }

  /** The two implementations open alike on every input. */
  lemma OpensAgree(prf: Prf, keys: KeyPair, nonce: Nonce192, ad: Span, ciphertext: Span, tag: Span)
    ensures IndependentOpened(prf, keys, nonce, ad, ciphertext, tag) == Opened(prf, keys, nonce, ad, ciphertext, tag)
  {
    if IsSupportedTagSize(|tag|) && |ciphertext| + 31 < TWO_64 {
      KeystreamsAgree(prf, keys.encryption, nonce, ciphertext, |tag|);
    }
    hide IndependentMasked, Masked, AuthContext, MacFrame, Tag;
  }
}
