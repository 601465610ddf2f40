/** The canonical A1 layer: stream encryption, then a tag over nonce, associated data and ciphertext. */
module Aead {
  import opened Foundations
  import opened Frames
  import opened Mac

  const BLOCK_SIZE := 32

  datatype KeyPair = KeyPair(encryption: Key256, authentication: Key256)
  datatype SealedMessage = SealedMessage(ciphertext: Span, tag: seq<byte>)

  // ----- frames -----

  method FrameStreamBlock(nonce: Nonce192, counter: u64, tag: TagSize) returns (r: Result<seq<byte>, Error>)
    ensures r == if IsSupportedTagSize(tag) then Ok(StreamFrame(nonce, counter, tag)) else Err(UnsupportedTagSize)
  {
    if !IsSupportedTagSize(tag) { return Err(UnsupportedTagSize); }
    var framed := [];
    framed := framed + AEAD_MAGIC;
    framed := framed + [SEPARATOR];
    framed := framed + [FRAME_VERSION];
    framed := framed + [ROLE_STREAM];
    framed := framed + [PRIMITIVE_PROFILE_C1];
    framed := framed + [ByteOf(tag)];
    framed := framed + [RESERVED];
    assert framed == StreamHeader(tag);
    framed := framed + nonce;
    framed := AppendU64(framed, counter);
    return Ok(framed);
  }

  function Context(nonce: Nonce192, ad: Span, tag: TagSize): Result<Span, Error> {
    if !IsSupportedTagSize(tag) then Err(UnsupportedTagSize)
    else if !FitsContext(ad) then Err(ContextTooLong)
    else Ok(AuthContext(nonce, ad, tag))
  }

  method FrameAuthenticationContext(nonce: Nonce192, ad: Span, tag: TagSize) returns (r: Result<Span, Error>)
    ensures r == Context(nonce, ad, tag)
  {
    if !IsSupportedTagSize(tag) { return Err(UnsupportedTagSize); }
    if |ad| > SIZE_MAX - AUTH_FIXED_SIZE { return Err(ContextTooLong); }
    var framed := [];
    framed := framed + AEAD_MAGIC;
    framed := framed + [SEPARATOR];
    framed := framed + [FRAME_VERSION];
    framed := framed + [ROLE_AUTHENTICATION];
    framed := framed + [PRIMITIVE_PROFILE_C1];
    framed := framed + [MAC_PROFILE_M1];
    framed := framed + [ByteOf(tag)];
    framed := framed + [RESERVED];
    assert framed == AuthHeader(tag);
    hide AuthHeader, U64Bytes;
    framed := framed + nonce;
    framed := AppendU64(framed, |ad|);
    framed := framed + ad;
    return Ok(framed);
  }

  // ----- the keystream -----

  /** Byte `i` of the concatenated stream blocks. */
  function StreamByte(prf: Prf, key: Key256, nonce: Nonce192, tag: TagSize, i: nat): byte
    requires i < TWO_64
  {
    prf(key, StreamFrame(nonce, i / BLOCK_SIZE, tag))[i % BLOCK_SIZE]
  }

  function Stream(prf: Prf, key: Key256, nonce: Nonce192, tag: TagSize, n: nat): (s: seq<byte>)
    requires n < TWO_64
    ensures |s| == n
  {
    seq(n, i requires 0 <= i < n => StreamByte(prf, key, nonce, tag, i))
  }

  function XorBytes(s: seq<byte>, t: seq<byte>): (r: seq<byte>)
    requires |s| == |t|
    ensures |r| == |s|
  {
    seq(|s|, i requires 0 <= i < |s| => s[i] ^ t[i])
  }

  /** Bytewise XOR with the stream. */
  function Masked(prf: Prf, key: Key256, nonce: Nonce192, input: Span, tag: TagSize): (r: Span)
    ensures |r| == |input|
  {
    XorBytes(input, Stream(prf, key, nonce, tag, |input|))
  }

  lemma MaskedTwice(prf: Prf, key: Key256, nonce: Nonce192, input: Span, tag: TagSize)
    ensures Masked(prf, key, nonce, Masked(prf, key, nonce, input, tag), tag) == input
  {
    var s := Stream(prf, key, nonce, tag, |input|);
    forall i | 0 <= i < |input| ensures (input[i] ^ s[i]) ^ s[i] == input[i] {}
  }

  function Blocks(n: nat): nat {
    if n == 0 then 0 else 1 + (n - 1) / BLOCK_SIZE
  }

  const MAX_BLOCKS: nat := 0x800_0000_0000_0000

  /** A payload needs its length divided by 32, rounded up, and never more than 2^59 counters. */
  lemma BlocksBound(n: u64)
    ensures Blocks(n) <= MAX_BLOCKS
    ensures 32 * Blocks(n) < n + 32 && n <= 32 * Blocks(n)
    ensures Blocks(SIZE_MAX) == MAX_BLOCKS
  {
  }

  /** The evaluations of the first `n` stream blocks, in order. */
  function StreamCalls(key: Key256, nonce: Nonce192, tag: TagSize, n: nat): (calls: seq<Call>)
    requires n <= MAX_BLOCKS
    ensures |calls| == n
  {
    seq(n, i requires 0 <= i < n => Call(key, StreamFrame(nonce, i, tag)))
  }

  /** The inner loop: one block of the output. */
  method MaskBlock(output: array<byte>, input: Span, offset: nat, take: nat, stream: Block256)
    requires output.Length == |input| && offset + take <= |input| && take <= BLOCK_SIZE
    modifies output
    ensures forall j :: 0 <= j < |input| && !(offset <= j < offset + take) ==> output[j] == old(output[j])
    ensures forall j :: offset <= j < offset + take ==> output[j] == input[j] ^ stream[j - offset]
  {
    for i := 0 to take
      invariant forall j :: 0 <= j < |input| && !(offset <= j < offset + i) ==> output[j] == old(output[j])
      invariant forall j :: offset <= j < offset + i ==> output[j] == input[j] ^ stream[j - offset]
    {
      output[offset + i] := input[offset + i] ^ stream[i];
    }
  }

  /** Position `offset + i` lies in this block. */
  lemma BlockPosition(j: nat, block: nat)
    requires 32 * block <= j < 32 * block + 32
    ensures j / BLOCK_SIZE == block && j % BLOCK_SIZE == j - 32 * block
  {
  }

  method ApplyKeystream(prf: Prf, key: Key256, nonce: Nonce192, input: Span, tag: TagSize)
    returns (r: Result<Span, Error>, ghost calls: seq<Call>)
    ensures r == if IsSupportedTagSize(tag) || input == [] then Ok(Masked(prf, key, nonce, input, tag))
                 else Err(UnsupportedTagSize)
    ensures Blocks(|input|) <= MAX_BLOCKS
    ensures calls == if IsSupportedTagSize(tag) then StreamCalls(key, nonce, tag, Blocks(|input|)) else []
  {
    hide StreamFrame;
    var output := new byte[|input|];
    var blocks := if |input| == 0 then 0 else 1 + (|input| - 1) / BLOCK_SIZE;
    BlocksBound(|input|);
    calls := [];
    for block := 0 to blocks
      invariant block > 0 ==> IsSupportedTagSize(tag)
      invariant calls == StreamCalls(key, nonce, tag, block)
      invariant forall j :: 0 <= j < 32 * block && j < |input| ==>
                  output[j] == input[j] ^ StreamByte(prf, key, nonce, tag, j)
    {
      var framed :- FrameStreamBlock(nonce, block, tag);
      var stream := prf(key, framed);
      calls := calls + [Call(key, framed)];
      var offset := block * BLOCK_SIZE;
      var remaining := |input| - offset;
      var take := if remaining < BLOCK_SIZE then remaining else BLOCK_SIZE;
      MaskBlock(output, input, offset, take, stream);
      forall j | offset <= j < offset + take ensures output[j] == input[j] ^ StreamByte(prf, key, nonce, tag, j) {
        BlockPosition(j, block);
      }
    }
    assert output[..] == Masked(prf, key, nonce, input, tag);
    r := Ok(output[..]);
  }

  // ----- seal and open -----

  function Sealed(prf: Prf, keys: KeyPair, nonce: Nonce192, ad: Span, plaintext: Span, size: TagSize)
    : Result<SealedMessage, Error>
  {
    var context :- Context(nonce, ad, size);
    var ciphertext := Masked(prf, keys.encryption, nonce, plaintext, size);
    var tag :- Tag(prf, keys.authentication, context, ciphertext, size);
    Ok(SealedMessage(ciphertext, tag))
  }

  /** The evaluations of a seal: the stream blocks, then the one of the tag if there is a frame. */
  function SealCalls(prf: Prf, keys: KeyPair, nonce: Nonce192, ad: Span, plaintext: Span, size: TagSize): seq<Call> {
    BlocksBound(|plaintext|);
    match Context(nonce, ad, size)
    case Err(UnsupportedTagSize) => []
    case Err(_) => StreamCalls(keys.encryption, nonce, size, Blocks(|plaintext|))
    case Ok(context) =>
      StreamCalls(keys.encryption, nonce, size, Blocks(|plaintext|))
      + TagCalls(keys.authentication, context, Masked(prf, keys.encryption, nonce, plaintext, size), size)
  }

  method Seal(prf: Prf, keys: KeyPair, nonce: Nonce192, ad: Span, plaintext: Span, size: TagSize)
    returns (r: Result<SealedMessage, Error>, ghost calls: seq<Call>)
    ensures r == Sealed(prf, keys, nonce, ad, plaintext, size)
    ensures calls == SealCalls(prf, keys, nonce, ad, plaintext, size)
  {
    hide Masked, Tag, TagCalls, StreamCalls, AuthContext, Blocks;
    calls := [];
    var ciphertext, streamCalls :- ApplyKeystream(prf, keys.encryption, nonce, plaintext, size);
    calls := streamCalls;
    var context :- FrameAuthenticationContext(nonce, ad, size);
    ghost var tagCalls;
    var tag: Result<seq<byte>, Error>;
    tag, tagCalls := ComputeTag(prf, keys.authentication, context, ciphertext, size);
    calls := calls + tagCalls;
    r := if tag.Err? then Err(tag.error) else Ok(SealedMessage(ciphertext, tag.value));
  }

  /** The supplied tag is the one computed over these inputs. */
  predicate Authentic(prf: Prf, keys: KeyPair, nonce: Nonce192, ad: Span, ciphertext: Span, tag: Span) {
    && IsSupportedTagSize(|tag|)
    && FitsContext(ad)
    && Tag(prf, keys.authentication, AuthContext(nonce, ad, |tag|), ciphertext, |tag|) == Ok(tag)
  }

  /** The lengths are too large for a context or a frame. */
  predicate TooLong(ad: Span, ciphertext: Span) {
    AUTH_FIXED_SIZE + |ad| + MAC_HEADER_SIZE + |ciphertext| >= TWO_64
  }

  function Opened(prf: Prf, keys: KeyPair, nonce: Nonce192, ad: Span, ciphertext: Span, tag: Span)
    : Result<Option<Span>, Error>
  {
    if !IsSupportedTagSize(|tag|) then Ok(None)
    else if !FitsContext(ad) then Err(ContextTooLong)
    else if TooLong(ad, ciphertext) then Err(FrameTooLong)
    else if !Authentic(prf, keys, nonce, ad, ciphertext, tag) then Ok(None)
    else Ok(Some(Masked(prf, keys.encryption, nonce, ciphertext, |tag|)))
  }

  /** The evaluations of an open: none, or the one of the tag; only then, if it is accepted, the stream. */
  function OpenCalls(prf: Prf, keys: KeyPair, nonce: Nonce192, ad: Span, ciphertext: Span, tag: Span): seq<Call> {
    BlocksBound(|ciphertext|);
    if !IsSupportedTagSize(|tag|) || !FitsContext(ad) then []
    else
      TagCalls(keys.authentication, AuthContext(nonce, ad, |tag|), ciphertext, |tag|)
      + if Authentic(prf, keys, nonce, ad, ciphertext, tag)
        then StreamCalls(keys.encryption, nonce, |tag|, Blocks(|ciphertext|)) else []
  }

  method Open(prf: Prf, keys: KeyPair, nonce: Nonce192, ad: Span, ciphertext: Span, tag: Span)
    returns (r: Result<Option<Span>, Error>, ghost calls: seq<Call>)
    ensures r == Opened(prf, keys, nonce, ad, ciphertext, tag)
    ensures calls == OpenCalls(prf, keys, nonce, ad, ciphertext, tag)
  {
    calls := [];
    if !IsSupportedTagSize(|tag|) { return Ok(None), calls; }
    hide Masked, StreamCalls, AuthContext, MacFrame, Blocks;
    var size: TagSize := |tag|;
    var context :- FrameAuthenticationContext(nonce, ad, size);
    var valid, tagCalls := VerifyTag(prf, keys.authentication, context, ciphertext, tag);
    calls := tagCalls;
    if valid.Err? { return Err(valid.error), calls; }
    if !valid.value { return Ok(None), calls; }
    var plaintext, streamCalls := ApplyKeystream(prf, keys.encryption, nonce, ciphertext, size);
    calls := calls + streamCalls;
    r := Ok(Some(plaintext.value));
  }

  /** Authenticate first: unless the tuple is accepted, open evaluates C1 at most once, on the authenticated
      input under the authentication key, and derives no stream block. */
  lemma RejectedOpenDerivesNothing(prf: Prf, keys: KeyPair, nonce: Nonce192, ad: Span, ciphertext: Span, tag: Span)
    requires !Authentic(prf, keys, nonce, ad, ciphertext, tag)
    ensures var calls := OpenCalls(prf, keys, nonce, ad, ciphertext, tag);
      calls == [] || (FitsContext(ad) && IsSupportedTagSize(|tag|)
      && calls == [Call(keys.authentication, AuthenticatedInput(AuthenticatedFields(nonce, ad, ciphertext, |tag|)))])
  {
    hide AuthContext, MacFrame, Tag;
  }

  /** Opening a sealed message returns its plaintext. */
  lemma OpenSealed(prf: Prf, keys: KeyPair, nonce: Nonce192, ad: Span, plaintext: Span, size: TagSize)
    ensures var s := Sealed(prf, keys, nonce, ad, plaintext, size);
      s.Ok? ==> Opened(prf, keys, nonce, ad, s.value.ciphertext, s.value.tag) == Ok(Some(plaintext))
  {
    hide Masked, AuthContext, MacFrame;
    MaskedTwice(prf, keys.encryption, nonce, plaintext, size);
  }

  /** Sealing what was opened, under the same tag size, gives back the same ciphertext and tag. */
  lemma SealOpened(prf: Prf, keys: KeyPair, nonce: Nonce192, ad: Span, ciphertext: Span, tag: Span)
    requires Opened(prf, keys, nonce, ad, ciphertext, tag).Ok?
    requires Opened(prf, keys, nonce, ad, ciphertext, tag).value.Some?
    ensures Sealed(prf, keys, nonce, ad, Opened(prf, keys, nonce, ad, ciphertext, tag).value.value, |tag|)
            == Ok(SealedMessage(ciphertext, tag))
  {
    hide Masked, AuthContext, MacFrame;
    MaskedTwice(prf, keys.encryption, nonce, ciphertext, |tag|);
  }

  /** The leading bytes of C1 on the unique encoding of nonce, associated data, ciphertext and tag size. */
  function ExpectedTag(prf: Prf, keys: KeyPair, f: AuthenticatedFields): (t: seq<byte>)
    requires IsSupportedTagSize(f.tag) && FitsContext(f.ad)
    ensures |t| == f.tag
  {
    prf(keys.authentication, AuthenticatedInput(f))[..f.tag]
  }

  /** Open succeeds exactly for a supported tag length, lengths that fit, and the recomputed tag. */
  lemma OpenAcceptsExactly(prf: Prf, keys: KeyPair, nonce: Nonce192, ad: Span, ciphertext: Span, tag: Span)
    ensures var r := Opened(prf, keys, nonce, ad, ciphertext, tag);
      (r.Ok? && r.value.Some?) <==>
      (IsSupportedTagSize(|tag|) && !TooLong(ad, ciphertext)
      && tag == ExpectedTag(prf, keys, AuthenticatedFields(nonce, ad, ciphertext, |tag|)))
    ensures Opened(prf, keys, nonce, ad, ciphertext, tag).Err? <==>
            IsSupportedTagSize(|tag|) && TooLong(ad, ciphertext)
  {
    hide AuthContext, MacFrame, Masked;
  }

  /** Sealing fails exactly when the tag size is unsupported or the M1 frame would be too long. */
  lemma SealFailsExactly(prf: Prf, keys: KeyPair, nonce: Nonce192, ad: Span, plaintext: Span, size: TagSize)
    ensures Sealed(prf, keys, nonce, ad, plaintext, size).Err? <==>
            !IsSupportedTagSize(size) || TooLong(ad, plaintext)
  {
    hide AuthContext, MacFrame, Masked;
  }

  // ----- accepted tuples that no seal returned -----

  /** One call to seal under the keys in question. */
  datatype Query = Query(nonce: Nonce192, ad: Span, plaintext: Span, size: TagSize)

  function Answer(prf: Prf, keys: KeyPair, q: Query): Result<SealedMessage, Error> {
    Sealed(prf, keys, q.nonce, q.ad, q.plaintext, q.size)
  }

  /** The fields whose encoding a successful seal gives to C1 for its tag. */
  function AuthenticatedBy(prf: Prf, keys: KeyPair, q: Query): AuthenticatedFields {
    AuthenticatedFields(q.nonce, q.ad, Masked(prf, keys.encryption, q.nonce, q.plaintext, q.size), q.size)
  }

  /** The call returned this ciphertext and tag for this nonce and associated data. */
  predicate ReturnedBy(prf: Prf, keys: KeyPair, q: Query, nonce: Nonce192, ad: Span, ciphertext: Span, tag: Span) {
    q.nonce == nonce && q.ad == ad && Answer(prf, keys, q) == Ok(SealedMessage(ciphertext, tag))
  }

  /** A successful seal returns the expected tag of the fields it authenticates. */
  lemma SealReturnsExpectedTag(prf: Prf, keys: KeyPair, q: Query)
    requires Answer(prf, keys, q).Ok?
    ensures IsSupportedTagSize(q.size) && FitsContext(q.ad)
    ensures var f := AuthenticatedBy(prf, keys, q);
      Answer(prf, keys, q).value == SealedMessage(f.ciphertext, ExpectedTag(prf, keys, f))
  {
    hide AuthContext, MacFrame, Masked;
  }

  /** What no seal has given to C1: the input of a tuple that none of them returned. */
  ghost predicate FreshInput(prf: Prf, keys: KeyPair, log: seq<Query>, input: seq<byte>) {
    && (forall i :: 0 <= i < |log| && Answer(prf, keys, log[i]).Ok? && FitsContext(log[i].ad) ==>
          AuthenticatedInput(AuthenticatedBy(prf, keys, log[i])) != input)
    && (forall s: StreamFields :: StreamFrame(s.nonce, s.counter, s.tag) != input)
  }

  /** Open accepts a tuple that no listed seal returned only by evaluating C1 on an input that none of
      them authenticated and that is no stream input. */
  lemma AcceptedForgeryIsFresh(prf: Prf, keys: KeyPair, log: seq<Query>, nonce: Nonce192, ad: Span, ciphertext: Span, tag: Span)
    requires Opened(prf, keys, nonce, ad, ciphertext, tag).Ok?
    requires Opened(prf, keys, nonce, ad, ciphertext, tag).value.Some?
    requires forall i :: 0 <= i < |log| ==> !ReturnedBy(prf, keys, log[i], nonce, ad, ciphertext, tag)
    ensures IsSupportedTagSize(|tag|) && FitsContext(ad)
    ensures tag == ExpectedTag(prf, keys, AuthenticatedFields(nonce, ad, ciphertext, |tag|))
    ensures FreshInput(prf, keys, log, AuthenticatedInput(AuthenticatedFields(nonce, ad, ciphertext, |tag|)))
  {
    hide AuthContext, MacFrame, StreamFrame, Masked, Sealed, Opened, AuthenticatedInput, ExpectedTag;
    OpenAcceptsExactly(prf, keys, nonce, ad, ciphertext, tag);
    var f := AuthenticatedFields(nonce, ad, ciphertext, |tag|);
    forall i | 0 <= i < |log| && Answer(prf, keys, log[i]).Ok? && FitsContext(log[i].ad)
      ensures AuthenticatedInput(AuthenticatedBy(prf, keys, log[i])) != AuthenticatedInput(f)
    {
      SealReturnsExpectedTag(prf, keys, log[i]);
      if AuthenticatedInput(AuthenticatedBy(prf, keys, log[i])) == AuthenticatedInput(f) {
        AuthenticatedInputIsInjective(AuthenticatedBy(prf, keys, log[i]), f);
      }
    }
    forall s: StreamFields ensures StreamFrame(s.nonce, s.counter, s.tag) != AuthenticatedInput(f) {
      StreamIsNotAuthenticated(s, f);
    }
  }

  lemma StreamIsNotAuthenticated(s: StreamFields, f: AuthenticatedFields)
    requires FitsContext(f.ad)
    ensures StreamFrame(s.nonce, s.counter, s.tag) != AuthenticatedInput(f)
  {
    StreamIsNeverMac(s, AuthContext(f.nonce, f.ad, f.tag), f.ciphertext, f.tag);
    hide StreamFrame, MacFrame, AuthContext;
  }

  // ----- stream inputs across messages -----

  /** Block `block` of message `message`, where each message has its own nonce. */
  datatype BlockUse = BlockUse(message: nat, block: nat)

  predicate IsUsed(lengths: seq<u64>, u: BlockUse) {
    u.message < |lengths| && u.block < Blocks(lengths[u.message])
  }

  function InputOf(nonces: seq<Nonce192>, sizes: seq<TagSize>, lengths: seq<u64>, u: BlockUse): seq<byte>
    requires |nonces| == |sizes| == |lengths| && IsUsed(lengths, u)
  {
    BlocksBound(lengths[u.message]);
    StreamFrame(nonces[u.message], u.block, sizes[u.message])
  }

  /** While nonces are not reused, no two stream blocks of any two messages have the same C1 input. */
  lemma StreamInputsNeverRepeat(nonces: seq<Nonce192>, sizes: seq<TagSize>, lengths: seq<u64>, u: BlockUse, w: BlockUse)
    requires |nonces| == |sizes| == |lengths| && IsUsed(lengths, u) && IsUsed(lengths, w)
    requires forall i, j :: 0 <= i < j < |nonces| ==> nonces[i] != nonces[j]
    requires InputOf(nonces, sizes, lengths, u) == InputOf(nonces, sizes, lengths, w)
    ensures u == w
  {
    BlocksBound(lengths[u.message]);
    BlocksBound(lengths[w.message]);
    StreamFrameIsInjective(StreamFields(nonces[u.message], u.block, sizes[u.message]),
                           StreamFields(nonces[w.message], w.block, sizes[w.message]));
  }
}
