/** The 90-byte counter record: every field is followed by its complement. */
module NonceCodec {
  import opened Foundations

  type Scope = s: seq<byte> | |s| == 16 witness ZeroBytes(16)
  type Nonce = s: seq<byte> | |s| == 24 witness ZeroBytes(24)

  datatype CounterState = CounterState(scope: Scope, next: Nonce, exhausted: bool)

  datatype DecodeError = MagicMismatch | ScopeRedundancy | ExhaustedFlag | ValueRedundancy

  const MAGIC: seq<byte> := [0x50, 0x56, 0x43, 0x4E, 0x43, 0x54, 0x52, 0x31]
  const SCOPE_OFFSET: nat := 8
  const SCOPE_COMPLEMENT_OFFSET: nat := 24
  const EXHAUSTED_OFFSET: nat := 40
  const EXHAUSTED_COMPLEMENT_OFFSET: nat := 41
  const NONCE_OFFSET: nat := 42
  const NONCE_COMPLEMENT_OFFSET: nat := 66
  const STATE_BYTES: nat := 90

  type Record = r: seq<byte> | |r| == STATE_BYTES witness seq(STATE_BYTES, (i: nat) => 0)

  function Complement(s: seq<byte>): (c: seq<byte>)
    ensures |c| == |s|
  {
    seq(|s|, i requires 0 <= i < |s| => !s[i])
  }

  function Flag(exhausted: bool): byte {
    if exhausted then 1 else 0
  }

  function Encode(s: CounterState): Record {
    MAGIC + s.scope + Complement(s.scope) + [Flag(s.exhausted), !Flag(s.exhausted)] + s.next + Complement(s.next)
  }

  /** The checks in the order the program makes them. */
  function Decode(r: Record): Result<CounterState, DecodeError> {
    var scope, next := r[8..24], r[42..66];
    if r[..8] != MAGIC then Err(MagicMismatch)
    else if r[24..40] != Complement(scope) then Err(ScopeRedundancy)
    else if r[40] > 1 || r[41] != !r[40] then Err(ExhaustedFlag)
    else if r[66..90] != Complement(next) then Err(ValueRedundancy)
    else Ok(CounterState(scope, next, r[40] == 1))
  }

  lemma EncodedFields(s: CounterState)
    ensures var r := Encode(s);
      && r[..8] == MAGIC && r[8..24] == s.scope && r[24..40] == Complement(s.scope)
      && r[40] == Flag(s.exhausted) && r[41] == !Flag(s.exhausted)
      && r[42..66] == s.next && r[66..90] == Complement(s.next)
  {
    hide Complement, Flag;
  }

  lemma DecodeEncode(s: CounterState)
    ensures Decode(Encode(s)) == Ok(s)
  {
    EncodedFields(s);
    hide Encode, Complement;
  }

  lemma Assembled(r: Record)
    ensures r == r[..8] + r[8..24] + r[24..40] + [r[40], r[41]] + r[42..66] + r[66..90]
  {
  }

  /** Every accepted record is the encoding of what it decodes to: the codec is a bijection onto them. */
  lemma {:induction false} EncodeDecode(r: Record)
    requires Decode(r).Ok?
    ensures Encode(Decode(r).value) == r
  {
    Assembled(r);
    var s := Decode(r).value;
    assert Flag(s.exhausted) == r[40];
    hide Complement, Flag;
  }

  /** `a` and `b` differ at two positions at least. */
  ghost predicate DifferTwice(a: Record, b: Record) {
    exists i, j :: 0 <= i < j < STATE_BYTES && a[i] != b[i] && a[j] != b[j]
  }

  lemma ComplementDiffers(s: seq<byte>, t: seq<byte>, i: nat)
    requires |s| == |t| && i < |s| && s[i] != t[i]
    ensures Complement(s)[i] != Complement(t)[i]
  {
    NotIsInjective(s[i], t[i]);
  }

  lemma NotIsInjective(a: byte, b: byte)
    requires a != b
    ensures !a != !b
  {
  }

  lemma FirstDifference(s: seq<byte>, t: seq<byte>) returns (i: nat)
    requires |s| == |t| && s != t
    ensures i < |s| && s[i] != t[i]
  {
    i :| i < |s| && s[i] != t[i];
  }

  /** Two different accepted records differ in at least two bytes... */
  lemma AcceptedRecordsDifferTwice(a: Record, b: Record)
    requires Decode(a).Ok? && Decode(b).Ok? && a != b
    ensures DifferTwice(a, b)
  {
    var s, t := Decode(a).value, Decode(b).value;
    EncodeDecode(a);
    EncodeDecode(b);
    EncodedFields(s);
    EncodedFields(t);
    hide Encode, Decode;
    if s.scope != t.scope {
      var i := FirstDifference(s.scope, t.scope);
      ComplementDiffers(s.scope, t.scope, i);
      assert a[8..24][i] != b[8..24][i] && a[24..40][i] != b[24..40][i];
      assert a[8 + i] != b[8 + i] && a[24 + i] != b[24 + i];
    } else if s.next != t.next {
      var i := FirstDifference(s.next, t.next);
      ComplementDiffers(s.next, t.next, i);
      assert a[42..66][i] != b[42..66][i] && a[66..90][i] != b[66..90][i];
      assert a[42 + i] != b[42 + i] && a[66 + i] != b[66 + i];
    } else {
      assert s.exhausted != t.exhausted;
      NotIsInjective(a[40], b[40]);
      assert a[40] != b[40] && a[41] != b[41];
    }
  }

  /** ...so no single corrupted byte goes unnoticed. */
  lemma SingleCorruptionIsRejected(r: Record, i: nat, b: byte)
    requires Decode(r).Ok? && i < STATE_BYTES && b != r[i]
    ensures Decode(r[i := b]).Err?
  {
    var corrupted := r[i := b];
    hide Decode;
    if Decode(corrupted).Ok? {
      AcceptedRecordsDifferTwice(r, corrupted);
      assert false;
    }
  }

  // ----- the loops of the program -----

  /** Stores a field at one offset and its complement at another. */
  method StoreWithComplement(buffer: array<byte>, offset: nat, complementOffset: nat, field: seq<byte>)
    requires offset + |field| <= complementOffset && complementOffset + |field| <= buffer.Length
    modifies buffer
    ensures buffer[offset..offset + |field|] == field
    ensures buffer[complementOffset..complementOffset + |field|] == Complement(field)
    ensures buffer[..offset] == old(buffer[..offset])
    ensures buffer[offset + |field|..complementOffset] == old(buffer[offset + |field|..complementOffset])
    ensures buffer[complementOffset + |field|..] == old(buffer[complementOffset + |field|..])
  {
    var n := |field|;
    for i := 0 to n
      invariant forall k :: 0 <= k < i ==> buffer[offset + k] == field[k]
      invariant forall k :: 0 <= k < i ==> buffer[complementOffset + k] == Complement(field)[k]
      invariant buffer[..offset] == old(buffer[..offset])
      invariant buffer[offset + n..complementOffset] == old(buffer[offset + n..complementOffset])
      invariant buffer[complementOffset + n..] == old(buffer[complementOffset + n..])
    {
      buffer[offset + i] := field[i];
      buffer[complementOffset + i] := !field[i];
    }
  }

  /** Reads a field back and checks it against its complement. */
  method LoadWithComplement(buffer: array<byte>, offset: nat, complementOffset: nat, size: nat) returns (field: seq<byte>, sound: bool)
    requires offset + size <= buffer.Length && complementOffset + size <= buffer.Length
    ensures sound <==> buffer[complementOffset..complementOffset + size] == Complement(buffer[offset..offset + size])
    ensures sound ==> field == buffer[offset..offset + size]
  {
    ghost var stored := buffer[offset..offset + size];
    ghost var complement := buffer[complementOffset..complementOffset + size];
    field := [];
    for i := 0 to size
      invariant field == stored[..i]
      invariant forall k :: 0 <= k < i ==> complement[k] == Complement(stored)[k]
    {
      var value := buffer[offset + i];
      if buffer[complementOffset + i] != !value {
        assert stored[i] == value && complement[i] == buffer[complementOffset + i];
        assert complement[i] != Complement(stored)[i];
        return field, false;
      }
      field := field + [value];
    }
    sound := true;
  }

  /** Fills a 90-byte buffer field by field. */
  method EncodeState(s: CounterState) returns (encoded: array<byte>)
    ensures fresh(encoded) && encoded[..] == Encode(s)
  {
    hide Complement, Flag, Encode;
    encoded := new byte[STATE_BYTES](i requires 0 <= i < STATE_BYTES => if i < 8 then MAGIC[i] else 0);
    assert encoded[..8] == MAGIC;
    StoreWithComplement(encoded, SCOPE_OFFSET, SCOPE_COMPLEMENT_OFFSET, s.scope);
    encoded[EXHAUSTED_OFFSET] := Flag(s.exhausted);
    encoded[EXHAUSTED_COMPLEMENT_OFFSET] := !encoded[EXHAUSTED_OFFSET];
    assert encoded[..8] == MAGIC && encoded[8..24] == s.scope && encoded[24..40] == Complement(s.scope);
    ghost var head := encoded[..42];
    StoreWithComplement(encoded, NONCE_OFFSET, NONCE_COMPLEMENT_OFFSET, s.next);
    ghost var r := encoded[..];
    assert r[..42] == head && r[..8] == head[..8] && r[8..24] == head[8..24] && r[24..40] == head[24..40];
    assert r[42..66] == s.next && r[66..90] == Complement(s.next);
    FieldsEncode(r, s);
  }

  lemma FieldsEncode(r: Record, s: CounterState)
    requires r[..8] == MAGIC && r[8..24] == s.scope && r[24..40] == Complement(s.scope)
    requires r[40] == Flag(s.exhausted) && r[41] == !Flag(s.exhausted)
    requires r[42..66] == s.next && r[66..90] == Complement(s.next)
    ensures r == Encode(s)
  {
    Assembled(r);
    hide Complement, Flag;
  }

  method DecodeState(encoded: array<byte>) returns (r: Result<CounterState, DecodeError>)
    requires encoded.Length == STATE_BYTES
    ensures r == Decode(encoded[..])
  {
    hide Complement;
    ghost var record := encoded[..];
    assert record[8..24] == encoded[8..24] && record[24..40] == encoded[24..40];
    assert record[42..66] == encoded[42..66] && record[66..90] == encoded[66..90];
    if encoded[..8] != MAGIC {
      return Err(MagicMismatch);
    }
    var scope, sound := LoadWithComplement(encoded, SCOPE_OFFSET, SCOPE_COMPLEMENT_OFFSET, 16);
    if !sound {
      return Err(ScopeRedundancy);
    }
    var exhausted := encoded[EXHAUSTED_OFFSET];
    if exhausted > 1 || encoded[EXHAUSTED_COMPLEMENT_OFFSET] != !exhausted {
      return Err(ExhaustedFlag);
    }
    var next;
    next, sound := LoadWithComplement(encoded, NONCE_OFFSET, NONCE_COMPLEMENT_OFFSET, 24);
    if !sound {
      return Err(ValueRedundancy);
    }
    r := Ok(CounterState(scope, next, exhausted == 1));
  }
}
