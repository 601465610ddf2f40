/** Machine words: rotations, byte selection and truncation, as the C++ unsigned types do them.

    Rotations are written as repeated one-bit rotations, so that undoing them is an induction. */
module Words {
  import opened Foundations

  function Rotl8(v: bv8, n: nat): bv8 {
    RotateLeft8(v, n % 8)
  }

  function RotateLeft8(v: bv8, n: nat): bv8 {
    if n == 0 then v else var r := RotateLeft8(v, n - 1); (r << 1) | (r >> 7)
  }

  lemma {:induction false} RotationKeeps(v: byte, w: byte, n: nat)
    ensures RotateLeft8(v, n) == RotateLeft8(w, n) <==> v == w
  {
    if n > 0 {
      RotationKeeps(v, w, n - 1);
      var (a, b) := (RotateLeft8(v, n - 1), RotateLeft8(w, n - 1));
      OneTurnKeeps(a, b);
      assert RotateLeft8(v, n) == (a << 1) | (a >> 7);
      assert RotateLeft8(w, n) == (b << 1) | (b >> 7);
    }
  }

  lemma OneTurnKeeps(a: byte, b: byte)
    ensures (a << 1) | (a >> 7) == (b << 1) | (b >> 7) <==> a == b
  {
  }

  /** A rotated byte shows the byte. */
  lemma TurnShows(v: byte, w: byte, n: nat)
    ensures Rotl8(v, n) == Rotl8(w, n) <==> v == w
  {
    RotationKeeps(v, w, n % 8);
  }

  // bytes

  function Xor8(a: byte, b: byte): byte {
    a ^ b
  }

  function Sum3(a: byte, b: byte, c: byte): byte {
    Plus8(Plus8(a, b), c)
  }

  function Plus8(a: byte, b: byte): byte {
    a + b
  }

  function Minus8(a: byte, b: byte): byte {
    a - b
  }

  lemma PlusMinus8(a: byte, b: byte)
    ensures Minus8(Plus8(a, b), b) == a
  {
  }

  lemma Plus8Shows(a: byte, b: byte, c: byte)
    ensures Plus8(a, c) == Plus8(b, c) <==> a == b
    ensures Plus8(c, a) == Plus8(c, b) <==> a == b
  {
    PlusMinus8(a, c);
    PlusMinus8(b, c);
    Plus8Commutes(a, c);
    Plus8Commutes(b, c);
    hide Plus8, Minus8;
  }

  lemma Plus8Commutes(a: byte, b: byte)
    ensures Plus8(a, b) == Plus8(b, a)
  {
  }

  lemma Xor8Twice(a: byte, b: byte)
    ensures Xor8(Xor8(a, b), b) == a
    ensures Xor8(a, b) == Xor8(b, a)
  {
  }

  lemma Xor8Shows(a: byte, b: byte, c: byte)
    ensures Xor8(a, c) == Xor8(b, c) <==> a == b
    ensures Xor8(c, a) == Xor8(c, b) <==> a == b
  {
    Xor8Twice(a, c);
    Xor8Twice(b, c);
    hide Xor8;
  }

  /** A sum of three bytes shows each of them. */
  lemma SumShows(a: byte, b: byte, c: byte, v: byte)
    ensures Sum3(v, b, c) == Sum3(a, b, c) <==> v == a
    ensures Sum3(a, v, c) == Sum3(a, b, c) <==> v == b
    ensures Sum3(a, b, v) == Sum3(a, b, c) <==> v == c
  {
    hide Plus8;
    Plus8Shows(v, a, b);
    Plus8Shows(v, b, a);
    Plus8Shows(v, c, Plus8(a, b));
    Plus8Shows(Plus8(v, b), Plus8(a, b), c);
    Plus8Shows(Plus8(a, v), Plus8(a, b), c);
  }

  // 16-bit rotations

  function Left16(v: bv16): bv16 {
    (v << 1) | (v >> 15)
  }

  function Right16(v: bv16): bv16 {
    (v >> 1) | (v << 15)
  }

  lemma OneBit16(v: bv16)
    ensures Right16(Left16(v)) == v
    ensures Left16(Right16(v)) == v
  {
  }

  function Rotl16(v: bv16, n: nat): bv16 {
    RotateLeft16(v, n % 16)
  }

  function Rotr16(v: bv16, n: nat): bv16 {
    RotateRight16(v, n % 16)
  }

  function RotateLeft16(v: bv16, n: nat): bv16 {
    if n == 0 then v else Left16(RotateLeft16(v, n - 1))
  }

  function RotateRight16(v: bv16, n: nat): bv16
    decreases n
  {
    if n == 0 then v else RotateRight16(Right16(v), n - 1)
  }

  lemma {:induction false} RotateUndo16(v: bv16, n: nat)
    ensures RotateRight16(RotateLeft16(v, n), n) == v
    decreases n
  {
    hide Left16, Right16;
    if n == 0 {
    } else {
      OneBit16(RotateLeft16(v, n - 1));
      RotateUndo16(v, n - 1);
    }
  }

  lemma {:induction false} RotateRedo16(v: bv16, n: nat)
    ensures RotateLeft16(RotateRight16(v, n), n) == v
    decreases n
  {
    hide Left16, Right16;
    if n == 0 {
    } else {
      OneBit16(v);
      RotateRedo16(Right16(v), n - 1);
    }
  }

  lemma Rotations16(v: bv16, n: nat)
    ensures Rotr16(Rotl16(v, n), n) == v
    ensures Rotl16(Rotr16(v, n), n) == v
  {
    RotateUndo16(v, n % 16);
    RotateRedo16(v, n % 16);
  }

  // 32-bit rotations

  function Left32(v: bv32): bv32 {
    (v << 1) | (v >> 31)
  }

  function Right32(v: bv32): bv32 {
    (v >> 1) | (v << 31)
  }

  lemma OneBit32(v: bv32)
    ensures Right32(Left32(v)) == v
    ensures Left32(Right32(v)) == v
  {
  }

  function Rotl32(v: bv32, n: nat): bv32 {
    RotateLeft32(v, n % 32)
  }

  function Rotr32(v: bv32, n: nat): bv32 {
    RotateRight32(v, n % 32)
  }

  function RotateLeft32(v: bv32, n: nat): bv32 {
    if n == 0 then v else Left32(RotateLeft32(v, n - 1))
  }

  function RotateRight32(v: bv32, n: nat): bv32
    decreases n
  {
    if n == 0 then v else RotateRight32(Right32(v), n - 1)
  }

  lemma {:induction false} RotateUndo32(v: bv32, n: nat)
    ensures RotateRight32(RotateLeft32(v, n), n) == v
    decreases n
  {
    hide Left32, Right32;
    if n == 0 {
    } else {
      OneBit32(RotateLeft32(v, n - 1));
      RotateUndo32(v, n - 1);
    }
  }

  lemma {:induction false} RotateRedo32(v: bv32, n: nat)
    ensures RotateLeft32(RotateRight32(v, n), n) == v
    decreases n
  {
    hide Left32, Right32;
    if n == 0 {
    } else {
      OneBit32(v);
      RotateRedo32(Right32(v), n - 1);
    }
  }

  lemma Rotations32(v: bv32, n: nat)
    ensures Rotr32(Rotl32(v, n), n) == v
    ensures Rotl32(Rotr32(v, n), n) == v
  {
    RotateUndo32(v, n % 32);
    RotateRedo32(v, n % 32);
  }

  // 64-bit rotations

  function Left64(v: bv64): bv64 {
    (v << 1) | (v >> 63)
  }

  function Right64(v: bv64): bv64 {
    (v >> 1) | (v << 63)
  }

  lemma OneBit64(v: bv64)
    ensures Right64(Left64(v)) == v
    ensures Left64(Right64(v)) == v
  {
  }

  function Rotl64(v: bv64, n: nat): bv64 {
    RotateLeft64(v, n % 64)
  }

  function Rotr64(v: bv64, n: nat): bv64 {
    RotateRight64(v, n % 64)
  }

  function RotateLeft64(v: bv64, n: nat): bv64 {
    if n == 0 then v else Left64(RotateLeft64(v, n - 1))
  }

  function RotateRight64(v: bv64, n: nat): bv64
    decreases n
  {
    if n == 0 then v else RotateRight64(Right64(v), n - 1)
  }

  lemma {:induction false} RotateUndo64(v: bv64, n: nat)
    ensures RotateRight64(RotateLeft64(v, n), n) == v
    decreases n
  {
    hide Left64, Right64;
    if n == 0 {
    } else {
      OneBit64(RotateLeft64(v, n - 1));
      RotateUndo64(v, n - 1);
    }
  }

  lemma {:induction false} RotateRedo64(v: bv64, n: nat)
    ensures RotateLeft64(RotateRight64(v, n), n) == v
    decreases n
  {
    hide Left64, Right64;
    if n == 0 {
    } else {
      OneBit64(v);
      RotateRedo64(Right64(v), n - 1);
    }
  }

  lemma Rotations64(v: bv64, n: nat)
    ensures Rotr64(Rotl64(v, n), n) == v
    ensures Rotl64(Rotr64(v, n), n) == v
  {
    RotateUndo64(v, n % 64);
    RotateRedo64(v, n % 64);
  }

  // ----- truncation and byte selection -----

  function Low8(v: bv64): bv8 {
    (v & 0xFF) as bv8
  }

  function Low16(v: bv64): bv16 {
    (v & 0xFFFF) as bv16
  }

  function Low32(v: bv64): bv32 {
    (v & 0xFFFF_FFFF) as bv32
  }

  function Byte16(v: bv16, index: nat): bv8 {
    if index % 2 == 0 then Low8(v as bv64) else Low8((v >> 8) as bv64)
  }

  function Byte32(v: bv32, index: nat): bv8 {
    ByteOf32(v, index % 4)
  }

  function ByteOf32(v: bv32, k: nat): bv8
    decreases k
  {
    if k == 0 then Low8(v as bv64) else ByteOf32(v >> 8, k - 1)
  }

  function Byte64(v: bv64, index: nat): bv8 {
    ByteAt(v, index % 8)
  }

  /** Byte `k`, reached by shifting one byte at a time. */
  function ByteAt(v: bv64, k: nat): bv8
    decreases k
  {
    if k == 0 then Low8(v) else ByteAt(v >> 8, k - 1)
  }

  /** The low three bits, as a coordinate component. */
  function Low3(v: bv64): (d: nat)
    ensures d < 8
  {
    var low := v & 7;
    if low == 0 then 0 else if low == 1 then 1 else if low == 2 then 2 else if low == 3 then 3
    else if low == 4 then 4 else if low == 5 then 5 else if low == 6 then 6 else 7
  }

  /** Entry `i`, or 0 past the end. */
  function Nth(s: seq<byte>, i: nat): byte {
    if i < |s| then s[i] else 0
  }
}
