/** The symbols a 256-bit key injects in its three framed passes. */
module KeySchedule {
  import opened Foundations
  import opened Words

  type Key = k: seq<byte> | |k| == 32 witness ZeroBytes(32)

  const HEADER: seq<byte> := [0x50, 0x56, 0x43, 0x31, 0x4B, 0x45, 0x59, 0x20]

  function PositionMask(index: nat, tag: byte): byte
    requires index < 256
  {
    var i := ByteOf(index);
    i * 0x5B + Rotl8(i, 3) + tag
  }

  function ForwardDirect(key: Key, i: nat): byte
    requires i < 32
  {
    Xor8(key[i], PositionMask(i, 0xA5))
  }

  function ForwardCross(key: Key, i: nat): byte
    requires i < 32
  {
    Cross(key[i], Rotl8(key[(i + 11) % 32], i % 7 + 1), Rotl8(key[(i + 23) % 32], 3), PositionMask(i, 0x31))
  }

  function Cross(a: byte, b: byte, c: byte, mask: byte): byte {
    Xor8(Xor8(a, b), Plus8(c, mask))
  }

  function ReturnSymbol(key: Key, reverse: nat): byte
    requires reverse < 32
  {
    var i := 31 - reverse;
    Xor8(Sum3(key[i], Rotl8(key[(i + 7) % 32], 3), Rotl8(key[(i + 19) % 32], 5)), PositionMask(reverse, 0x72))
  }

  function SealSymbol(key: Key, i: nat): byte
    requires i < 16
  {
    Xor8(Xor8(Sum3(key[i], Rotl8(key[i + 16], 1), Rotl8(key[(i + 5) % 32], 4)), Rotl8(key[(i + 27) % 32], 6)),
         PositionMask(i, 0x9C))
  }

  /** The forward pass: for each key byte its masked value, then its cross symbol. */
  function ForwardSymbols(key: Key): (symbols: seq<byte>)
    ensures |symbols| == 64
  {
    seq(64, (j: nat) requires j < 64 => if j % 2 == 0 then ForwardDirect(key, j / 2) else ForwardCross(key, j / 2))
  }

  function ReturnSymbols(key: Key): (symbols: seq<byte>)
    ensures |symbols| == 32
  {
    seq(32, (i: nat) requires i < 32 => ReturnSymbol(key, i))
  }

  function SealSymbols(key: Key): (symbols: seq<byte>)
    ensures |symbols| == 16
  {
    seq(16, (i: nat) requires i < 16 => SealSymbol(key, i))
  }

  // ----- which symbols a key byte reaches -----

  /** The keys differ in byte `n` alone. */
  predicate DifferAt(k: Key, l: Key, n: nat) {
    n < 32 && k[n] != l[n] && forall i: nat :: i < 32 && i != n ==> k[i] == l[i]
  }

  lemma CrossShows(a: byte, b: byte, c: byte, mask: byte, v: byte)
    ensures Cross(v, b, c, mask) == Cross(a, b, c, mask) <==> v == a
    ensures Cross(a, v, c, mask) == Cross(a, b, c, mask) <==> v == b
    ensures Cross(a, b, v, mask) == Cross(a, b, c, mask) <==> v == c
  {
    hide Xor8, Plus8;
    Xor8Shows(v, a, b);
    Xor8Shows(v, b, a);
    Plus8Shows(v, c, mask);
    Xor8Shows(Plus8(v, mask), Plus8(c, mask), Xor8(a, b));
    Xor8Shows(Xor8(v, b), Xor8(a, b), Plus8(c, mask));
    Xor8Shows(Xor8(a, v), Xor8(a, b), Plus8(c, mask));
  }

  /** A change of one key byte changes exactly its own direct symbol... */
  lemma DirectFollows(k: Key, l: Key, n: nat, i: nat)
    requires DifferAt(k, l, n) && i < 32
    ensures ForwardDirect(k, i) != ForwardDirect(l, i) <==> i == n
  {
    Xor8Shows(k[i], l[i], PositionMask(i, 0xA5));
    hide Xor8, PositionMask;
  }

  /** ...exactly three cross symbols... */
  lemma CrossFollows(k: Key, l: Key, n: nat, i: nat)
    requires DifferAt(k, l, n) && i < 32
    ensures ForwardCross(k, i) != ForwardCross(l, i) <==> n == i || n == (i + 11) % 32 || n == (i + 23) % 32
  {
    hide Rotl8, Cross, PositionMask;
    var (b, c) := (Rotl8(k[(i + 11) % 32], i % 7 + 1), Rotl8(k[(i + 23) % 32], 3));
    CrossShows(k[i], b, c, PositionMask(i, 0x31), l[i]);
    CrossShows(k[i], b, c, PositionMask(i, 0x31), Rotl8(l[(i + 11) % 32], i % 7 + 1));
    CrossShows(k[i], b, c, PositionMask(i, 0x31), Rotl8(l[(i + 23) % 32], 3));
    TurnShows(k[(i + 11) % 32], l[(i + 11) % 32], i % 7 + 1);
    TurnShows(k[(i + 23) % 32], l[(i + 23) % 32], 3);
  }

  /** ...exactly three return symbols... */
  lemma ReturnFollows(k: Key, l: Key, n: nat, reverse: nat)
    requires DifferAt(k, l, n) && reverse < 32
    ensures var i := 31 - reverse;
      ReturnSymbol(k, reverse) != ReturnSymbol(l, reverse) <==> n == i || n == (i + 7) % 32 || n == (i + 19) % 32
  {
    hide Rotl8, Xor8, Sum3, PositionMask;
    var i := 31 - reverse;
    var (b, c) := (Rotl8(k[(i + 7) % 32], 3), Rotl8(k[(i + 19) % 32], 5));
    SumShows(k[i], b, c, l[i]);
    SumShows(k[i], b, c, Rotl8(l[(i + 7) % 32], 3));
    SumShows(k[i], b, c, Rotl8(l[(i + 19) % 32], 5));
    TurnShows(k[(i + 7) % 32], l[(i + 7) % 32], 3);
    TurnShows(k[(i + 19) % 32], l[(i + 19) % 32], 5);
    Xor8Shows(Sum3(k[i], b, c), Sum3(l[i], Rotl8(l[(i + 7) % 32], 3), Rotl8(l[(i + 19) % 32], 5)), PositionMask(reverse, 0x72));
  }

  /** ...and exactly the seal symbols that read it. */
  lemma SealFollows(k: Key, l: Key, n: nat, i: nat)
    requires DifferAt(k, l, n) && i < 16
    ensures SealSymbol(k, i) != SealSymbol(l, i) <==> n == i || n == i + 16 || n == (i + 5) % 32 || n == (i + 27) % 32
  {
    hide Rotl8, Xor8, Sum3, PositionMask;
    var (b, c, d) := (Rotl8(k[i + 16], 1), Rotl8(k[(i + 5) % 32], 4), Rotl8(k[(i + 27) % 32], 6));
    SumShows(k[i], b, c, l[i]);
    SumShows(k[i], b, c, Rotl8(l[i + 16], 1));
    SumShows(k[i], b, c, Rotl8(l[(i + 5) % 32], 4));
    TurnShows(k[i + 16], l[i + 16], 1);
    TurnShows(k[(i + 5) % 32], l[(i + 5) % 32], 4);
    TurnShows(k[(i + 27) % 32], l[(i + 27) % 32], 6);
    var (u, v) := (Sum3(k[i], b, c), Sum3(l[i], Rotl8(l[i + 16], 1), Rotl8(l[(i + 5) % 32], 4)));
    var e := Rotl8(l[(i + 27) % 32], 6);
    Xor8Shows(Xor8(u, d), Xor8(v, e), PositionMask(i, 0x9C));
    Xor8Shows(u, v, d);
    Xor8Shows(d, e, u);
  }
}
