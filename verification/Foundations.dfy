/** Shared vocabulary: bytes, results, and the counting lemmas the other modules use. */
module Foundations {

  type byte = bv8

  const TWO_64: nat := 0x1_0000_0000_0000_0000

  /** An unsigned 64-bit integer, also the model of size_t. */
  type u64 = n: nat | n < TWO_64

  datatype Option<+T> = None | Some(value: T)

  datatype Result<+T, +E> = Ok(value: T) | Err(error: E) {
    predicate IsFailure() {
      Err?
    }

    function PropagateFailure<U>(): Result<U, E>
      requires Err?
    {
      Err(error)
    }

    function Extract(): T
      requires Ok?
    {
      value
    }
  }

  function ZeroBytes(n: nat): (s: seq<byte>)
    ensures |s| == n
  {
    seq(n, i => 0)
  }

  lemma NextByte(b: byte)
    requires b != 255
    ensures (b + 1) as nat == b as nat + 1
  {
  }

  /** The byte with value `n`. */
  function ByteOf(n: nat): (b: byte)
    requires n < 256
    ensures b as nat == n
  {
    if n == 0 then 0
    else
      var b := ByteOf(n - 1);
      NextByte(b);
      b + 1
  }

  lemma SameByte(a: byte, b: byte)
    requires a as nat == b as nat
    ensures a == b
  {
  }

  function Value(b: byte): (n: nat)
    ensures n < 256
  {
    b as nat
  }

  lemma ValueIsInjective(a: byte, b: byte)
    ensures Value(a) == Value(b) ==> a == b
  {
    if Value(a) == Value(b) { SameByte(a, b); }
  }

  lemma ScaleBoth(a: nat, b: nat, c: nat)
    ensures a <= b ==> a * c <= b * c
  {
    if a <= b {
      assert b * c == a * c + (b - a) * c;
    }
  }

  /** floor(n / d) is the only q with q * d <= n < (q + 1) * d. */
  lemma FloorIs(n: nat, d: nat, q: nat)
    requires d > 0
    ensures n / d == q <==> q * d <= n < q * d + d
  {
    var f := n / d;
    assert f * d <= n < f * d + d;
    ScaleBoth(f + 1, q, d);
    ScaleBoth(q + 1, f, d);
    assert (f + 1) * d == f * d + d && (q + 1) * d == q * d + d;
  }

  /** The image of `s` under an injection has as many elements as `s`. */
  lemma {:induction false} ImageSize<A(!new), B(!new)>(s: set<A>, t: set<B>, f: A -> B)
    requires forall a :: a in s ==> f(a) in t
    requires forall a, b :: a in s && b in s && f(a) == f(b) ==> a == b
    requires forall b :: b in t ==> exists a :: a in s && f(a) == b
    ensures |s| == |t|
    decreases |s|
  {
    if s == {} {
      assert t == {};
    } else {
      var a :| a in s;
      var s', t' := s - {a}, t - {f(a)};
      forall b | b in t' ensures exists c :: c in s' && f(c) == b {
        var c :| c in s && f(c) == b;
        assert c in s';
      }
      ImageSize(s', t', f);
    }
  }

  /** The positions of `s` that hold `v`. */
  ghost function Positions<T>(s: seq<T>, v: T): set<nat> {
    set i: nat | i < |s| && s[i] == v
  }

  lemma {:induction false} PositionsCount<T>(s: seq<T>, v: T)
    ensures multiset(s)[v] == |Positions(s, v)|
    decreases |s|
  {
    if s == [] {
      assert Positions(s, v) == {};
    } else {
      var n := |s| - 1;
      var prefix := s[..n];
      PositionsCount(prefix, v);
      assert s == prefix + [s[n]];
      if s[n] == v {
        assert Positions(s, v) == Positions(prefix, v) + {n};
      } else {
        assert Positions(s, v) == Positions(prefix, v);
      }
    }
  }

  ghost function Occurrences<T>(s: seq<T>, v: T): nat {
    |Positions(s, v)|
  }

  lemma OccurrencesAppend<T>(s: seq<T>, x: T, v: T)
    ensures Occurrences(s + [x], v) == Occurrences(s, v) + if v == x then 1 else 0
  {
    PositionsCount(s, v);
    PositionsCount(s + [x], v);
  }

  lemma SameOccurrences<T>(s: seq<T>, t: seq<T>, v: T)
    requires multiset(s) == multiset(t)
    ensures Occurrences(s, v) == Occurrences(t, v)
  {
    PositionsCount(s, v);
    PositionsCount(t, v);
  }

  /** `g` takes back what `f` does to the positions below `n`. */
  ghost predicate Undoes(g: nat -> nat, f: nat -> nat, n: nat) {
    forall i: nat :: i < n ==> f(i) < n && g(f(i)) == i
  }

  /** Rearranging positions along a permutation keeps the multiset of values. */
  lemma PermutedMultiset<T>(s: seq<T>, t: seq<T>, source: nat -> nat, target: nat -> nat)
    requires |s| == |t|
    requires Undoes(target, source, |s|) && Undoes(source, target, |s|)
    requires forall i: nat :: i < |s| ==> t[i] == s[source(i)]
    ensures multiset(t) == multiset(s)
  {
    forall v ensures multiset(t)[v] == multiset(s)[v] {
      PositionsCount(s, v);
      PositionsCount(t, v);
      SamePositions(s, t, source, target, v);
    }
  }

  lemma SamePositions<T>(s: seq<T>, t: seq<T>, source: nat -> nat, target: nat -> nat, v: T)
    requires |s| == |t|
    requires Undoes(target, source, |s|) && Undoes(source, target, |s|)
    requires forall i: nat :: i < |s| ==> t[i] == s[source(i)]
    ensures |Positions(t, v)| == |Positions(s, v)|
  {
    forall i | i in Positions(s, v) ensures exists j :: j in Positions(t, v) && source(j) == i {
      assert source(target(i)) == i;
      assert target(i) in Positions(t, v);
    }
    forall i, j | i in Positions(t, v) && j in Positions(t, v) && source(i) == source(j) ensures i == j {
      assert i == target(source(i)) && j == target(source(j));
    }
    ImageSize(Positions(t, v), Positions(s, v), source);
  }
}
