/** The amount mapper: a byte Feistel network, a scaling, and the factorial number system.

    A 16-bit seed selects one of the 5040 orders of the amounts 1..7.  Seeds are 16-bit naturals
    handled as two bytes. */
module AmountMapper {
  import opened Foundations
  import opened Words

  // ----- the Feistel network -----

  const ADD_CONSTANTS: seq<byte> := [0x3D, 0xA7, 0x61, 0xC9, 0x17, 0xE3]
  const MULTIPLY_CONSTANTS: seq<byte> := [0xB5, 0x6D, 0xD3, 0x9B, 0xF5, 0x7D]
  const ROUND_OFFSETS: seq<byte> := [11, 40, 69, 98, 127, 156]  // round * 29 + 11

  function MixRound(right: byte, round: nat): byte {
    var round := round % 6;
    var v0 := (right + ADD_CONSTANTS[round]) * MULTIPLY_CONSTANTS[round];
    var v1 := v0 ^ Rotl8(v0, 1);
    var v2 := v1 + Rotl8(right, 3) + ROUND_OFFSETS[round];
    Rotl8(v2 ^ (v2 >> 3), round + 1)
  }

  type Halves = (byte, byte)

  /** The first `n` rounds of a Feistel network with round function `f`. */
  function Feistel(f: (byte, nat) -> byte, halves: Halves, n: nat): Halves {
    if n == 0 then halves
    else
      Step(f, Feistel(f, halves, n - 1), n - 1)
  }

  function Step(f: (byte, nat) -> byte, halves: Halves, round: nat): Halves {
    (halves.1, halves.0 ^ f(halves.1, round))
  }

  /** The same rounds taken back, last one first. */
  function Unfeistel(f: (byte, nat) -> byte, halves: Halves, n: nat): Halves
    decreases n
  {
    if n == 0 then halves
    else
      Unfeistel(f, Undo(f, halves, n - 1), n - 1)
  }

  function Undo(f: (byte, nat) -> byte, halves: Halves, round: nat): Halves {
    (halves.1 ^ f(halves.0, round), halves.0)
  }

  lemma XorCancels(a: byte, b: byte)
    ensures (a ^ b) ^ b == a
  {
  }

  /** Whatever the round function, the rounds can be undone... */
  lemma {:induction false} UnfeistelFeistel(f: (byte, nat) -> byte, halves: Halves, n: nat)
    ensures Unfeistel(f, Feistel(f, halves, n), n) == halves
    decreases n
  {
    if n == 0 {
    } else {
      var before := Feistel(f, halves, n - 1);
      XorCancels(before.0, f(before.1, n - 1));
      UnfeistelFeistel(f, halves, n - 1);
    }
  }

  /** ...and every pair of bytes is reached, so each number of rounds is a bijection. */
  lemma {:induction false} FeistelUnfeistel(f: (byte, nat) -> byte, halves: Halves, n: nat)
    ensures Feistel(f, Unfeistel(f, halves, n), n) == halves
    decreases n
  {
    if n == 0 {
    } else {
      var before := Undo(f, halves, n - 1);
      FeistelUnfeistel(f, before, n - 1);
      XorCancels(halves.1, f(halves.0, n - 1));
    }
  }

  const SEEDS: nat := 65536
  type Seed = n: nat | n < SEEDS

  function Split(seed: Seed): Halves {
    (ByteOf(seed / 256), ByteOf(seed % 256))
  }

  function Join(halves: Halves): Seed {
    halves.0 as nat * 256 + halves.1 as nat
  }

  lemma SplitJoin(seed: Seed)
    ensures Join(Split(seed)) == seed
  {
  }

  lemma JoinSplit(halves: Halves)
    ensures Split(Join(halves)) == halves
  {
    var hi, lo := halves.0 as nat, halves.1 as nat;
    var seed := Join(halves);
    assert seed / 256 == hi && seed % 256 == lo;
    SameByte(Split(seed).0, halves.0);
    SameByte(Split(seed).1, halves.1);
  }

  function SeedPermutation(seed: Seed): Seed {
    Join(Feistel(MixRound, Split(seed), 6))
  }

  function SeedInverse(mixed: Seed): Seed {
    Join(Unfeistel(MixRound, Split(mixed), 6))
  }

  lemma SeedPermutationIsBijective(seed: Seed)
    ensures SeedInverse(SeedPermutation(seed)) == seed
    ensures SeedPermutation(SeedInverse(seed)) == seed
  {
    var halves := Split(seed);
    UnfeistelFeistel(MixRound, halves, 6);
    FeistelUnfeistel(MixRound, halves, 6);
    SplitJoin(seed);
    JoinSplit(Feistel(MixRound, halves, 6));
    JoinSplit(Unfeistel(MixRound, halves, 6));
  }

  method AmountSeedPermutation(seed: Seed) returns (mixed: Seed)
    ensures mixed == SeedPermutation(seed)
  {
    var (left, right) := Split(seed);
    for round := 0 to 6
      invariant (left, right) == Feistel(MixRound, Split(seed), round)
    {
      left, right := right, left ^ MixRound(right, round);
    }
    mixed := Join((left, right));
  }

  // ----- the factorial number system -----

  function Factorial(n: nat): (f: nat)
    ensures f > 0
  {
    if n == 0 then 1 else n * Factorial(n - 1)
  }

  function Without<T>(pool: seq<T>, i: nat): seq<T>
    requires i < |pool|
  {
    pool[..i] + pool[i + 1..]
  }

  function Digit(rank: nat, block: nat): nat
    requires block > 0
  {
    rank / block
  }

  function Rest(rank: nat, block: nat): (rest: nat)
    requires block > 0
    ensures rest < block
  {
    rank % block
  }

  function Combine(digit: nat, rest: nat, block: nat): nat {
    digit * block + rest
  }

  lemma DigitRange(n: nat, rank: nat)
    requires n > 0 && rank < Factorial(n)
    ensures Digit(rank, Factorial(n - 1)) < n
  {
    var block := Factorial(n - 1);
    FloorIs(rank, block, rank / block);
    ScaleBoth(n, rank / block, block);
  }

  lemma CombineDigits(rank: nat, block: nat)
    requires block > 0
    ensures Combine(Digit(rank, block), Rest(rank, block), block) == rank
  {
  }

  lemma DigitsOfCombine(digit: nat, rest: nat, block: nat)
    requires rest < block
    ensures Digit(Combine(digit, rest, block), block) == digit
    ensures Rest(Combine(digit, rest, block), block) == rest
  {
    var n := digit * block + rest;
    FloorIs(n, block, digit);
    assert n == (n / block) * block + n % block;
  }

  /** The `rank`-th order of `pool`: each factorial digit picks one of the remaining elements. */
  function DecodeRank<T>(pool: seq<T>, rank: nat): (order: seq<T>)
    requires rank < Factorial(|pool|)
    ensures |order| == |pool|
    decreases |pool|
  {
    if pool == [] then []
    else
      DigitRange(|pool|, rank);
      var block := Factorial(|pool| - 1);
      var i := Digit(rank, block);
      [pool[i]] + DecodeRank(Without(pool, i), Rest(rank, block))
  }

  lemma DecodeStep<T>(pool: seq<T>, rank: nat)
    requires pool != [] && rank < Factorial(|pool|)
    ensures var block := Factorial(|pool| - 1);
      var i := Digit(rank, block);
      && i < |pool|
      && DecodeRank(pool, rank) == [pool[i]] + DecodeRank(Without(pool, i), Rest(rank, block))
  {
    DigitRange(|pool|, rank);
  }

  lemma DecodeNothing<T>(pool: seq<T>, rank: nat)
    requires pool == [] && rank < Factorial(0)
    ensures DecodeRank(pool, rank) == []
  {
  }

  function IndexOf<T(==)>(pool: seq<T>, x: T): (i: nat)
    requires x in pool
    ensures i < |pool| && pool[i] == x
  {
    if pool[0] == x then 0 else 1 + IndexOf(pool[1..], x)
  }

  ghost predicate Distinct<T>(s: seq<T>) {
    forall i, j :: 0 <= i < j < |s| ==> s[i] != s[j]
  }

  ghost predicate IsOrderOf<T>(order: seq<T>, pool: seq<T>) {
    multiset(order) == multiset(pool)
  }

  lemma WithoutRemoves<T>(pool: seq<T>, i: nat)
    requires i < |pool|
    ensures multiset(pool) == multiset{pool[i]} + multiset(Without(pool, i))
    ensures Distinct(pool) ==> Distinct(Without(pool, i))
  {
    assert pool == pool[..i] + [pool[i]] + pool[i + 1..];
  }

  lemma OrderTail<T>(order: seq<T>, pool: seq<T>, i: nat)
    requires |order| > 0 && IsOrderOf(order, pool) && i < |pool| && pool[i] == order[0]
    ensures IsOrderOf(order[1..], Without(pool, i))
  {
    WithoutRemoves(pool, i);
    assert order == [order[0]] + order[1..];
    assert multiset(order) - multiset{order[0]} == multiset(order[1..]);
    assert multiset(pool) - multiset{pool[i]} == multiset(Without(pool, i));
  }

  /** Where the first element of an order sits in the pool. */
  ghost function HeadIndex<T>(pool: seq<T>, order: seq<T>): (i: nat)
    requires IsOrderOf(order, pool) && order != []
    ensures i < |pool| && pool[i] == order[0] && i == IndexOf(pool, order[0])
    ensures IsOrderOf(order[1..], Without(pool, i))
  {
    assert order[0] in multiset(order);
    var i := IndexOf(pool, order[0]);
    OrderTail(order, pool, i);
    i
  }

  lemma CombineBound(i: nat, n: nat, rest: nat)
    requires i < n && rest < Factorial(n - 1)
    ensures Combine(i, rest, Factorial(n - 1)) < Factorial(n)
  {
    var block := Factorial(n - 1);
    ScaleBoth(i + 1, n, block);
    assert (i + 1) * block == i * block + block;
  }

  /** The rank of an order, the inverse of `DecodeRank`. */
  ghost function EncodeRank<T>(pool: seq<T>, order: seq<T>): (rank: nat)
    requires IsOrderOf(order, pool)
    ensures rank < Factorial(|pool|)
    decreases |pool|
  {
    SameLength(order, pool);
    if pool == [] then 0
    else
      var i := HeadIndex(pool, order);
      var rest := EncodeRank(Without(pool, i), order[1..]);
      CombineBound(i, |pool|, rest);
      Combine(i, rest, Factorial(|pool| - 1))
  }

  lemma SameLength<T>(order: seq<T>, pool: seq<T>)
    requires IsOrderOf(order, pool)
    ensures |order| == |pool|
  {
    assert |multiset(order)| == |order| && |multiset(pool)| == |pool|;
  }

  lemma {:induction false} DecodeIsOrder<T>(pool: seq<T>, rank: nat)
    requires rank < Factorial(|pool|)
    ensures IsOrderOf(DecodeRank(pool, rank), pool)
    decreases |pool|
  {
    hide Factorial, Digit, Rest;
    if pool == [] {
    } else {
      DecodeStep(pool, rank);
      var block := Factorial(|pool| - 1);
      var i := Digit(rank, block);
      DecodeIsOrder(Without(pool, i), Rest(rank, block));
      WithoutRemoves(pool, i);
    }
  }

  lemma IndexOfDistinct<T>(pool: seq<T>, i: nat)
    requires Distinct(pool) && i < |pool|
    ensures IndexOf(pool, pool[i]) == i
  {
    var j := IndexOf(pool, pool[i]);
    assert pool[j] == pool[i];
  }

  /** Ranks below |pool|! and orders of a distinct pool correspond one to one. */
  lemma {:induction false} EncodeDecode<T>(pool: seq<T>, rank: nat)
    requires rank < Factorial(|pool|) && Distinct(pool)
    ensures IsOrderOf(DecodeRank(pool, rank), pool)
    ensures EncodeRank(pool, DecodeRank(pool, rank)) == rank
    decreases |pool|
  {
    DecodeIsOrder(pool, rank);
    if pool == [] {
    } else {
      DecodeStep(pool, rank);
      var block := Factorial(|pool| - 1);
      var i := Digit(rank, block);
      IndexOfDistinct(pool, i);
      WithoutRemoves(pool, i);
      var others, order := Without(pool, i), DecodeRank(pool, rank);
      assert |others| == |pool| - 1;
      assert HeadIndex(pool, order) == i;
      hide *;
      EncodeDecode(others, Rest(rank, block));
      assert order[1..] == DecodeRank(others, Rest(rank, block));
      EncodeStep(pool, order);
      CombineDigits(rank, block);
    }
  }

  lemma EncodeStep<T>(pool: seq<T>, order: seq<T>)
    requires IsOrderOf(order, pool) && order != []
    ensures |pool| == |order|
    ensures var i := HeadIndex(pool, order);
      EncodeRank(pool, order) == Combine(i, EncodeRank(Without(pool, i), order[1..]), Factorial(|pool| - 1))
  {
    SameLength(order, pool);
  }

  lemma {:induction false} DecodeEncode<T>(pool: seq<T>, order: seq<T>)
    requires IsOrderOf(order, pool)
    ensures DecodeRank(pool, EncodeRank(pool, order)) == order
    decreases |pool|
  {
    SameLength(order, pool);
    if pool == [] {
    } else {
      var i := HeadIndex(pool, order);
      var tail, others := order[1..], Without(pool, i);
      var rest := EncodeRank(others, tail);
      assert |others| == |pool| - 1;
      hide *;
      EncodeStep(pool, order);
      DigitsOfCombine(i, rest, Factorial(|pool| - 1));
      DecodeStep(pool, EncodeRank(pool, order));
      DecodeEncode(others, tail);
      assert order == [order[0]] + tail;
    }
  }

  // ----- scaling a mixed seed to a rank -----

  /** The least m with m * ranks >= r * total: where the preimages of rank r begin. */
  function FirstPreimage(total: nat, ranks: nat, r: nat): nat
    requires ranks > 0
  {
    (r * total + ranks - 1) / ranks
  }

  lemma FirstPreimageBounds(total: nat, ranks: nat, r: nat, m: nat)
    requires ranks > 0
    ensures m >= FirstPreimage(total, ranks, r) <==> m * ranks >= r * total
  {
    var n := r * total + ranks - 1;
    var q := n / ranks;
    FloorIs(n, ranks, q);
    ScaleBoth(q, m, ranks);
    ScaleBoth(m + 1, q, ranks);
    assert (m + 1) * ranks == m * ranks + ranks;
  }

  lemma FirstPreimageTight(total: nat, ranks: nat, r: nat)
    requires ranks > 0
    ensures r * total <= FirstPreimage(total, ranks, r) * ranks < r * total + ranks
  {
    FloorIs(r * total + ranks - 1, ranks, FirstPreimage(total, ranks, r));
  }

  function Scale(total: nat, ranks: nat, m: nat): nat
    requires total > 0
  {
    m * ranks / total
  }

  ghost function ScalePreimages(total: nat, ranks: nat, r: nat): set<nat>
    requires total > 0
  {
    set m: nat | m < total && Scale(total, ranks, m) == r
  }

  function Interval(lo: nat, hi: nat): (s: set<nat>)
    requires lo <= hi
    ensures forall m :: m in s <==> lo <= m < hi
    ensures |s| == hi - lo
    decreases hi - lo
  {
    if lo == hi then {} else Interval(lo, hi - 1) + {hi - 1}
  }

  lemma FirstPreimageOrder(total: nat, ranks: nat, r: nat)
    requires ranks > 0 && r < ranks
    ensures FirstPreimage(total, ranks, r) <= FirstPreimage(total, ranks, r + 1) <= total
  {
    var hi := FirstPreimage(total, ranks, r + 1);
    ScaleBoth(r, r + 1, total);
    ScaleBoth(r + 1, ranks, total);
    FirstPreimageBounds(total, ranks, r + 1, hi);
    FirstPreimageBounds(total, ranks, r, hi);
    FirstPreimageBounds(total, ranks, r + 1, total);
  }

  lemma ScaleIs(total: nat, ranks: nat, r: nat, m: nat)
    requires ranks > 0 && total > 0
    ensures Scale(total, ranks, m) == r <==> FirstPreimage(total, ranks, r) <= m < FirstPreimage(total, ranks, r + 1)
  {
    FloorIs(m * ranks, total, r);
    FirstPreimageBounds(total, ranks, r, m);
    FirstPreimageBounds(total, ranks, r + 1, m);
    assert (r + 1) * total == r * total + total;
  }

  /** Preimages of a rank under floor(m * ranks / total) form an interval of m. */
  lemma ScaleInterval(total: nat, ranks: nat, r: nat)
    requires ranks > 0 && total > 0 && r < ranks
    ensures FirstPreimage(total, ranks, r) <= FirstPreimage(total, ranks, r + 1)
    ensures |ScalePreimages(total, ranks, r)| == FirstPreimage(total, ranks, r + 1) - FirstPreimage(total, ranks, r)
  {
    var lo, hi := FirstPreimage(total, ranks, r), FirstPreimage(total, ranks, r + 1);
    FirstPreimageOrder(total, ranks, r);
    forall m: nat ensures m in ScalePreimages(total, ranks, r) <==> m in Interval(lo, hi) {
      ScaleIs(total, ranks, r, m);
    }
    assert ScalePreimages(total, ranks, r) == Interval(lo, hi);
  }

  /** Every rank has floor(total/ranks) preimages or one more. */
  lemma ScaleIsNearUniform(total: nat, ranks: nat, r: nat)
    requires ranks > 0 && total > 0 && r < ranks
    ensures total / ranks <= |ScalePreimages(total, ranks, r)| <= total / ranks + 1
  {
    ScaleInterval(total, ranks, r);
    FirstPreimageTight(total, ranks, r);
    FirstPreimageTight(total, ranks, r + 1);
    var lo, hi, q := FirstPreimage(total, ranks, r), FirstPreimage(total, ranks, r + 1), total / ranks;
    FloorIs(total, ranks, q);
    assert (r + 1) * total == r * total + total;
    NearQuotient(lo, hi, ranks, r * total, total, q);
  }

  lemma NearQuotient(lo: nat, hi: nat, ranks: nat, base: nat, total: nat, q: nat)
    requires lo <= hi
    requires base <= lo * ranks < base + ranks
    requires base + total <= hi * ranks < base + total + ranks
    requires q * ranks <= total < q * ranks + ranks
    ensures q <= hi - lo <= q + 1
  {
    var size := hi - lo;
    assert size * ranks == hi * ranks - lo * ranks;
    ScaleBoth(size + 1, q, ranks);
    ScaleBoth(q + 2, size, ranks);
    assert (size + 1) * ranks == size * ranks + ranks && (q + 2) * ranks == q * ranks + 2 * ranks;
  }

  /** The ranks below `n` that have one preimage more than the floor. */
  ghost function LargeRanks(total: nat, ranks: nat, n: nat): set<nat>
    requires ranks > 0 && total > 0
  {
    set r: nat | r < n && |ScalePreimages(total, ranks, r)| == total / ranks + 1
  }

  lemma LargeRanksStep(total: nat, ranks: nat, r: nat)
    requires ranks > 0 && total > 0 && r < ranks
    ensures |LargeRanks(total, ranks, r + 1)| == |LargeRanks(total, ranks, r)| + |ScalePreimages(total, ranks, r)| - total / ranks
  {
    ScaleIsNearUniform(total, ranks, r);
    var before, after := LargeRanks(total, ranks, r), LargeRanks(total, ranks, r + 1);
    if |ScalePreimages(total, ranks, r)| == total / ranks + 1 {
      assert after == before + {r};
    } else {
      assert after == before;
    }
  }

  lemma {:induction false} LargeRanksCount(total: nat, ranks: nat, n: nat)
    requires ranks > 0 && total > 0 && n <= ranks
    ensures |LargeRanks(total, ranks, n)| == FirstPreimage(total, ranks, n) - n * (total / ranks)
  {
    if n == 0 {
      assert LargeRanks(total, ranks, 0) == {};
      assert FirstPreimage(total, ranks, 0) == 0 by { FloorIs(ranks - 1, ranks, 0); }
    } else {
      LargeRanksCount(total, ranks, n - 1);
      LargeRanksStep(total, ranks, n - 1);
      ScaleInterval(total, ranks, n - 1);
      Successor(n - 1, total / ranks);
    }
  }

  lemma Successor(n: nat, q: nat)
    ensures (n + 1) * q == n * q + q
  {
  }

  /** Exactly total mod ranks of the ranks have the extra preimage. */
  lemma LargeRanksAreTheRemainder(total: nat, ranks: nat)
    requires ranks > 0 && total > 0
    ensures |LargeRanks(total, ranks, ranks)| == total % ranks
  {
    LargeRanksCount(total, ranks, ranks);
    FloorIs(ranks * total + ranks - 1, ranks, total);
    assert total == ranks * (total / ranks) + total % ranks;
  }

  // ----- the mapper -----

  /** The amounts 1..7 in order. */
  function Pool(): (pool: seq<nat>)
    ensures |pool| == 7 && forall i :: 0 <= i < 7 ==> pool[i] == i + 1
  {
    seq(7, (i: nat) => i + 1)
  }

  const ORDERS: nat := 5040

  lemma PoolFacts()
    ensures Factorial(7) == ORDERS && Factorial(|Pool()|) == ORDERS && Distinct(Pool())
  {
    assert Factorial(3) == 6;
    assert Factorial(5) == 120;
    assert Factorial(7) == 5040;
  }

  function Rank(seed: Seed): (rank: nat)
    ensures rank < ORDERS
  {
    Scale(SEEDS, ORDERS, SeedPermutation(seed))
  }

  function AmountOrder(seed: Seed): (order: seq<nat>)
    ensures |order| == 7
  {
    PoolFacts();
    DecodeRank(Pool(), Rank(seed))
  }

  lemma OrderElements(order: seq<nat>, pool: seq<nat>)
    requires IsOrderOf(order, pool)
    ensures forall i :: 0 <= i < |order| ==> order[i] in pool
  {
    forall i | 0 <= i < |order| ensures order[i] in pool {
      assert order[i] in multiset(order);
    }
  }

  /** Every order the mapper produces is a rearrangement of 1..7, so every amount is a real move. */
  lemma AmountOrderIsPermutation(seed: Seed)
    ensures IsOrderOf(AmountOrder(seed), Pool())
    ensures forall slot :: 0 <= slot < 7 ==> 1 <= AmountOrder(seed)[slot] <= 7
  {
    PoolFacts();
    DecodeIsOrder(Pool(), Rank(seed));
    OrderElements(AmountOrder(seed), Pool());
  }

  const FACTORIALS: seq<nat> := [1, 1, 2, 6, 24, 120, 720]

  lemma FactorialTable(n: nat)
    requires n < 7
    ensures FACTORIALS[n] == Factorial(n)
  {
    assert Factorial(2) == 2;
    assert Factorial(4) == 24;
    assert Factorial(6) == 720;
  }

  /** The seed's order, built by shifting the remaining pool in place. */
  method AmountPermutation(seed: Seed) returns (output: array<nat>)
    ensures fresh(output) && output[..] == AmountOrder(seed)
  {
    hide SeedPermutation, DecodeRank, Factorial, Scale;
    PoolFacts();
    var mixed := AmountSeedPermutation(seed);
    var rank: nat := Scale(SEEDS, ORDERS, mixed);
    ghost var order := AmountOrder(seed);
    assert order == DecodeRank(Pool(), rank) by { assert rank == Rank(seed); }
    hide *;
    var pool := new nat[7](i => i + 1);
    output := new nat[7];
    var remaining: nat := 7;
    assert pool[..remaining] == Pool();
    for position := 0 to 7
      invariant remaining == 7 - position
      invariant rank < Factorial(remaining)
      invariant order == output[..position] + DecodeRank(pool[..remaining], rank)
    {
      ghost var taken, before := output[..position], pool[..remaining];
      DecodeStep(before, rank);
      FactorialTable(remaining - 1);
      var block := FACTORIALS[remaining - 1];
      var index := Digit(rank, block);
      rank := Rest(rank, block);
      output[position] := pool[index];
      ShiftDown(pool, index, remaining);
      remaining := remaining - 1;
      Regroup(taken, before[index], DecodeRank(pool[..remaining], rank));
      assert output[..position + 1] == taken + [before[index]];
    }
    DecodeNothing(pool[..remaining], rank);
    assert output[..7] == output[..];
  }

  lemma Regroup<T>(a: seq<T>, x: T, b: seq<T>)
    ensures a + ([x] + b) == (a + [x]) + b
  {
  }

  /** Drops entry `index` of the first `remaining` by moving the later ones down. */
  method ShiftDown(pool: array<nat>, index: nat, remaining: nat)
    requires index < remaining <= pool.Length
    modifies pool
    ensures pool[..remaining - 1] == Without(old(pool[..remaining]), index)
  {
    ghost var before := pool[..remaining];
    for j := index to remaining - 1
      invariant forall k :: 0 <= k < j ==> pool[k] == Without(before, index)[k]
      invariant forall k :: j <= k < remaining ==> pool[k] == before[k]
    {
      pool[j] := pool[j + 1];
    }
  }

  // ----- how many seeds select each order -----

  ghost function SeedsOf(order: seq<nat>): set<nat> {
    set seed: Seed | seed < SEEDS && AmountOrder(seed) == order
  }

  ghost function AllOrders(): set<seq<nat>> {
    PoolFacts();
    set rank: nat | rank < ORDERS :: DecodeRank(Pool(), rank)
  }

  /** Nothing is left out: the 5040 decoded orders are all the rearrangements of 1..7. */
  lemma AllOrdersAreAll(order: seq<nat>)
    ensures order in AllOrders() <==> IsOrderOf(order, Pool())
  {
    PoolFacts();
    hide Factorial, DecodeRank, EncodeRank, Distinct;
    if IsOrderOf(order, Pool()) {
      DecodeEncode(Pool(), order);
      var rank := EncodeRank(Pool(), order);
      assert DecodeRank(Pool(), rank) in AllOrders();
    }
    if order in AllOrders() {
      var rank: nat :| rank < ORDERS && DecodeRank(Pool(), rank) == order;
      DecodeIsOrder(Pool(), rank);
    }
  }

  lemma SeedSelects(order: seq<nat>, seed: Seed)
    requires IsOrderOf(order, Pool())
    ensures AmountOrder(seed) == order <==> Rank(seed) == EncodeRank(Pool(), order)
  {
    PoolFacts();
    hide SeedPermutation, Scale, Factorial;
    EncodeDecode(Pool(), Rank(seed));
    DecodeEncode(Pool(), order);
  }

  lemma SeedsMatchScale(order: seq<nat>)
    requires IsOrderOf(order, Pool())
    ensures EncodeRank(Pool(), order) < ORDERS
    ensures |SeedsOf(order)| == |ScalePreimages(SEEDS, ORDERS, EncodeRank(Pool(), order))|
  {
    hide SeedPermutation, SeedInverse, EncodeRank, AmountOrder, Scale, Factorial;
    PoolFacts();
    var r := EncodeRank(Pool(), order);
    var seeds, scaled := SeedsOf(order), ScalePreimages(SEEDS, ORDERS, r);
    forall seed: Seed ensures seed in seeds <==> SeedPermutation(seed) in scaled {
      SeedSelects(order, seed);
    }
    var mix := (n: nat) => if n < SEEDS then SeedPermutation(n) else 0;
    forall a, b | a in seeds && b in seeds && mix(a) == mix(b) ensures a == b {
      SeedPermutationIsBijective(a);
      SeedPermutationIsBijective(b);
    }
    forall m | m in scaled ensures exists a :: a in seeds && mix(a) == m {
      SeedPermutationIsBijective(m);
      assert SeedInverse(m) in seeds && mix(SeedInverse(m)) == m;
    }
    ImageSize(seeds, scaled, mix);
  }

  /** Each of the 5040 orders is selected by exactly 13 or 14 of the 65536 seeds. */
  lemma EveryOrderHas13Or14Seeds(order: seq<nat>)
    requires IsOrderOf(order, Pool())
    ensures |SeedsOf(order)| == 13 || |SeedsOf(order)| == 14
  {
    SeedsMatchScale(order);
    ScaleIsNearUniform(SEEDS, ORDERS, EncodeRank(Pool(), order));
  }

  lemma DecodeIsInjective(a: nat, b: nat)
    requires a < ORDERS && b < ORDERS
    ensures Factorial(|Pool()|) == ORDERS
    ensures DecodeRank(Pool(), a) == DecodeRank(Pool(), b) ==> a == b
  {
    PoolFacts();
    EncodeDecode(Pool(), a);
    EncodeDecode(Pool(), b);
  }

  lemma HeavyOrder(rank: nat)
    requires rank < ORDERS
    ensures Factorial(|Pool()|) == ORDERS
    ensures DecodeRank(Pool(), rank) in AllOrders()
    ensures |SeedsOf(DecodeRank(Pool(), rank))| == |ScalePreimages(SEEDS, ORDERS, rank)|
  {
    PoolFacts();
    EncodeDecode(Pool(), rank);
    SeedsMatchScale(DecodeRank(Pool(), rank));
  }

  ghost function HeavyOrders(): set<seq<nat>> {
    set order | order in AllOrders() && |SeedsOf(order)| == 14
  }

  /** Exactly 16 of the 5040 orders are selected by 14 seeds, so the other 5024 by 13. */
  lemma Exactly16OrdersHave14Seeds()
    ensures |AllOrders()| == 5040
    ensures |HeavyOrders()| == 16
  {
    hide Factorial, DecodeRank, SeedsOf, ScalePreimages, Interval;
    PoolFacts();
    var decode := (rank: nat) => if rank < ORDERS then DecodeRank(Pool(), rank) else [];
    forall a: nat, b: nat | a < ORDERS && b < ORDERS && decode(a) == decode(b) ensures a == b {
      DecodeIsInjective(a, b);
    }
    forall order | order in AllOrders() ensures exists r :: r in Interval(0, ORDERS) && decode(r) == order {
      var r: nat :| r < ORDERS && DecodeRank(Pool(), r) == order;
      assert r in Interval(0, ORDERS) && decode(r) == order;
    }
    ImageSize(Interval(0, ORDERS), AllOrders(), decode);

    var large := LargeRanks(SEEDS, ORDERS, ORDERS);
    forall r: nat | r < ORDERS ensures r in large <==> decode(r) in HeavyOrders() {
      HeavyOrder(r);
    }
    forall order | order in HeavyOrders() ensures exists r :: r in large && decode(r) == order {
      var r: nat :| r < ORDERS && DecodeRank(Pool(), r) == order;
      assert r in large && decode(r) == order;
    }
    ImageSize(large, HeavyOrders(), decode);
    LargeRanksAreTheRemainder(SEEDS, ORDERS);
  }
}
