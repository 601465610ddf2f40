/** How often each amount is chosen: the amount of a move, counted over the transcript lane that enters its seed. */
module AmountChoice {
  import opened Foundations
  import opened Words
  import opened CubeGeometry
  import opened Machine
  import opened Injection
  import opened AmountMapper
  import opened ControllerA2

  // ----- orders with a given amount in a given slot -----

  ghost function OrdersWith(slot: nat, amount: nat): set<seq<nat>> {
    set order | order in AllOrders() && |order| == 7 && slot < 7 && order[slot] == amount
  }

  function Exchanged(order: seq<nat>, i: nat, j: nat): seq<nat>
    requires i < |order| && j < |order|
  {
    order[i := order[j]][j := order[i]]
  }

  lemma ExchangedTwice(order: seq<nat>, i: nat, j: nat)
    requires i < |order| && j < |order|
    ensures |Exchanged(order, i, j)| == |order|
    ensures Exchanged(Exchanged(order, i, j), i, j) == order
    ensures Exchanged(order, i, j)[j] == order[i]
    ensures multiset(Exchanged(order, i, j)) == multiset(order)
  {
  }

  lemma OrderFacts(order: seq<nat>)
    requires order in AllOrders()
    ensures |order| == 7 && IsOrderOf(order, Pool())
  {
    AllOrdersAreAll(order);
    SameLength(order, Pool());
  }

  lemma ExchangedIsOrder(order: seq<nat>, i: nat, j: nat)
    requires order in AllOrders() && i < 7 && j < 7
    ensures |order| == 7 && Exchanged(order, i, j) in AllOrders()
  {
    OrderFacts(order);
    ExchangedTwice(order, i, j);
    AllOrdersAreAll(Exchanged(order, i, j));
    hide AllOrders, Exchanged;
  }

  /** Exchanging two slots pairs the orders that hold an amount in the one with those that hold it in the other. */
  lemma SlotsAreAlike(i: nat, j: nat, amount: nat)
    requires i < 7 && j < 7
    ensures |OrdersWith(i, amount)| == |OrdersWith(j, amount)|
  {
    hide AllOrders, Exchanged;
    var f := (order: seq<nat>) => if |order| == 7 then Exchanged(order, i, j) else order;
    forall o | o in OrdersWith(i, amount) ensures f(o) in OrdersWith(j, amount) {
      ExchangedIsOrder(o, i, j);
      ExchangedTwice(o, i, j);
    }
    forall o, p | o in OrdersWith(i, amount) && p in OrdersWith(i, amount) && f(o) == f(p) ensures o == p {
      ExchangedTwice(o, i, j);
      ExchangedTwice(p, i, j);
    }
    forall o | o in OrdersWith(j, amount) ensures exists p :: p in OrdersWith(i, amount) && f(p) == o {
      ExchangedSymmetric(o, i, j);
      ExchangedIsOrder(o, i, j);
      ExchangedTwice(o, i, j);
      assert f(Exchanged(o, i, j)) == o;
    }
    ImageSize(OrdersWith(i, amount), OrdersWith(j, amount), f);
  }

  lemma ExchangedSymmetric(order: seq<nat>, i: nat, j: nat)
    requires i < |order| && j < |order|
    ensures |Exchanged(order, i, j)| == |order| && Exchanged(order, i, j)[i] == order[j]
  {
  }

  /** The orders that hold an amount in one of the first `n` slots. */
  ghost function OrdersBefore(n: nat, amount: nat): set<seq<nat>> {
    set order | order in AllOrders() && |order| == 7 && n <= 7 && amount in order[..n]
  }

  lemma HeldOnce(order: seq<nat>, amount: nat, i: nat, j: nat)
    requires order in AllOrders() && i < 7 && j < 7
    ensures |order| == 7
    ensures order[i] == amount && order[j] == amount ==> i == j
  {
    OrderFacts(order);
    hide AllOrders;
    if i != j && order[i] == amount && order[j] == amount {
      PositionsCount(order, amount);
      PositionsCount(Pool(), amount);
      assert Positions(Pool(), amount) <= {amount - 1};
      TwoPositions(Positions(order, amount), i, j);
      OneAtMost(Positions(Pool(), amount), amount - 1);
    }
  }

  lemma TwoPositions(s: set<nat>, i: nat, j: nat)
    requires i in s && j in s && i != j
    ensures |s| >= 2
  {
    assert |s - {i}| >= 1 by { assert j in s - {i}; }
  }

  lemma OneAtMost(s: set<nat>, i: int)
    requires forall k :: k in s ==> k == i
    ensures |s| <= 1
  {
    if s != {} {
      var k :| k in s;
      assert s == {k};
    }
  }

  lemma {:induction false} OrdersBeforeCount(n: nat, amount: nat)
    requires n <= 7
    ensures |OrdersBefore(n, amount)| == n * |OrdersWith(0, amount)|
  {
    hide AllOrders;
    if n == 0 {
      assert OrdersBefore(0, amount) == {};
    } else {
      OrdersBeforeCount(n - 1, amount);
      SlotsAreAlike(0, n - 1, amount);
      var (before, here) := (OrdersBefore(n - 1, amount), OrdersWith(n - 1, amount));
      OneMoreSlot(n, amount);
      Successor(n - 1, |OrdersWith(0, amount)|);
    }
  }

  lemma OneMoreSlot(n: nat, amount: nat)
    requires 0 < n <= 7
    ensures |OrdersBefore(n, amount)| == |OrdersBefore(n - 1, amount)| + |OrdersWith(n - 1, amount)|
  {
    hide AllOrders;
    var (before, here) := (OrdersBefore(n - 1, amount), OrdersWith(n - 1, amount));
    forall o | o in before ensures o !in here {
      var i: nat :| i < n - 1 && o[i] == amount;
      HeldOnce(o, amount, i, n - 1);
    }
    forall o ensures o in OrdersBefore(n, amount) <==> o in before || o in here {
      if |o| == 7 { assert o[..n] == o[..n - 1] + [o[n - 1]]; }
    }
    assert OrdersBefore(n, amount) == before + here;
    assert before !! here;
  }

  lemma HeldSomewhere<T>(order: seq<T>, pool: seq<T>, i: nat)
    requires IsOrderOf(order, pool) && i < |pool|
    ensures pool[i] in order
  {
    assert pool[i] in multiset(pool);
  }

  /** Each amount stands in each slot of 720 of the 5040 orders. */
  lemma EachSlotHolds720(slot: nat, amount: nat)
    requires slot < 7 && 1 <= amount <= 7
    ensures |OrdersWith(slot, amount)| == 720
  {
    hide AllOrders;
    SlotsAreAlike(slot, 0, amount);
    OrdersBeforeCount(7, amount);
    forall o ensures o in OrdersBefore(7, amount) <==> o in AllOrders() {
      if o in AllOrders() {
        OrderFacts(o);
        HeldSomewhere(o, Pool(), amount - 1);
        assert o[..7] == o;
      }
    }
    assert OrdersBefore(7, amount) == AllOrders();
    Exactly16OrdersHave14Seeds();
  }

  // ----- seeds of a set of orders -----

  ghost function SeedsIn(orders: set<seq<nat>>): set<nat> {
    set seed: Seed | seed < SEEDS && AmountOrder(seed) in orders
  }

  lemma {:induction false} SeedsInCount(orders: set<seq<nat>>)
    requires orders <= AllOrders()
    ensures 13 * |orders| <= |SeedsIn(orders)| <= 14 * |orders|
    decreases |orders|
  {
    hide AllOrders, AmountOrder;
    if orders == {} {
      assert SeedsIn(orders) == {};
    } else {
      var order :| order in orders;
      var others := orders - {order};
      SeedsInCount(others);
      OrderFacts(order);
      EveryOrderHas13Or14Seeds(order);
      assert SeedsIn(orders) == SeedsIn(others) + SeedsOf(order);
      assert SeedsIn(others) !! SeedsOf(order);
      assert |orders| == |others| + 1;
    }
  }

  /** The seeds whose order holds the amount in the slot. */
  ghost function SeedsHolding(slot: nat, amount: nat): set<nat>
    requires slot < 7
  {
    set seed: Seed | seed < SEEDS && AmountOrder(seed)[slot] == amount
  }

  /** Each amount stands in each slot of the orders of at least 13 * 720 and at most 14 * 720 seeds. */
  lemma SeedsHoldingCount(slot: nat, amount: nat)
    requires slot < 7 && 1 <= amount <= 7
    ensures 13 * 720 <= |SeedsHolding(slot, amount)| <= 14 * 720
  {
    hide AllOrders, AmountOrder;
    EachSlotHolds720(slot, amount);
    SeedsInCount(OrdersWith(slot, amount));
    forall seed: Seed ensures AmountOrder(seed) in AllOrders() {
      AmountOrderIsPermutation(seed);
      AllOrdersAreAll(AmountOrder(seed));
    }
    assert SeedsHolding(slot, amount) == SeedsIn(OrdersWith(slot, amount));
  }

  // ----- the lane of the transcript -----

  /** The 16-bit word with a given number. */
  function WordOf(n: Seed): bv16 {
    Pair(Split(n).1, Split(n).0)
  }

  lemma WordNumber(n: Seed, w: bv16)
    ensures SeedNumber(WordOf(n)) == n
    ensures WordOf(SeedNumber(w)) == w
  {
    hide Pair, Byte16, Split, Join;
    PairBytes(Split(n).1, Split(n).0);
    SplitJoin(n);
    JoinSplit((Byte16(w, 1), Byte16(w, 0)));
    BytesPair(w);
  }

  /** The transcript with lane `k` replaced. */
  function WithLane(t: bv64, k: nat, w: bv16): bv64
    requires k < 4
  {
    if k == 0 then Put0(t, w) else if k == 1 then Put1(t, w) else if k == 2 then Put2(t, w) else Put3(t, w)
  }

  function Put0(t: bv64, w: bv16): bv64 {
    (t & 0xFFFF_FFFF_FFFF_0000) | (w as bv64)
  }

  function Put1(t: bv64, w: bv16): bv64 {
    (t & 0xFFFF_FFFF_0000_FFFF) | ((w as bv64) << 16)
  }

  function Put2(t: bv64, w: bv16): bv64 {
    (t & 0xFFFF_0000_FFFF_FFFF) | ((w as bv64) << 32)
  }

  function Put3(t: bv64, w: bv16): bv64 {
    (t & 0x0000_FFFF_FFFF_FFFF) | ((w as bv64) << 48)
  }

  lemma LaneRead(t: bv64, k: nat, w: bv16)
    requires k < 4
    ensures LaneAt(WithLane(t, k, w), k) == w
  {
    hide LaneAt, Put0, Put1, Put2, Put3;
    LaneRead0(t, w);
    LaneRead1(t, w);
    LaneRead2(t, w);
    LaneRead3(t, w);
  }

  lemma LaneRead0(t: bv64, w: bv16)
    ensures LaneAt(Put0(t, w), 0) == w
  {
    LaneCases(Put0(t, w));
    hide LaneAt;
  }

  lemma LaneRead1(t: bv64, w: bv16)
    ensures LaneAt(Put1(t, w), 1) == w
  {
    LaneCases(Put1(t, w));
    hide LaneAt;
  }

  lemma LaneRead2(t: bv64, w: bv16)
    ensures LaneAt(Put2(t, w), 2) == w
  {
    LaneCases(Put2(t, w));
    hide LaneAt;
  }

  lemma LaneRead3(t: bv64, w: bv16)
    ensures LaneAt(Put3(t, w), 3) == w
  {
    LaneCases(Put3(t, w));
    hide LaneAt;
  }

  lemma LaneCases(t: bv64)
    ensures LaneAt(t, 0) == Low16(t)
    ensures LaneAt(t, 1) == Low16(t >> 16)
    ensures LaneAt(t, 2) == Low16(t >> 32)
    ensures LaneAt(t, 3) == Low16(t >> 48)
  {
  }

  lemma ByteCases(t: bv64)
    ensures ByteAt(t, 0) == Low8(t)
    ensures ByteAt(t, 1) == Low8(t >> 8)
    ensures ByteAt(t, 2) == Low8(t >> 16)
    ensures ByteAt(t, 3) == Low8(t >> 24)
    ensures ByteAt(t, 4) == Low8(t >> 32)
    ensures ByteAt(t, 5) == Low8(t >> 40)
    ensures ByteAt(t, 6) == Low8(t >> 48)
    ensures ByteAt(t, 7) == Low8(t >> 56)
  {
  }

  lemma Kept0(t: bv64, w: bv16)
    ensures ByteAt(Put0(t, w), 2) == ByteAt(t, 2) && ByteAt(Put0(t, w), 3) == ByteAt(t, 3)
    ensures ByteAt(Put0(t, w), 4) == ByteAt(t, 4) && ByteAt(Put0(t, w), 5) == ByteAt(t, 5)
    ensures ByteAt(Put0(t, w), 6) == ByteAt(t, 6) && ByteAt(Put0(t, w), 7) == ByteAt(t, 7)
  {
    ByteCases(t);
    ByteCases(Put0(t, w));
    hide ByteAt;
  }

  lemma Kept1(t: bv64, w: bv16)
    ensures ByteAt(Put1(t, w), 0) == ByteAt(t, 0) && ByteAt(Put1(t, w), 1) == ByteAt(t, 1)
    ensures ByteAt(Put1(t, w), 4) == ByteAt(t, 4) && ByteAt(Put1(t, w), 5) == ByteAt(t, 5)
    ensures ByteAt(Put1(t, w), 6) == ByteAt(t, 6) && ByteAt(Put1(t, w), 7) == ByteAt(t, 7)
  {
    ByteCases(t);
    ByteCases(Put1(t, w));
    hide ByteAt;
  }

  lemma Kept2(t: bv64, w: bv16)
    ensures ByteAt(Put2(t, w), 0) == ByteAt(t, 0) && ByteAt(Put2(t, w), 1) == ByteAt(t, 1)
    ensures ByteAt(Put2(t, w), 2) == ByteAt(t, 2) && ByteAt(Put2(t, w), 3) == ByteAt(t, 3)
    ensures ByteAt(Put2(t, w), 6) == ByteAt(t, 6) && ByteAt(Put2(t, w), 7) == ByteAt(t, 7)
  {
    ByteCases(t);
    ByteCases(Put2(t, w));
    hide ByteAt;
  }

  lemma Kept3(t: bv64, w: bv16)
    ensures ByteAt(Put3(t, w), 0) == ByteAt(t, 0) && ByteAt(Put3(t, w), 1) == ByteAt(t, 1)
    ensures ByteAt(Put3(t, w), 2) == ByteAt(t, 2) && ByteAt(Put3(t, w), 3) == ByteAt(t, 3)
    ensures ByteAt(Put3(t, w), 4) == ByteAt(t, 4) && ByteAt(Put3(t, w), 5) == ByteAt(t, 5)
  {
    ByteCases(t);
    ByteCases(Put3(t, w));
    hide ByteAt;
  }

  /** Replacing lane 0 keeps bytes 2..7, and so on. */
  lemma KeptBytes(t: bv64, w: bv16, k: nat)
    requires k < 4
    ensures k != 0 ==> ByteAt(WithLane(t, k, w), 0) == ByteAt(t, 0) && ByteAt(WithLane(t, k, w), 1) == ByteAt(t, 1)
    ensures k != 1 ==> ByteAt(WithLane(t, k, w), 2) == ByteAt(t, 2) && ByteAt(WithLane(t, k, w), 3) == ByteAt(t, 3)
    ensures k != 2 ==> ByteAt(WithLane(t, k, w), 4) == ByteAt(t, 4) && ByteAt(WithLane(t, k, w), 5) == ByteAt(t, 5)
    ensures k != 3 ==> ByteAt(WithLane(t, k, w), 6) == ByteAt(t, 6) && ByteAt(WithLane(t, k, w), 7) == ByteAt(t, 7)
  {
    hide ByteAt, Put0, Put1, Put2, Put3;
    Kept0(t, w);
    Kept1(t, w);
    Kept2(t, w);
    Kept3(t, w);
  }

  /** A byte outside the lane is kept. */
  lemma OtherBytesKept(t: bv64, k: nat, w: bv16, i: nat)
    requires k < 4 && i % 8 / 2 != k
    ensures Byte64(WithLane(t, k, w), i) == Byte64(t, i)
  {
    KeptBytes(t, w, k);
    hide ByteAt, WithLane;
    var j := i % 8;
    assert j == 0 || j == 1 || j == 2 || j == 3 || j == 4 || j == 5 || j == 6 || j == 7;
  }

  // ----- the amount, over all values of the lane -----

  function WithLaneValue(x: Context<ControllerState>, s: Seed): Context<ControllerState> {
    x.(injected := x.injected.(transcript := WithLane(x.injected.transcript, x.phase % 4, WordOf(s))))
  }

  /** Whether the amount word leaves the lane alone that enters the seed of its phase. */
  predicate AmountWordIgnoresLane(phase: Phase) {
    phase % 8 != 3 && phase % 8 != 4
  }

  /** Whether the folded slot, for which a raw slot of 7 is exchanged, leaves that lane alone too. */
  predicate FoldIgnoresLane(phase: Phase) {
    phase % 8 != 5 && phase % 8 != 6
  }

  lemma WholeTurns(q: nat, n: nat)
    ensures (8 * q + n) % 8 == n % 8
    ensures (8 * q + n) % 4 == n % 4
  {
  }

  lemma OtherLanes(phase: Phase)
    ensures AmountWordIgnoresLane(phase) ==> (phase + 4) % 8 / 2 != phase % 4
    ensures AmountWordIgnoresLane(phase) && FoldIgnoresLane(phase) ==> (phase + 6) % 8 / 2 != phase % 4
  {
    var (q, r) := (phase / 8, phase % 8);
    WholeTurns(q, r);
    WholeTurns(q, r + 4);
    WholeTurns(q, r + 6);
    assert phase == 8 * q + r;
    assert r == 0 || r == 1 || r == 2 || r == 3 || r == 4 || r == 5 || r == 6 || r == 7;
  }

  lemma SameAmountWord(x: Context<ControllerState>, axis: Axis, probed: seq<byte>, s: Seed)
    requires AmountWordIgnoresLane(x.phase)
    ensures AmountWord(WithLaneValue(x, s), axis, probed) == AmountWord(x, axis, probed)
  {
    OtherLanes(x.phase);
    hide AmountWordIgnoresLane, AmountWordFrom, Byte64, WithLane, WordOf;
    OtherBytesKept(x.injected.transcript, x.phase % 4, WordOf(s), x.phase + 4);
  }

  lemma SameFoldedSlot(x: Context<ControllerState>, axis: Axis, probed: seq<byte>, s: Seed)
    requires AmountWordIgnoresLane(x.phase) && FoldIgnoresLane(x.phase)
    ensures FoldedSlot(WithLaneValue(x, s), axis, probed) == FoldedSlot(x, axis, probed)
  {
    OtherBytesKept(x.injected.transcript, x.phase % 4, WordOf(s), x.phase + 6);
    hide Nth, Byte64, WithLane, WordOf, Rotl8, AxisCode;
  }

  lemma SameRawSlot(x: Context<ControllerState>, axis: Axis, probed: seq<byte>, s: Seed)
    requires AmountWordIgnoresLane(x.phase)
    ensures RawSlot(WithLaneValue(x, s), axis, probed) == RawSlot(x, axis, probed)
  {
    SameAmountWord(x, axis, probed, s);
    hide WithLane, WordOf, AmountWord, SlotMask, SlotOf;
  }

  lemma SameSlot(x: Context<ControllerState>, axis: Axis, probed: seq<byte>, s: Seed)
    requires AmountWordIgnoresLane(x.phase) && (FoldIgnoresLane(x.phase) || RawSlot(x, axis, probed) != 7)
    ensures AmountSlot(WithLaneValue(x, s), axis, probed) == AmountSlot(x, axis, probed)
  {
    hide RawSlot, FoldedSlot, WithLaneValue;
    SameRawSlot(x, axis, probed, s);
    if FoldIgnoresLane(x.phase) { SameFoldedSlot(x, axis, probed, s); }
  }

  /** What the lane is mixed with. */
  function SeedMask(x: Context<ControllerState>, axis: Axis, probed: seq<byte>): bv16 {
    Xor16(AmountWord(x, axis, probed), TurnedPack(x.cursor, axis, probed))
  }

  function MaskedSeed(mask: bv16, s: Seed): Seed {
    SeedNumber(Xor16(mask, WordOf(s)))
  }

  lemma XorTwice(mask: bv16, w: bv16)
    ensures Xor16(mask, Xor16(mask, w)) == w
  {
  }

  lemma MaskedTwice(mask: bv16, s: Seed)
    ensures MaskedSeed(mask, MaskedSeed(mask, s)) == s
  {
    hide SeedNumber, WordOf, Xor16;
    WordNumber(s, Xor16(mask, WordOf(s)));
    XorTwice(mask, WordOf(s));
  }

  lemma LaneEnters(x: Context<ControllerState>, axis: Axis, probed: seq<byte>, s: Seed)
    ensures PermutationSeed(WithLaneValue(x, s), axis, probed)
            == SeedNumber(Xor16(Xor16(AmountWord(WithLaneValue(x, s), axis, probed), TurnedPack(x.cursor, axis, probed)), WordOf(s)))
  {
    LaneRead(x.injected.transcript, x.phase % 4, WordOf(s));
    hide SeedNumber, AmountWord, TurnedPack, LaneAt, WordOf, WithLane, Xor16;
  }

  lemma LaneIsSeed(x: Context<ControllerState>, axis: Axis, probed: seq<byte>, s: Seed)
    requires AmountWordIgnoresLane(x.phase)
    ensures PermutationSeed(WithLaneValue(x, s), axis, probed) == MaskedSeed(SeedMask(x, axis, probed), s)
  {
    SameAmountWord(x, axis, probed, s);
    LaneEnters(x, axis, probed, s);
    hide AmountWord, SeedNumber, Xor16, TurnedPack, WordOf, WithLaneValue, PermutationSeed;
  }

  /** The lane values for which the move is by `amount`. */
  ghost function LanesChoosing(x: Context<ControllerState>, axis: Axis, probed: seq<byte>, scanned: seq<byte>, amount: nat): set<nat> {
    set s: Seed | s < SEEDS && ChooseAmount(WithLaneValue(x, s), axis, probed, scanned) == amount
  }

  lemma LaneChooses(x: Context<ControllerState>, axis: Axis, probed: seq<byte>, scanned: seq<byte>, s: Seed)
    requires AmountWordIgnoresLane(x.phase) && (FoldIgnoresLane(x.phase) || RawSlot(x, axis, probed) != 7)
    ensures ChooseAmount(WithLaneValue(x, s), axis, probed, scanned)
            == AmountOrder(MaskedSeed(SeedMask(x, axis, probed), s))[AmountSlot(x, axis, probed)]
  {
    hide AmountOrder, MaskedSeed, PermutationSeed, AmountSlot, RawSlot, WithLaneValue, SeedMask;
    LaneIsSeed(x, axis, probed, s);
    SameSlot(x, axis, probed, s);
  }

  /** Over the 65536 values of the transcript lane that enters its seed, all else fixed, a move is by each of the
      seven amounts at least 9360 and at most 10080 times. */
  lemma EachAmountIsChosen(x: Context<ControllerState>, axis: Axis, probed: seq<byte>, scanned: seq<byte>, amount: nat)
    requires 1 <= amount <= 7
    requires AmountWordIgnoresLane(x.phase) && (FoldIgnoresLane(x.phase) || RawSlot(x, axis, probed) != 7)
    ensures 13 * 720 <= |LanesChoosing(x, axis, probed, scanned, amount)| <= 14 * 720
  {
    var (mask, slot) := (SeedMask(x, axis, probed), AmountSlot(x, axis, probed));
    hide SeedMask, AmountSlot, MaskedSeed, ChooseAmount, AmountOrder, RawSlot, AmountWordIgnoresLane, FoldIgnoresLane, WithLaneValue;
    var (lanes, seeds) := (LanesChoosing(x, axis, probed, scanned, amount), SeedsHolding(slot, amount));
    var f := (n: nat) => if n < SEEDS then MaskedSeed(mask, n) else 0;
    forall s: Seed ensures s in lanes <==> f(s) in seeds {
      LaneChooses(x, axis, probed, scanned, s);
    }
    forall s, r | s in lanes && r in lanes && f(s) == f(r) ensures s == r {
      MaskedTwice(mask, s);
      MaskedTwice(mask, r);
    }
    forall n | n in seeds ensures exists s :: s in lanes && f(s) == n {
      MaskedTwice(mask, n);
      assert f(f(n)) == n;
      assert f(n) in lanes;
    }
    ImageSize(lanes, seeds, f);
    SeedsHoldingCount(slot, amount);
  }

  // ----- the two phases in which the lane cancels -----

  lemma TopByteIsLane(t: bv64, w: bv16)
    ensures ByteAt(Put3(t, w), 7) == Byte16(w, 1)
  {
    ByteCases(Put3(t, w));
    hide ByteAt;
  }

  lemma LowByteIsLane(t: bv64, w: bv16)
    ensures ByteAt(Put0(t, w), 0) == Byte16(w, 0)
  {
    ByteCases(Put0(t, w));
    hide ByteAt;
  }

  lemma TranscribedByte(x: Context<ControllerState>, s: Seed)
    ensures x.phase % 8 == 3 ==> Byte64(WithLaneValue(x, s).injected.transcript, x.phase + 4) == Byte16(WordOf(s), 1)
    ensures x.phase % 8 == 4 ==> Byte64(WithLaneValue(x, s).injected.transcript, x.phase + 4) == Byte16(WordOf(s), 0)
  {
    TopByteIsLane(x.injected.transcript, WordOf(s));
    LowByteIsLane(x.injected.transcript, WordOf(s));
    hide ByteAt, Put0, Put1, Put2, Put3, WordOf, Byte16;
  }

  /** The seed word with the two terms the lane enters by: a doubled byte and the lane itself. */
  function SeedWord(turned: bv16, high: bv16, b: byte, code: bv16, pack: bv16, w: bv16): bv16 {
    Xor16(Xor16(Xor16(turned, Xor16(Xor16(high, Twice(b)), code)), pack), w)
  }

  /** The seed word without them. */
  function SeedBase(turned: bv16, high: bv16, code: bv16, pack: bv16): bv16 {
    Xor16(Xor16(turned, Xor16(high, code)), pack)
  }

  function HighByte(w: bv16): byte {
    Low8((w >> 8) as bv64)
  }

  function LowByte(w: bv16): byte {
    Low8(w as bv64)
  }

  lemma TwiceIsPair(b: byte)
    ensures Twice(b) == (b as bv16) | ((b as bv16) << 8)
  {
  }

  lemma HalvesOf(w: bv16)
    ensures Byte16(w, 1) == HighByte(w) && Byte16(w, 0) == LowByte(w)
  {
  }

  lemma HighCancels(turned: bv16, high: bv16, code: bv16, pack: bv16, w: bv16)
    ensures HighByte(SeedWord(turned, high, HighByte(w), code, pack, w)) == HighByte(SeedBase(turned, high, code, pack))
  {
    TwiceIsPair(HighByte(w));
    hide Twice;
  }

  lemma LowCancels(turned: bv16, high: bv16, code: bv16, pack: bv16, w: bv16)
    ensures LowByte(SeedWord(turned, high, LowByte(w), code, pack, w)) == LowByte(SeedBase(turned, high, code, pack))
  {
    TwiceIsPair(LowByte(w));
    hide Twice;
  }

  lemma ByteCancels(turned: bv16, high: bv16, code: bv16, pack: bv16, w: bv16)
    ensures Byte16(SeedWord(turned, high, Byte16(w, 1), code, pack, w), 1) == Byte16(SeedBase(turned, high, code, pack), 1)
    ensures Byte16(SeedWord(turned, high, Byte16(w, 0), code, pack, w), 0) == Byte16(SeedBase(turned, high, code, pack), 0)
  {
    hide *;
    HalvesOf(w);
    HalvesOf(SeedWord(turned, high, Byte16(w, 1), code, pack, w));
    HalvesOf(SeedWord(turned, high, Byte16(w, 0), code, pack, w));
    HalvesOf(SeedBase(turned, high, code, pack));
    HighCancels(turned, high, code, pack, w);
    LowCancels(turned, high, code, pack, w);
  }

  lemma AddTurnParts(v: bv16, offset: bv16, n: nat, mask: bv16)
    ensures AddTurnXor(v, offset, n, mask) == Xor16(Rotl16(Plus16(v, offset), n), mask)
  {
    hide Rotl16, Plus16;
  }

  /** The amount control added to the probes and turned. */
  function TurnedAmount(x: Context<ControllerState>, probed: seq<byte>): bv16 {
    Rotl16(Plus16(x.injected.amount, AmountWordPair(x.injected.axis, probed)), AmountTurn(x.phase, Nth(probed, 3)))
  }

  /** The seed word of a context when the transcript gives byte `b` to the amount word and lane `w` to the seed. */
  function SeedWordOf(x: Context<ControllerState>, axis: Axis, probed: seq<byte>, b: byte, w: bv16): bv16 {
    SeedWord(TurnedAmount(x, probed), HighHalf(x.injected.feedback), b, AmountCode(axis, x.domain),
             TurnedPack(x.cursor, axis, probed), w)
  }

  function SeedBaseOf(x: Context<ControllerState>, axis: Axis, probed: seq<byte>): bv16 {
    SeedBase(TurnedAmount(x, probed), HighHalf(x.injected.feedback), AmountCode(axis, x.domain), TurnedPack(x.cursor, axis, probed))
  }

  lemma AmountWordParts(x: Context<ControllerState>, axis: Axis, probed: seq<byte>, b: byte)
    ensures AmountWordFrom(x.injected.axis, x.injected.amount, x.injected.feedback, b, x.phase, x.domain, axis, probed)
            == Xor16(TurnedAmount(x, probed), Xor16(Xor16(HighHalf(x.injected.feedback), Twice(b)), AmountCode(axis, x.domain)))
  {
    hide AddTurnXor, Rotl16, Plus16, AmountWordPair, AmountTurn, HighHalf, Twice, AmountCode, Nth, Xor16;
    AddTurnParts(x.injected.amount, AmountWordPair(x.injected.axis, probed), AmountTurn(x.phase, Nth(probed, 3)),
      AmountWordMix(x.injected.feedback, b, x.domain, axis));
  }

  lemma SeedIsWord(x: Context<ControllerState>, axis: Axis, probed: seq<byte>, s: Seed)
    ensures PermutationSeed(WithLaneValue(x, s), axis, probed)
            == SeedNumber(SeedWordOf(x, axis, probed, Byte64(WithLaneValue(x, s).injected.transcript, x.phase + 4), WordOf(s)))
  {
    hide SeedNumber, PermutationSeed, AmountWordFrom, TurnedPack, TurnedAmount, HighHalf, AmountCode, Twice, WordOf, WithLane, Byte64, Xor16;
    LaneEnters(x, axis, probed, s);
    AmountWordParts(x, axis, probed, Byte64(WithLaneValue(x, s).injected.transcript, x.phase + 4));
  }

  /** In phase 3 of eight the high byte of the seed does not depend on the lane, in phase 4 the low byte: the byte of
      the amount word and the lane cancel. */
  lemma LaneCancels(x: Context<ControllerState>, axis: Axis, probed: seq<byte>, s: Seed, r: Seed)
    ensures x.phase % 8 == 3 ==>
              PermutationSeed(WithLaneValue(x, s), axis, probed) / 256 == PermutationSeed(WithLaneValue(x, r), axis, probed) / 256
    ensures x.phase % 8 == 4 ==>
              PermutationSeed(WithLaneValue(x, s), axis, probed) % 256 == PermutationSeed(WithLaneValue(x, r), axis, probed) % 256
  {
    LaneCancelsTo(x, axis, probed, s);
    LaneCancelsTo(x, axis, probed, r);
    hide *;
  }

  lemma LaneCancelsTo(x: Context<ControllerState>, axis: Axis, probed: seq<byte>, s: Seed)
    ensures x.phase % 8 == 3 ==>
              PermutationSeed(WithLaneValue(x, s), axis, probed) / 256 == Byte16(SeedBaseOf(x, axis, probed), 1) as nat
    ensures x.phase % 8 == 4 ==>
              PermutationSeed(WithLaneValue(x, s), axis, probed) % 256 == Byte16(SeedBaseOf(x, axis, probed), 0) as nat
  {
    SeedIsWord(x, axis, probed, s);
    TranscribedByte(x, s);
    WordCancels(x, axis, probed, WordOf(s));
    hide *;
    NumberBytes(SeedWordOf(x, axis, probed, Byte16(WordOf(s), 1), WordOf(s)));
    NumberBytes(SeedWordOf(x, axis, probed, Byte16(WordOf(s), 0), WordOf(s)));
  }

  lemma WordCancels(x: Context<ControllerState>, axis: Axis, probed: seq<byte>, w: bv16)
    ensures Byte16(SeedWordOf(x, axis, probed, Byte16(w, 1), w), 1) == Byte16(SeedBaseOf(x, axis, probed), 1)
    ensures Byte16(SeedWordOf(x, axis, probed, Byte16(w, 0), w), 0) == Byte16(SeedBaseOf(x, axis, probed), 0)
  {
    hide SeedWord, SeedBase, Byte16, TurnedPack, TurnedAmount, HighHalf, AmountCode;
    ByteCancels(TurnedAmount(x, probed), HighHalf(x.injected.feedback), AmountCode(axis, x.domain), TurnedPack(x.cursor, axis, probed), w);
  }

  lemma NumberBytes(w: bv16)
    ensures SeedNumber(w) / 256 == Byte16(w, 1) as nat && SeedNumber(w) % 256 == Byte16(w, 0) as nat
  {
    hide Byte16;
  }

  /** Some value of the lane gives this seed. */
  ghost predicate IsReached(x: Context<ControllerState>, axis: Axis, probed: seq<byte>, m: Seed) {
    exists s: Seed :: IsSeedOf(x, axis, probed, s, m)
  }

  predicate IsSeedOf(x: Context<ControllerState>, axis: Axis, probed: seq<byte>, s: Seed, m: Seed) {
    PermutationSeed(WithLaneValue(x, s), axis, probed) == m
  }

  /** The lane reaches every seed exactly in the phases other than 3 and 4 of eight. */
  lemma LaneReachesEverySeed(x: Context<ControllerState>, axis: Axis, probed: seq<byte>)
    ensures (forall m: Seed :: IsReached(x, axis, probed, m)) <==> AmountWordIgnoresLane(x.phase)
  {
    hide PermutationSeed, WithLaneValue, MaskedSeed, SeedMask;
    if AmountWordIgnoresLane(x.phase) {
      var mask := SeedMask(x, axis, probed);
      forall m: Seed ensures IsReached(x, axis, probed, m) {
        LaneIsSeed(x, axis, probed, MaskedSeed(mask, m));
        MaskedTwice(mask, m);
        assert IsSeedOf(x, axis, probed, MaskedSeed(mask, m), m);
      }
    } else {
      NotBothReached(x, axis, probed);
    }
  }

  lemma NotBothReached(x: Context<ControllerState>, axis: Axis, probed: seq<byte>)
    requires !AmountWordIgnoresLane(x.phase)
    ensures !IsReached(x, axis, probed, 0) || !IsReached(x, axis, probed, 257)
  {
    hide PermutationSeed, WithLaneValue;
    if IsReached(x, axis, probed, 0) && IsReached(x, axis, probed, 257) {
      var s: Seed :| IsSeedOf(x, axis, probed, s, 0);
      var r: Seed :| IsSeedOf(x, axis, probed, r, 257);
      LaneCancels(x, axis, probed, s, r);
    }
  }
}
