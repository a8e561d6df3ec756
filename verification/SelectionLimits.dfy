/** Where the selection engine breaks its promises, and exactly where it keeps them. */
module SelectionLimits {
  import opened Arithmetic
  import opened Seqs
  import opened Protocol
  import opened Randomness
  import opened Splitting
  import opened Allocation
  import opened CoinSelection
  import opened SelectionProperties

  // Sweeping extras is what lets the joint phase misallocate

  /** No extra shard is swept in beyond those the amount needs. */
  predicate NothingSwept(pool: seq<PoolItem>, amount: int, d: EngineDraws) {
    |Selected(pool, amount, d)| == PrimaryCount(Balances(pool), amount)
  }

  /** A selection without extras never misallocates, for any dust threshold and any draws. */
  lemma NothingSweptConserves(pool: seq<PoolItem>, amount: int, dust: int, d: EngineDraws)
    requires Request(pool, amount, dust) && Sum(Balances(pool)) >= amount && NothingSwept(pool, amount, d)
    ensures !EngineMisallocates(pool, amount, dust, d)
  {
    SelectedIsPayable(pool, amount, dust, d);
    PrimaryIsShortest(Balances(pool), amount);
    var b := Balances(Selected(pool, amount, d));
    if b != [] {
      assert b[..|b| - 1] == Balances(pool)[..|b| - 1];
    }
    ShortestSelectionIsSafe(b, amount, dust, d.alloc, 0);
  }

  /** In particular a wallet of at most three shards, which never sweeps. */
  lemma SmallWalletConserves(pool: seq<PoolItem>, amount: int, dust: int, d: EngineDraws)
    requires Request(pool, amount, dust) && Sum(Balances(pool)) >= amount && |pool| <= 3
    ensures !EngineMisallocates(pool, amount, dust, d)
  {
    NothingSweptConserves(pool, amount, dust, d);
  }

  const LAST_WORD: Draw := MAX_WORD - 1

  /** The draws of the failing wallet: the shuffle keeps the order and one extra shard is swept in. */
  function UnluckyDraws(rest: EngineDraws): EngineDraws {
    rest.(swap := _ => LAST_WORD, extra := 0)
  }

  lemma LastWordKeepsPlace(k: nat)
    requires 0 < k <= 4
    ensures Pick(LAST_WORD, k) == k - 1
  {}

  function FourItems(shards: seq<Shard>, x: int, y: int): seq<PoolItem>
    requires |shards| == 4
  {
    [PoolItem(shards[0], 100), PoolItem(shards[1], 1_000_000), PoolItem(shards[2], x), PoolItem(shards[3], y)]
  }

  lemma FourKeepTheirOrder(pool: seq<PoolItem>, rest: EngineDraws)
    requires |pool| == 4
    ensures Shuffle(pool, UnluckyDraws(rest).swap) == pool
  {
    LastWordKeepsPlace(4);
    LastWordKeepsPlace(3);
    LastWordKeepsPlace(2);
    var swap := UnluckyDraws(rest).swap;
    KeptInPlace(pool, 3, swap);
    KeptInPlace(pool, 2, swap);
    KeptInPlace(pool, 1, swap);
  }

  lemma KeptInPlace(pool: seq<PoolItem>, i: nat, swap: nat -> Draw)
    requires 0 < i < |pool| && Pick(swap(i), i + 1) == i
    ensures Shuffled(pool, i, swap) == Shuffled(pool, i - 1, swap)
  {
    assert pool[i := pool[i]][i := pool[i]] == pool;
  }

  /**
   A wallet that misallocates: of four shards, the first holds 100 and the second 1000000, 50 is to be paid
   at the default dust threshold of 10000, and one extra shard is swept in.
  */
  lemma FourShardsMisallocate(shards: seq<Shard>, x: int, y: int, rest: EngineDraws)
    requires |shards| == 4 && x > 0 && y > 0
    ensures var pool, d := FourItems(shards, x, y), UnluckyDraws(rest);
      && Shuffle(pool, d.swap) == pool
      && Request(pool, 50, 10_000) && Sum(Balances(pool)) >= 50
      && Selected(pool, 50, d) == pool[..2]
      && EngineMisallocates(pool, 50, 10_000, d)
  {
    var pool, d := FourItems(shards, x, y), UnluckyDraws(rest);
    FourKeepTheirOrder(pool, rest);
    var b := Balances(pool);
    assert b == [100, 1_000_000, x, y];
    SumDrop(b, 0);
    SumDrop(b, 1);
    SumDrop(b, 2);
    SumDrop(b, 3);
    assert b[0..] == b && b[4..] == [];
    assert PrimaryCount(b, 50) == 1;
    assert HalfRoot(4) == 1 by { OneIsHalfRoot(HalfRoot(4)); }
    assert Pick(0, 3) == 0;
    assert CompressionMetrics(4, 0, d.change).extra == 1;
    assert Balances(pool[..2]) == [100, 1_000_000];
    JointSplitBounds(50, d.alloc(0));
  }

  lemma OneIsHalfRoot(k: nat)
    ensures 4 * k * k <= 4 < 4 * (k + 1) * (k + 1) ==> k == 1
  {
    if k >= 2 { MulLe(2, k, 2); MulLe(2, k, k); }
  }

  // The promise that every spent shard has a payment and a change

  /** Every row of the plan has a payment output and a change output. */
  ghost predicate PaysAndKeepsChange(s: Selection) {
    && |s.paymentSplits| == |s.items| && |s.changeSplits| == |s.items|
    && forall i | 0 <= i < |s.items| :: s.paymentSplits[i] != [] && s.changeSplits[i] != []
  }

  lemma SplitsOrNothing(pool: int, maxOutputs: int, dust: int, d: SplitDraws)
    ensures Splits(pool, maxOutputs, dust, d) != [] <==> pool > 0
  {
    SplitsConserve(pool, maxOutputs, dust, d);
  }

  /** The promise of the file header, on a whole run of the engine: exactly when the guards of the loop leave both. */
  lemma PromiseHoldsExactly(pool: seq<PoolItem>, amount: int, maxSplits: int, dust: int, d: EngineDraws)
    requires Request(pool, amount, dust) && Sum(Balances(pool)) >= amount && dust > 0
    ensures Engine(pool, amount, maxSplits, dust, d).Ok?
    ensures PaysAndKeepsChange(Engine(pool, amount, maxSplits, dust, d).value)
       <==> LeavesBoth(Balances(Selected(pool, amount, d)), amount, dust, d.alloc, 0)
  {
    hide LeavesBoth, Targets, Sum, Splits, Selected, PrimaryCount, CompressionMetrics;
    SelectedIsPayable(pool, amount, dust, d);
    PlanConservesExactly(pool, amount, maxSplits, dust, d);
    var items := Selected(pool, amount, d);
    var b := Balances(items);
    EveryShardPaysAndKeepsChange(b, amount, dust, d.alloc, 0);
    var t := Targets(b, amount, dust, d.alloc, 0).value;
    PlanPaysAndKeeps(items, t, amount, maxSplits, CompressionMetrics(|pool|, d.extra, d.change).changePool, dust, d);
  }

  lemma PlanPaysAndKeeps(items: seq<PoolItem>, t: seq<int>, amount: int, maxSplits: int, changePool: int, dust: int, d: EngineDraws)
    requires |items| == |t|
    ensures PaysAndKeepsChange(PlanFor(items, t, amount, maxSplits, changePool, dust, d)) <==> BothPositive(t, Balances(items))
  {
    hide Splits;
    var s, b := PlanFor(items, t, amount, maxSplits, changePool, dust, d), Balances(items);
    forall i | 0 <= i < |items|
      ensures s.paymentSplits[i] != [] && s.changeSplits[i] != [] <==> 0 < t[i] < b[i]
    {
      SplitsOrNothing(t[i], maxSplits, dust, d.payment(i));
      SplitsOrNothing(items[i].balance - t[i], changePool, dust, d.changeSplit(i));
    }
  }

  /** It fails for every wallet that pays out all it has, whatever the draws: then no shard keeps any change. */
  lemma SpendingAllBreaksThePromise(pool: seq<PoolItem>, maxSplits: int, dust: int, d: EngineDraws)
    requires pool != [] && Request(pool, Sum(Balances(pool)), dust) && dust > 0
    ensures Engine(pool, Sum(Balances(pool)), maxSplits, dust, d).Ok?
    ensures !PaysAndKeepsChange(Engine(pool, Sum(Balances(pool)), maxSplits, dust, d).value)
  {
    var amount := Sum(Balances(pool));
    SelectedIsPayable(pool, amount, dust, d);
    PromiseHoldsExactly(pool, amount, maxSplits, dust, d);
    var items := Selected(pool, amount, d);
    var b := Balances(items);
    EveryShardPaysAndKeepsChange(b, amount, dust, d.alloc, 0);
    TargetsPayTheAmount(b, amount, dust, d.alloc, 0);
    assert b == Balances(pool)[..|b|];
    assert Balances(pool)[..|pool|] == Balances(pool);
    SumPrefixMonotone(Balances(pool), |b|, |pool|);
    SomethingIsSelected(pool, amount, d);
    assert !BothPositive(Targets(b, amount, dust, d.alloc, 0).value, b) by {
      SumsBelow(Targets(b, amount, dust, d.alloc, 0).value, b);
    }
  }

  lemma SomethingIsSelected(pool: seq<PoolItem>, amount: int, d: EngineDraws)
    requires pool != [] && Positive(Balances(pool)) && amount == Sum(Balances(pool))
    ensures Selected(pool, amount, d) != []
  {
    assert Balances(pool)[0] > 0;
    SumNonNegative(Balances(pool));
  }

  /** Smaller terms have a smaller sum. */
  lemma {:induction false} SumsBelow(t: seq<int>, b: seq<int>)
    requires |t| == |b|
    ensures (forall k | 0 <= k < |t| :: t[k] < b[k]) && t != [] ==> Sum(t) < Sum(b)
  {
    if t != [] && forall k | 0 <= k < |t| :: t[k] < b[k] {
      forall k | 0 <= k < |t| - 1 ensures t[1..][k] < b[1..][k] { assert t[k + 1] < b[k + 1]; }
      SumsBelow(t[1..], b[1..]);
    }
  }
}
