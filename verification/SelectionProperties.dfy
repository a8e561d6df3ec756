/** What every run of the selection engine guarantees. */
module SelectionProperties {
  import opened Seqs
  import opened Protocol
  import opened Randomness
  import opened Splitting
  import opened Allocation
  import opened CoinSelection

  function ItemBalance(item: PoolItem): int { item.balance }

  lemma {:induction false} SumBalances(pool: seq<PoolItem>)
    ensures Sum(Balances(pool)) == SumBy(pool, ItemBalance)
  {
    if pool != [] {
      SumBalances(pool[1..]);
      assert Balances(pool)[1..] == Balances(pool[1..]);
    }
  }

  lemma SumPrefixMonotone(b: seq<int>, j: nat, k: nat)
    requires Positive(b) && j <= k <= |b|
    ensures Sum(b[..j]) <= Sum(b[..k])
  {
    assert b[..k] == b[..j] + b[j..k];
    SumAppend(b[..j], b[j..k]);
    SumNonNegative(b[j..k]);
  }

  /** The pool of shards with a positive balance, a non-negative amount and threshold: what callers pass. */
  ghost predicate Request(pool: seq<PoolItem>, amount: int, dust: int) {
    Positive(Balances(pool)) && amount >= 0 && dust >= 0
  }

  lemma SelectedIsPayable(pool: seq<PoolItem>, amount: int, dust: int, d: EngineDraws)
    requires Request(pool, amount, dust)
    ensures var b := Balances(pool);
      Sum(b[..PrimaryCount(b, amount)]) >= amount <==> Sum(b) >= amount
    ensures Sum(Balances(pool)) >= amount ==> Payable(Balances(Selected(pool, amount, d)), amount, dust)
  {
    var b := Balances(pool);
    var k := PrimaryCount(b, amount);
    PrimaryIsShortest(b, amount);
    assert b[..|b|] == b;
    SumPrefixMonotone(b, k, |b|);
    var items := Selected(pool, amount, d);
    assert Balances(items) == b[..|items|];
    SumPrefixMonotone(b, k, |items|);
  }

  /** Selection fails exactly when all the balances together are too small, whatever the order and the draws. */
  lemma InsufficientExactlyWhenTooSmall(unshuffled: seq<PoolItem>, amount: int, maxSplits: int, dust: int, d: EngineDraws)
    requires Request(unshuffled, amount, dust)
    ensures Engine(Shuffle(unshuffled, d.swap), amount, maxSplits, dust, d).Err?
       <==> SumBy(unshuffled, ItemBalance) < amount
  {
    var pool := Shuffle(unshuffled, d.swap);
    ShuffledRequest(unshuffled, amount, dust, d.swap);
    SelectedIsPayable(pool, amount, dust, d);
    if Sum(Balances(pool)) >= amount {
      TargetsPayTheAmount(Balances(Selected(pool, amount, d)), amount, dust, d.alloc, 0);
    }
  }

  lemma ShuffledRequest(unshuffled: seq<PoolItem>, amount: int, dust: int, swap: nat -> Draw)
    requires Request(unshuffled, amount, dust)
    ensures Request(Shuffle(unshuffled, swap), amount, dust)
    ensures Sum(Balances(Shuffle(unshuffled, swap))) == SumBy(unshuffled, ItemBalance)
  {
    var pool := Shuffle(unshuffled, swap);
    ShuffleKeepsElements(unshuffled, swap);
    SumByPermutation(pool, unshuffled, ItemBalance);
    SumBalances(pool);
    forall k | 0 <= k < |pool| ensures Balances(pool)[k] > 0 {
      assert pool[k] in multiset(unshuffled);
      var j :| 0 <= j < |unshuffled| && unshuffled[j] == pool[k];
      assert Balances(unshuffled)[j] == Balances(pool)[k];
    }
  }

  /** The engine reaches the misallocating branch. */
  predicate EngineMisallocates(pool: seq<PoolItem>, amount: int, dust: int, d: EngineDraws) {
    PoolMisallocates(Balances(Selected(pool, amount, d)), amount, dust, d.alloc, 0)
  }

  /** Row i spends its shard's balance exactly. */
  predicate RowConserves(s: Selection, i: nat)
    requires i < |s.items| && |s.paymentSplits| == |s.items| && |s.changeSplits| == |s.items|
  {
    Sum(s.paymentSplits[i]) + Sum(s.changeSplits[i]) == s.items[i].balance
  }

  ghost predicate PlanConserves(s: Selection) {
    && |s.paymentSplits| == |s.items| && |s.changeSplits| == |s.items|
    && (forall i | 0 <= i < |s.items| :: RowConserves(s, i))
    && Sum2(s.paymentSplits) == s.totalSelected
  }

  lemma RowConservesIff(balance: int, target: int, maxSplits: int, changePool: int, dust: int, p: SplitDraws, c: SplitDraws)
    requires balance > 0
    ensures Sum(Splits(target, maxSplits, dust, p)) + Sum(Splits(balance - target, changePool, dust, c)) == balance
       <==> 0 <= target <= balance
  {
    SplitsConserve(target, maxSplits, dust, p);
    SplitsConserve(balance - target, changePool, dust, c);
  }

  lemma {:induction false} RowsSum(rows: seq<seq<int>>, targets: seq<int>)
    requires |rows| == |targets| && forall i | 0 <= i < |rows| :: Sum(rows[i]) == targets[i]
    ensures Sum2(rows) == Sum(targets)
  {
    if rows != [] {
      RowsSum(rows[1..], targets[1..]);
    }
  }

  /** The plan cut from given targets. */
  function PlanFor(items: seq<PoolItem>, t: seq<int>, amount: int, maxSplits: int, changePool: int, dust: int, d: EngineDraws): Selection
    requires |items| == |t|
  {
    Selection(items, amount, Rows(t, maxSplits, dust, d.payment),
              Rows(ChangeTargets(items, t), changePool, dust, d.changeSplit))
  }

  lemma PlanForRow(items: seq<PoolItem>, t: seq<int>, amount: int, maxSplits: int, changePool: int, dust: int, d: EngineDraws, i: nat)
    requires i < |items| == |t| && items[i].balance > 0
    ensures var s := PlanFor(items, t, amount, maxSplits, changePool, dust, d);
      && (RowConserves(s, i) <==> 0 <= t[i] <= items[i].balance)
      && (t[i] >= 0 ==> Sum(s.paymentSplits[i]) == t[i])
  {
    RowConservesIff(items[i].balance, t[i], maxSplits, changePool, dust, d.payment(i), d.changeSplit(i));
    SplitsConserve(t[i], maxSplits, dust, d.payment(i));
  }

  lemma PlanForConserves(items: seq<PoolItem>, t: seq<int>, amount: int, maxSplits: int, changePool: int, dust: int, d: EngineDraws)
    requires |items| == |t| && Positive(Balances(items)) && Sum(t) == amount
    ensures PlanConserves(PlanFor(items, t, amount, maxSplits, changePool, dust, d)) <==> Within(t, Balances(items))
  {
    var s := PlanFor(items, t, amount, maxSplits, changePool, dust, d);
    var b := Balances(items);
    if Within(t, b) {
      forall i | 0 <= i < |t| ensures RowConserves(s, i) && Sum(s.paymentSplits[i]) == t[i] {
        assert 0 <= t[i] <= b[i];
        PlanForRow(items, t, amount, maxSplits, changePool, dust, d, i);
      }
      RowsSum(s.paymentSplits, t);
    } else {
      var i :| 0 <= i < |t| && !(0 <= t[i] <= b[i]);
      assert b[i] > 0;
      PlanForRow(items, t, amount, maxSplits, changePool, dust, d, i);
      assert !RowConserves(s, i);
    }
  }

  /**
   A fundable request always yields a plan. The plan conserves value, row by row and in total,
   exactly when the joint phase does not misallocate.
  */
  lemma PlanConservesExactly(pool: seq<PoolItem>, amount: int, maxSplits: int, dust: int, d: EngineDraws)
    requires Request(pool, amount, dust) && Sum(Balances(pool)) >= amount
    ensures Engine(pool, amount, maxSplits, dust, d).Ok?
    ensures PlanConserves(Engine(pool, amount, maxSplits, dust, d).value) <==> !EngineMisallocates(pool, amount, dust, d)
  {
    SelectedIsPayable(pool, amount, dust, d);
    var items := Selected(pool, amount, d);
    TargetsPayTheAmount(Balances(items), amount, dust, d.alloc, 0);
    TargetsWithinBalances(Balances(items), amount, dust, d.alloc, 0);
    var t := Targets(Balances(items), amount, dust, d.alloc, 0).value;
    var changePool := CompressionMetrics(|pool|, d.extra, d.change).changePool;
    assert Engine(pool, amount, maxSplits, dust, d).value == PlanFor(items, t, amount, maxSplits, changePool, dust, d);
    PlanForConserves(items, t, amount, maxSplits, changePool, dust, d);
  }

  /** When it does misallocate, some row sends more than its shard holds. */
  lemma MisallocatedRowOverspends(pool: seq<PoolItem>, amount: int, maxSplits: int, dust: int, d: EngineDraws) returns (i: nat)
    requires Request(pool, amount, dust) && Sum(Balances(pool)) >= amount && EngineMisallocates(pool, amount, dust, d)
    ensures Engine(pool, amount, maxSplits, dust, d).Ok?
    ensures var s := Engine(pool, amount, maxSplits, dust, d).value;
      && i < |s.items| == |s.paymentSplits| == |s.changeSplits|
      && Sum(s.paymentSplits[i]) + Sum(s.changeSplits[i]) > s.items[i].balance
  {
    hide Sum, Splits, Targets, PrimaryCount, Selected, CompressionMetrics, PoolMisallocates;
    PlanConservesExactly(pool, amount, maxSplits, dust, d);
    SelectedIsPayable(pool, amount, dust, d);
    var items := Selected(pool, amount, d);
    TargetsWithinBalances(Balances(items), amount, dust, d.alloc, 0);
    var t := Targets(Balances(items), amount, dust, d.alloc, 0).value;
    i := SomeOutside(t, items);
    RowOverspends(items[i].balance, t[i], maxSplits, CompressionMetrics(|pool|, d.extra, d.change).changePool, dust,
                  d.payment(i), d.changeSplit(i));
  }

  lemma SomeOutside(t: seq<int>, items: seq<PoolItem>) returns (i: nat)
    requires |t| == |items| && Positive(Balances(items)) && !Within(t, Balances(items))
    ensures i < |t| && items[i].balance > 0 && !(0 <= t[i] <= items[i].balance)
  {
    i :| 0 <= i < |t| && !(0 <= t[i] <= Balances(items)[i]);
    assert Balances(items)[i] > 0;
  }

  lemma RowOverspends(balance: int, target: int, maxSplits: int, changePool: int, dust: int, p: SplitDraws, c: SplitDraws)
    requires balance > 0 && !(0 <= target <= balance)
    ensures Sum(Splits(target, maxSplits, dust, p)) + Sum(Splits(balance - target, changePool, dust, c)) > balance
  {
    SplitsConserve(target, maxSplits, dust, p);
    SplitsConserve(balance - target, changePool, dust, c);
  }

  /** No misallocation, for any draws, when every balance in the pool is at least 10/3 of the dust threshold. */
  lemma LargeBalancesConserve(pool: seq<PoolItem>, amount: int, dust: int, d: EngineDraws)
    requires Request(pool, amount, dust) && Sum(Balances(pool)) >= amount
    requires forall k | 0 <= k < |pool| :: 3 * pool[k].balance >= 10 * dust
    ensures !EngineMisallocates(pool, amount, dust, d)
  {
    SelectedIsPayable(pool, amount, dust, d);
    var items := Selected(pool, amount, d);
    forall k | 0 <= k < |items| ensures 3 * Balances(items)[k] >= 10 * dust {
      assert items[k] == pool[k];
    }
    LargeLastBalancesAreSafe(Balances(items), amount, dust, d.alloc, 0);
  }

  /** The caps on outputs and the dust floor hold in every row of every plan. */
  lemma PlanOutputsAreBounded(pool: seq<PoolItem>, amount: int, maxSplits: int, dust: int, d: EngineDraws)
    requires maxSplits >= 1 && dust > 0
    requires Engine(pool, amount, maxSplits, dust, d).Ok?
    ensures var s := Engine(pool, amount, maxSplits, dust, d).value;
      && |s.paymentSplits| == |s.items| && |s.changeSplits| == |s.items|
      && (forall i | 0 <= i < |s.items| :: |s.paymentSplits[i]| <= maxSplits && |s.changeSplits[i]| <= 5)
      && (forall i, x | 0 <= i < |s.items| && (x in s.paymentSplits[i] || x in s.changeSplits[i]) :: x > 0)
  {
    hide Sum, Splits, Targets, PrimaryCount, Selected, CompressionMetrics;
    var items := Selected(pool, amount, d);
    var t := Targets(Balances(items), amount, dust, d.alloc, 0).value;
    var changePool := CompressionMetrics(|pool|, d.extra, d.change).changePool;
    CompressionIsCapped(|pool|, d.extra, d.change);
    var s := Engine(pool, amount, maxSplits, dust, d).value;
    assert s == PlanFor(items, t, amount, maxSplits, changePool, dust, d);
    forall i | 0 <= i < |items|
      ensures |s.paymentSplits[i]| <= maxSplits && |s.changeSplits[i]| <= 5
      ensures forall x | x in s.paymentSplits[i] || x in s.changeSplits[i] :: x > 0
    {
      RowIsBounded(t[i], maxSplits, dust, d.payment(i));
      RowIsBounded(items[i].balance - t[i], changePool, dust, d.changeSplit(i));
    }
  }

  lemma RowIsBounded(pool: int, maxOutputs: int, dust: int, d: SplitDraws)
    requires maxOutputs >= 1 && dust > 0
    ensures |Splits(pool, maxOutputs, dust, d)| <= maxOutputs && forall x | x in Splits(pool, maxOutputs, dust, d) :: x > 0
  {
    SplitsConserve(pool, maxOutputs, dust, d);
    SplitsAboveDust(pool, maxOutputs, dust, d);
  }

  /** The primary shards are the shortest prefix that covers the amount, and at most `extra` more are swept. */
  lemma SelectionIsShortestPlusExtras(pool: seq<PoolItem>, amount: int, d: EngineDraws)
    ensures var items := Selected(pool, amount, d); var b := Balances(pool);
      exists k: nat | k <= |items| ::
        && (forall j | 0 <= j < k :: Sum(b[..j]) < amount)
        && (Sum(b[..k]) >= amount || k == |pool|)
        && |items| - k <= CompressionMetrics(|pool|, d.extra, d.change).extra <= 15
        && (|items| == |pool| || |items| - k == CompressionMetrics(|pool|, d.extra, d.change).extra)
  {
    PrimaryIsShortest(Balances(pool), amount);
    CompressionIsCapped(|pool|, d.extra, d.change);
    var k := PrimaryCount(Balances(pool), amount);
    assert k <= |Selected(pool, amount, d)|;
  }
}
