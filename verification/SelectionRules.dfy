/** The rows of a selection, without the algorithm: how much each shard pays and into how many outputs it is cut. */
module SelectionRules {
  import opened Arithmetic
  import opened Seqs
  import opened Protocol
  import opened Randomness
  import opened Splitting
  import opened Allocation
  import opened CoinSelection
  import opened SelectionProperties

  function RowSums(rows: seq<seq<int>>): (r: seq<int>)
    ensures |r| == |rows|
  {
    seq(|rows|, i requires 0 <= i < |rows| => Sum(rows[i]))
  }

  /** A row is empty, whole or cut, as its amount, its cap and the number drawn say. */
  ghost predicate RowIsCut(row: seq<int>, maxOutputs: int, dust: int, drawn: nat) {
    var amount := Sum(row);
    if amount <= 0 then row == []
    else if amount < 2 * dust || maxOutputs <= 1 then row == [amount]
    else Cut(row, amount, drawn, dust)
  }

  lemma SplitsRow(pool: int, maxOutputs: int, dust: int, d: SplitDraws)
    requires dust >= 0
    ensures RowIsCut(Splits(pool, maxOutputs, dust, d), maxOutputs, dust, Pick(d.count, if maxOutputs > 0 then maxOutputs else 0) + 1)
  {
    hide Cut, WordSplits;
    SplitsAreCut(pool, maxOutputs, dust, d);
    SplitsConserve(pool, maxOutputs, dust, d);
  }

  /** Payments are cut under the caller's cap and change under the drawn one. */
  ghost predicate RowsAreCut(s: Selection, maxSplits: nat, changePool: nat, dust: int, d: EngineDraws) {
    && |s.paymentSplits| == |s.items| == |s.changeSplits|
    && (forall k | 0 <= k < |s.items| :: RowIsCut(s.paymentSplits[k], maxSplits, dust, Pick(d.payment(k).count, maxSplits) + 1))
    && (forall k | 0 <= k < |s.items| :: RowIsCut(s.changeSplits[k], changePool, dust, Pick(d.changeSplit(k).count, changePool) + 1))
  }

  /** Every shard before the joint phase pays by its rule and keeps the rest. */
  ghost predicate EarlyShardsFollow(paid: seq<int>, kept: seq<int>, b: seq<int>, amount: int, dust: int) {
    && |paid| == |b| == |kept|
    && forall k: nat | IsEarly(|b|, k) ::
         EarlyRule(paid[k], b[k], NeedAt(paid, amount, k), Sum(b[k + 1..]), dust) && kept[k] == b[k] - paid[k]
  }

  /** Every early shard of a selection follows its rule; without misallocation the last two do as well. */
  lemma SelectionFollowsTheRules(pool: seq<PoolItem>, amount: int, maxSplits: nat, dust: int, d: EngineDraws)
    requires Request(pool, amount, dust) && Sum(Balances(pool)) >= amount
    ensures Engine(pool, amount, maxSplits, dust, d).Ok?
    ensures var s := Engine(pool, amount, maxSplits, dust, d).value;
      var b, paid := Balances(s.items), RowSums(s.paymentSplits);
      && EarlyShardsFollow(paid, RowSums(s.changeSplits), b, amount, dust)
      && (!EngineMisallocates(pool, amount, dust, d) ==> EveryRule(paid, b, amount, dust))
      && RowsAreCut(s, maxSplits, CompressionMetrics(|pool|, d.extra, d.change).changePool, dust, d)
  {
    hide Sum, Selected, Splits, CompressionMetrics, RowsAreCut, EveryRule, EarlyShardsFollow, PrimaryCount, PoolMisallocates, Targets;
    SelectedIsPayable(pool, amount, dust, d);
    PlanConservesExactly(pool, amount, maxSplits, dust, d);
    var items := Selected(pool, amount, d);
    var b := Balances(items);
    var changePool := CompressionMetrics(|pool|, d.extra, d.change).changePool;
    TargetsFollowTheRules(b, amount, dust, d.alloc, 0);
    TargetsWithinBalances(b, amount, dust, d.alloc, 0);
    var t := Targets(b, amount, dust, d.alloc, 0).value;
    RowsFollow(items, t, amount, maxSplits, changePool, dust, d);
    RowsOfTargetsAreCut(items, t, amount, maxSplits, changePool, dust, d);
  }

  /** What a row adds up to. */
  lemma RowTotals(items: seq<PoolItem>, t: seq<int>, amount: int, maxSplits: nat, changePool: nat, dust: int, d: EngineDraws, k: nat)
    requires k < |items| == |t|
    ensures var s := PlanFor(items, t, amount, maxSplits, changePool, dust, d);
      && RowSums(s.paymentSplits)[k] == (if t[k] > 0 then t[k] else 0)
      && RowSums(s.changeSplits)[k] == (if items[k].balance > t[k] then items[k].balance - t[k] else 0)
  {
    hide Splits;
    SplitsConserve(t[k], maxSplits, dust, d.payment(k));
    SplitsConserve(items[k].balance - t[k], changePool, dust, d.changeSplit(k));
  }

  lemma RowsFollow(items: seq<PoolItem>, t: seq<int>, amount: int, maxSplits: nat, changePool: nat, dust: int, d: EngineDraws)
    requires EveryRule(t, Balances(items), amount, dust)
    ensures var s := PlanFor(items, t, amount, maxSplits, changePool, dust, d);
      && EarlyShardsFollow(RowSums(s.paymentSplits), RowSums(s.changeSplits), Balances(items), amount, dust)
      && (Within(t, Balances(items)) ==> RowSums(s.paymentSplits) == t)
  {
    hide Sum, PlanFor, RowSums, JointRule, NeedAt;
    var s := PlanFor(items, t, amount, maxSplits, changePool, dust, d);
    var b, paid, kept := Balances(items), RowSums(s.paymentSplits), RowSums(s.changeSplits);
    Widths(items, t, amount, maxSplits, changePool, dust, d);
    forall k | 0 <= k < |t|
      ensures paid[k] == (if t[k] > 0 then t[k] else 0) && kept[k] == (if b[k] > t[k] then b[k] - t[k] else 0)
    {
      RowTotals(items, t, amount, maxSplits, changePool, dust, d, k);
    }
    forall k: nat | IsEarly(|b|, k)
      ensures EarlyRule(paid[k], b[k], NeedAt(paid, amount, k), Sum(b[k + 1..]), dust) && kept[k] == b[k] - paid[k]
    {
      forall j: nat | j <= k ensures paid[j] == t[j] <= b[j] {
        assert IsEarly(|t|, j);
        assert EarlyRule(t[j], b[j], NeedAt(t, amount, j), Sum(b[j + 1..]), dust);
      }
      SameNeed(paid, t, amount, k);
    }
  }

  lemma Widths(items: seq<PoolItem>, t: seq<int>, amount: int, maxSplits: nat, changePool: nat, dust: int, d: EngineDraws)
    requires |items| == |t|
    ensures var s := PlanFor(items, t, amount, maxSplits, changePool, dust, d);
      s.items == items && |RowSums(s.paymentSplits)| == |t| == |RowSums(s.changeSplits)|
  {}

  lemma SameNeed(paid: seq<int>, t: seq<int>, amount: int, k: nat)
    requires k <= |paid| == |t| && forall j | 0 <= j < k :: paid[j] == t[j]
    ensures NeedAt(paid, amount, k) == NeedAt(t, amount, k)
  {
    assert paid[..k] == t[..k];
  }

  lemma RowsOfTargetsAreCut(items: seq<PoolItem>, t: seq<int>, amount: int, maxSplits: nat, changePool: nat, dust: int, d: EngineDraws)
    requires |items| == |t| && dust >= 0
    ensures RowsAreCut(PlanFor(items, t, amount, maxSplits, changePool, dust, d), maxSplits, changePool, dust, d)
  {
    hide Splits, RowIsCut;
    forall k | 0 <= k < |items|
      ensures RowIsCut(Splits(t[k], maxSplits, dust, d.payment(k)), maxSplits, dust, Pick(d.payment(k).count, maxSplits) + 1)
      ensures RowIsCut(Splits(items[k].balance - t[k], changePool, dust, d.changeSplit(k)), changePool, dust,
                       Pick(d.changeSplit(k).count, changePool) + 1)
    {
      SplitsRow(t[k], maxSplits, dust, d.payment(k));
      SplitsRow(items[k].balance - t[k], changePool, dust, d.changeSplit(k));
    }
  }
}
