/** Coin selection for fungible assets (`runSelectionEngine` of coinSelection.ts). */
module CoinSelection {
  import opened Arithmetic
  import opened Seqs
  import opened Protocol
  import opened Randomness
  import opened Splitting
  import opened Allocation

  datatype PoolItem = PoolItem(shard: Shard, balance: int)

  datatype EngineDraws = EngineDraws(
    swap: nat -> Draw,
    extra: Draw,
    change: Draw,
    alloc: nat -> Draw,
    payment: nat -> SplitDraws,
    changeSplit: nat -> SplitDraws)

  datatype Selection = Selection(
    items: seq<PoolItem>,
    totalSelected: int,
    paymentSplits: seq<seq<int>>,
    changeSplits: seq<seq<int>>)

  datatype Metrics = Metrics(extra: nat, changePool: nat)

  function Balances(pool: seq<PoolItem>): (b: seq<int>)
    ensures |b| == |pool|
  {
    seq(|pool|, i requires 0 <= i < |pool| => pool[i].balance)
  }

  /** floor(sqrt(n) / 2). */
  function HalfRoot(n: nat): (k: nat)
    ensures 4 * k * k <= n < 4 * (k + 1) * (k + 1)
  {
    if n == 0 then 0
    else
      var k := HalfRoot(n - 1);
      if 4 * (k + 1) * (k + 1) <= n then k + 1 else k
  }

  /** How many extra shards to sweep in, and how many change outputs a shard may have. */
  function CompressionMetrics(walletSize: nat, extra: Draw, change: Draw): Metrics {
    if walletSize <= 3 then Metrics(0, 2)
    else
      var baseline := HalfRoot(walletSize);
      var minExtra := if walletSize > 500 then 8 else if walletSize > 100 then 5 else if baseline >= 2 then baseline - 1 else 1;
      var maxExtra := if walletSize > 500 then 15 else if walletSize > 100 then 10 else baseline + 2;
      Metrics(Pick(extra, maxExtra - minExtra + 1) + minExtra,
              if walletSize > 500 then Pick(change, 3) + 3
              else if walletSize > 100 then Pick(change, 3) + 2
              else Pick(change, 2) + 2)
  }

  /**
   The ranges by wallet size, for every draw. In all of them the documented hard cap of 15 swept shards and at most 5
   change outputs hold.
  */
  lemma CompressionIsCapped(walletSize: nat, extra: Draw, change: Draw)
    ensures var m := CompressionMetrics(walletSize, extra, change); var k := HalfRoot(walletSize);
      && (if walletSize <= 3 then m == Metrics(0, 2)
          else if walletSize <= 100 then 1 <= m.extra && k - 1 <= m.extra <= k + 2 && 2 <= m.changePool <= 3
          else if walletSize <= 500 then 5 <= m.extra <= 10 && 2 <= m.changePool <= 4
          else 8 <= m.extra <= 15 && 3 <= m.changePool <= 5)
      && m.extra <= 15 && 2 <= m.changePool <= 5
  {
    if 3 < walletSize <= 100 {
      var k := HalfRoot(walletSize);
      SmallRoot(k);
    }
  }

  /** And every number in these ranges is drawn. */
  lemma EveryMetricIsDrawn(walletSize: nat, extra: nat, changePool: nat) returns (e: Draw, c: Draw)
    requires walletSize > 3
    requires var k := HalfRoot(walletSize);
      if walletSize <= 100 then 1 <= extra && k - 1 <= extra <= k + 2 && 2 <= changePool <= 3
      else if walletSize <= 500 then 5 <= extra <= 10 && 2 <= changePool <= 4
      else 8 <= extra <= 15 && 3 <= changePool <= 5
    ensures CompressionMetrics(walletSize, e, c) == Metrics(extra, changePool)
  {
    var k := HalfRoot(walletSize);
    if walletSize <= 100 {
      SmallRoot(k);
      var least := if k >= 2 then k - 1 else 1;
      e := EveryValueIsDrawn(extra - least, k + 2 - least + 1);
      c := EveryValueIsDrawn(changePool - 2, 2);
    } else if walletSize <= 500 {
      e := EveryValueIsDrawn(extra - 5, 6);
      c := EveryValueIsDrawn(changePool - 2, 3);
    } else {
      e := EveryValueIsDrawn(extra - 8, 8);
      c := EveryValueIsDrawn(changePool - 3, 3);
    }
  }

  lemma SmallRoot(k: nat)
    ensures 4 * k * k <= 100 ==> k <= 5
  {
    if k > 5 { MulLe(6, k, 6); MulLe(6, k, k); }
  }

  /** Length of the shortest prefix that covers the amount, or of the whole list when none does. */
  function PrimaryCount(balances: seq<int>, amount: int): (k: nat)
    ensures k <= |balances|
  {
    if amount <= 0 || balances == [] then 0 else 1 + PrimaryCount(balances[1..], amount - balances[0])
  }

  lemma {:induction false} PrimaryIsShortest(balances: seq<int>, amount: int)
    ensures var k := PrimaryCount(balances, amount);
      && (forall j | 0 <= j < k :: Sum(balances[..j]) < amount)
      && (Sum(balances[..k]) >= amount || k == |balances|)
  {
    if amount > 0 && balances != [] {
      PrimaryIsShortest(balances[1..], amount - balances[0]);
      var k := PrimaryCount(balances, amount);
      forall j | 0 <= j <= k ensures j > 0 ==> Sum(balances[..j]) == balances[0] + Sum(balances[1..][..j - 1]) {
        if j > 0 {
          assert balances[..j][1..] == balances[1..][..j - 1];
        }
      }
    }
  }

  /** The shards taken from the shuffled pool: the primary ones and the extras. */
  function Selected(pool: seq<PoolItem>, amount: int, d: EngineDraws): (items: seq<PoolItem>)
    ensures items <= pool
  {
    var n := PrimaryCount(Balances(pool), amount) + CompressionMetrics(|pool|, d.extra, d.change).extra;
    pool[..if n < |pool| then n else |pool|]
  }

  function Rows(targets: seq<int>, maxOutputs: int, dust: int, draws: nat -> SplitDraws): (rows: seq<seq<int>>)
    ensures |rows| == |targets|
  {
    seq(|targets|, i requires 0 <= i < |targets| => Splits(targets[i], maxOutputs, dust, draws(i)))
  }

  function ChangeTargets(items: seq<PoolItem>, targets: seq<int>): (change: seq<int>)
    requires |items| == |targets|
    ensures |change| == |items|
  {
    seq(|items|, i requires 0 <= i < |items| => items[i].balance - targets[i])
  }

  /** The engine's result for a pool that is already shuffled. */
  function Engine(pool: seq<PoolItem>, amount: int, maxSplits: int, dust: int, d: EngineDraws): Result<Selection, string> {
    if Sum(Balances(pool)[..PrimaryCount(Balances(pool), amount)]) < amount then Err("Insufficient")
    else
      var items := Selected(pool, amount, d);
      match Targets(Balances(items), amount, dust, d.alloc, 0)
      case Err(e) => Err(e)
      case Ok(targets) =>
        Ok(Selection(items, amount,
                     Rows(targets, maxSplits, dust, d.payment),
                     Rows(ChangeTargets(items, targets), CompressionMetrics(|pool|, d.extra, d.change).changePool, dust, d.changeSplit)))
  }

  /** One more shard taken: the count of the rest is one lower. */
  lemma PrimaryStep(b: seq<int>, cursor: nat, left: int)
    requires cursor < |b| && left > 0
    ensures PrimaryCount(b[cursor..], left) == 1 + PrimaryCount(b[cursor + 1..], left - b[cursor])
  {
    assert b[cursor..][1..] == b[cursor + 1..];
  }

  lemma NothingTaken(b: seq<int>)
    ensures Sum(b[..0]) == 0 && b[0..] == b
  {}

  /** Step 1: shards are taken until the amount is covered. */
  method GatherPrimary(withBalance: array<PoolItem>, amount: int)
    returns (selectedPool: seq<PoolItem>, capacity: int)
    ensures selectedPool == withBalance[..PrimaryCount(Balances(withBalance[..]), amount)]
    ensures capacity == Sum(Balances(withBalance[..])[..PrimaryCount(Balances(withBalance[..]), amount)])
  {
    hide Sum;
    selectedPool, capacity := [], 0;
    var cursor := 0;
    ghost var b := Balances(withBalance[..]);
    NothingTaken(b);
    while cursor < withBalance.Length && capacity < amount
      invariant 0 <= cursor <= withBalance.Length
      invariant selectedPool == withBalance[..cursor]
      invariant capacity == Sum(b[..cursor])
      invariant cursor + PrimaryCount(b[cursor..], amount - capacity) == PrimaryCount(b, amount)
    {
      SumSnoc(b, cursor);
      PrimaryStep(b, cursor, amount - capacity);
      var item := withBalance[cursor];
      selectedPool := selectedPool + [item];
      capacity := capacity + item.balance;
      cursor := cursor + 1;
    }
  }

  function Future(items: seq<PoolItem>, k: nat): int
    requires k < |items|
  {
    Sum(Balances(items)[k + 1..])
  }

  /** Step 3: what the shards after each one hold together. */
  method SuffixCapacities(selectedPool: seq<PoolItem>) returns (capacities: array<int>)
    ensures fresh(capacities) && capacities.Length == |selectedPool|
    ensures forall k | 0 <= k < |selectedPool| :: capacities[k] == Future(selectedPool, k)
  {
    var n := |selectedPool|;
    capacities := new int[n](_ => 0);
    var running := 0;
    ghost var b := Balances(selectedPool);
    var k := n - 1;
    while k >= 0
      invariant -1 <= k < n
      invariant running == Sum(b[k + 1..])
      invariant forall j | k < j < n :: capacities[j] == Future(selectedPool, j)
    {
      capacities[k] := running;
      SumDrop(b, k);
      running := running + selectedPool[k].balance;
      k := k - 1;
    }
  }

  /** The joint final phase for the last two shards. */
  method JointPhase(needed: int, balance: int, nextBalance: int, dust: int, draw: Draw)
    returns (ok: bool, contribution: int, finalContribution: int)
    ensures Joint(needed, balance, nextBalance, dust, draw) == if ok then Ok((contribution, finalContribution)) else Err("Insufficient")
  {
    ok := true;
    contribution := TruncDiv(needed * (Pick(draw, 40) + 30), 100);
    finalContribution := needed - contribution;
    if contribution > balance - dust || finalContribution > nextBalance - dust {
      if needed >= balance + nextBalance {
        if needed > balance + nextBalance { return false, 0, 0; }
        contribution := balance;
        finalContribution := nextBalance;
      } else if needed > balance {
        contribution := balance;
        finalContribution := needed - balance;
      } else {
        finalContribution := nextBalance;
        contribution := needed - nextBalance;
      }
    }
  }

  /** One shard of the early phase. */
  method EarlyPhase(balance: int, needed: int, futureCapacity: int, dust: int, draw: Draw) returns (contribution: int)
    ensures contribution == EarlyContribution(balance, needed, futureCapacity, dust, draw)
    ensures balance > 0 && futureCapacity >= 0 && dust >= 0 && 0 <= needed <= balance + futureCapacity ==>
      0 <= contribution <= balance && contribution <= needed && needed - contribution <= futureCapacity
  {
    var mathFloorConstraint := if needed > futureCapacity then needed - futureCapacity else dust;
    var maxSafeShardSpend := balance - dust;
    contribution := mathFloorConstraint;
    if mathFloorConstraint > maxSafeShardSpend {
      contribution := balance;
    } else if maxSafeShardSpend > mathFloorConstraint {
      var range := maxSafeShardSpend - mathFloorConstraint;
      contribution := mathFloorConstraint + range * Pick(draw, 100) / 100;
    }
    if contribution > needed { contribution := needed; }
    if balance > 0 && futureCapacity >= 0 && dust >= 0 && 0 <= needed <= balance + futureCapacity {
      EarlyContributionBounds(balance, needed, futureCapacity, dust, draw);
    }
  }

  /** Step 4: the allocation loop, writing the payment targets in place. */
  method AllocateTargets(selectedPool: seq<PoolItem>, amount: int, dust: int, alloc: nat -> Draw)
    returns (targets: array<int>, ok: bool)
    ensures fresh(targets) && targets.Length == |selectedPool|
    ensures Targets(Balances(selectedPool), amount, dust, alloc, 0) == if ok then Ok(targets[..]) else Err("Insufficient")
  {
    hide Sum, EarlyContribution, Joint;
    var n := |selectedPool|;
    ghost var b := Balances(selectedPool);
    var capacities := SuffixCapacities(selectedPool);
    targets := new int[n](_ => 0);
    var remainingNeeded := amount;
    ok := true;
    var i := 0;
    assert b[0..] == b;
    while i < n
      invariant 0 <= i <= n
      invariant forall k | 0 <= k < n :: capacities[k] == Future(selectedPool, k)
      invariant n >= 2 ==> i <= n - 2
      invariant Targets(b, amount, dust, alloc, 0) == Prepend(targets[..i], Targets(b[i..], remainingNeeded, dust, alloc, i))
    {
      assert b[i..][0] == selectedPool[i].balance && b[i..][1..] == b[i + 1..];
      if i == n - 2 {
        var fine, contribution, finalContribution :=
          JointPhase(remainingNeeded, selectedPool[i].balance, selectedPool[i + 1].balance, dust, alloc(i));
        assert b[i..][1] == selectedPool[i + 1].balance;
        if !fine {
          ok := false;
          return;
        }
        targets[i] := contribution;
        targets[i + 1] := finalContribution;
        assert targets[..] == targets[..i] + [contribution, finalContribution];
        return;
      }
      var contribution := EarlyPhase(selectedPool[i].balance, remainingNeeded, capacities[i], dust, alloc(i));
      PrependStep(targets[..i], contribution, Targets(b[i + 1..], remainingNeeded - contribution, dust, alloc, i + 1));
      targets[i] := contribution;
      assert targets[..i + 1] == targets[..i] + [contribution];
      remainingNeeded := remainingNeeded - contribution;
      i := i + 1;
    }
    assert b[i..] == [] && targets[..i] + [] == targets[..];
  }

  ghost function Prepend(front: seq<int>, r: Result<seq<int>, string>): (whole: Result<seq<int>, string>)
    ensures front == [] ==> whole == r
  {
    match r
    case Err(e) => Err(e)
    case Ok(rest) =>
      assert [] + rest == rest;
      Ok(front + rest)
  }

  /** Step 5: change targets, then the outputs of every row. */
  method SplitTargets(selectedPool: seq<PoolItem>, targets: array<int>, maxSplits: int, changePool: int, dust: int, d: EngineDraws)
    returns (paymentSplits: seq<seq<int>>, changeSplits: seq<seq<int>>)
    requires targets.Length == |selectedPool|
    ensures paymentSplits == Rows(targets[..], maxSplits, dust, d.payment)
    ensures changeSplits == Rows(ChangeTargets(selectedPool, targets[..]), changePool, dust, d.changeSplit)
  {
    var n := |selectedPool|;
    var changeTargets := new int[n](_ => 0);
    for i := 0 to n
      invariant forall k | 0 <= k < i :: changeTargets[k] == selectedPool[k].balance - targets[k]
    {
      changeTargets[i] := selectedPool[i].balance - targets[i];
    }
    ghost var pay, change := targets[..], changeTargets[..];
    assert change == ChangeTargets(selectedPool, pay);

    paymentSplits, changeSplits := [], [];
    for i := 0 to n
      invariant targets[..] == pay && changeTargets[..] == change
      invariant paymentSplits == Rows(pay, maxSplits, dust, d.payment)[..i]
      invariant changeSplits == Rows(change, changePool, dust, d.changeSplit)[..i]
    {
      var paymentRow := GenerateSplitsForShard(targets[i], maxSplits, dust, d.payment(i).count, d.payment(i).percent);
      paymentSplits := paymentSplits + [paymentRow];
      var changeRow := GenerateSplitsForShard(changeTargets[i], changePool, dust, d.changeSplit(i).count, d.changeSplit(i).percent);
      changeSplits := changeSplits + [changeRow];
    }
  }

  lemma PrependStep(front: seq<int>, c: int, r: Result<seq<int>, string>)
    ensures Prepend(front + [c], r) == Prepend(front, Prepend([c], r))
  {
    if r.Ok? { assert (front + [c]) + r.value == front + ([c] + r.value); }
  }

  /** `runSelectionEngine`: shuffle, gather, sweep extras, allocate, split. */
  method RunSelectionEngine(withBalance: array<PoolItem>, amount: int, maxSplits: int, dust: int, d: EngineDraws)
    returns (r: Result<Selection, string>)
    modifies withBalance
    ensures withBalance[..] == Shuffle(old(withBalance[..]), d.swap)
    ensures r == Engine(withBalance[..], amount, maxSplits, dust, d)
  {
    ShuffleInPlace(withBalance, d.swap);
    var selectedPool, capacity := GatherPrimary(withBalance, amount);
    if capacity < amount { return Err("Insufficient"); }

    var metrics := CompressionMetrics(withBalance.Length, d.extra, d.change);
    var cursor := |selectedPool|;
    ghost var primary := cursor;
    var swept := 0;
    while cursor < withBalance.Length && swept < metrics.extra
      invariant primary <= cursor <= withBalance.Length && cursor == primary + swept
      invariant swept <= metrics.extra
      invariant selectedPool == withBalance[..cursor]
    {
      selectedPool := selectedPool + [withBalance[cursor]];
      swept := swept + 1;
      cursor := cursor + 1;
    }
    assert selectedPool == Selected(withBalance[..], amount, d);

    var targets, ok := AllocateTargets(selectedPool, amount, dust, d.alloc);
    if !ok { return Err("Insufficient"); }

    var paymentSplits, changeSplits := SplitTargets(selectedPool, targets, maxSplits, metrics.changePool, dust, d);
    return Ok(Selection(selectedPool, amount, paymentSplits, changeSplits));
  }
}
