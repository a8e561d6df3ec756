/** Whole runs on which the wallet does not do what its texts suggest, from the pool to the ledger or the store. */
module ConcreteRuns {
  import opened Seqs
  import opened Protocol
  import opened Randomness
  import opened Splitting
  import opened Allocation
  import opened CoinSelection
  import opened SelectionProperties
  import opened SelectionLimits
  import opened Plan
  import opened PlanProperties
  import opened AnnouncedAmounts
  import opened Fusion
  import opened Ledger
  import EndToEnd
  import opened StoreSpec
  import opened StoreProperties
  import opened WalletBalance
  import opened WalletTransfer

  /**
   The wallet of FourShardsMisallocate, on a ledger where its first two shards hold what is recorded: selection
   succeeds and the plan is built, but its commands do not settle.
  */
  lemma FourShardTransferFails(shards: seq<Shard>, x: int, y: int, to: Address, change: Address, maxSplits: nat,
                               rest: EngineDraws, d: PlanDraws, l: Books)
    requires |shards| == 4 && x > 0 && y > 0 && maxSplits >= 1
    requires Distinct([shards[0].address, shards[1].address, to, change])
    requires Funds(l, Ether, shards[0].address) == 100 && Funds(l, Ether, shards[1].address) == 1_000_000
    ensures var e := UnluckyDraws(rest);
      var r := Engine(Shuffle(FourItems(shards, x, y), e.swap), 50, maxSplits, 10_000, e);
      r.Ok?
      && var job := EndToEnd.JobFor(r.value, Native, ZERO_ADDRESS, Public(to), [change], d);
         job.Valid() && TransferAll(l, PreparedPlan(job).commands).None?
  {
    hide SumBy, Engine, PreparedPlan, TransferAll, EngineMisallocates, Shuffle, Request, Selected;
    var pool, e := FourItems(shards, x, y), UnluckyDraws(rest);
    FourShardsMisallocate(shards, x, y, rest);
    PlanConservesExactly(pool, 50, maxSplits, 10_000, e);
    EndToEnd.EngineItems(pool, 50, maxSplits, 10_000, e);
    PlanOutputsAreBounded(pool, 50, maxSplits, 10_000, e);
    var s := Engine(pool, 50, maxSplits, 10_000, e).value;
    var job := EndToEnd.JobFor(s, Native, ZERO_ADDRESS, Public(to), [change], d);
    assert s.items == pool[..2];
    var names := [shards[0].address, shards[1].address, to, change];
    assert names[0] != names[1] && names[0] != names[2] && names[0] != names[3] && names[1] != names[2]
        && names[1] != names[3] && names[2] != names[3];
    assert job.shards == [shards[0].address, shards[1].address];
    assert EndToEnd.Separate(job);
    assert EndToEnd.HoldsRecorded(s.items, l, Ether);
    EndToEnd.PlanSettlesExactly(pool, 50, maxSplits, 10_000, e, job, PreparedPlan(job).commands, l);
  }

  // One shard of 100000 paying 50000: two payment outputs and two change outputs

  function OneItem(a: Address): PoolItem {
    PoolItem(Shard(a, false, false, [NativeAsset(100_000)]), 100_000)
  }

  /** Both rows are cut in two. */
  predicate CutsInTwo(e: EngineDraws) {
    Pick(e.payment(0).count, 3) == 1 && Pick(e.changeSplit(0).count, 2) == 1
  }

  /** Such draws exist, whatever the others are. */
  lemma SomeDrawsCutInTwo(rest: EngineDraws, percent: nat -> Draw) returns (e: EngineDraws)
    ensures CutsInTwo(e)
  {
    var p := EveryValueIsDrawn(1, 3);
    var c := EveryValueIsDrawn(1, 2);
    e := rest.(payment := _ => SplitDraws(p, percent), changeSplit := _ => SplitDraws(c, percent));
  }

  lemma TwoOutputs(maxOutputs: nat, d: SplitDraws)
    requires maxOutputs > 1 && Pick(d.count, maxOutputs) == 1
    ensures var s := Splits(50_000, maxOutputs, 10_000, d);
      |s| == 2 && s[0] > 0 && s[1] > 0 && Sum(s) == 50_000
  {
    SplitsConserve(50_000, maxOutputs, 10_000, d);
    SplitsAboveDust(50_000, maxOutputs, 10_000, d);
    var s := Splits(50_000, maxOutputs, 10_000, d);
    assert |SplitFrom(50_000, 2, 0, 10_000, d.percent)| == 2;
    assert s[0] in s && s[1] in s;
  }

  lemma OneItemCutInTwo(a: Address, e: EngineDraws)
    requires CutsInTwo(e)
    ensures var pool := [OneItem(a)];
      && Shuffle(pool, e.swap) == pool && Request(pool, 50_000, 10_000) && Sum(Balances(pool)) == 100_000
      && !EngineMisallocates(pool, 50_000, 10_000, e)
      && var r := Engine(pool, 50_000, 3, 10_000, e);
         && r.Ok? && r.value.items == pool && |r.value.paymentSplits| == 1 == |r.value.changeSplits|
         && (forall row | row == r.value.paymentSplits[0] || row == r.value.changeSplits[0] ::
               |row| == 2 && row[0] > 0 && row[1] > 0)
  {
    hide Splits;
    var pool := [OneItem(a)];
    EndToEnd.OneShardPool(OneItem(a).shard, 100_000, 50_000, 10_000, e);
    PlanConservesExactly(pool, 50_000, 3, 10_000, e);
    TargetsPayTheAmount(Balances(pool), 50_000, 10_000, e.alloc, 0);
    var t := Targets(Balances(pool), 50_000, 10_000, e.alloc, 0).value;
    assert t == [t[0]] && [t[0]][1..] == [];
    TwoOutputs(3, e.payment(0));
    TwoOutputs(2, e.changeSplit(0));
  }

  /**
   One change address for two change outputs: only the first is recorded, so preparing a transfer of 50000 lowers
   the displayed balance of 100000 by more than 50000.
  */
  lemma SharedChangeAddressUnderRecords(a: Address, to: Address, change: Address, e: EngineDraws, d: PlanDraws)
    requires CutsInTwo(e)
    ensures var v, r := [OneItem(a).shard], Engine([OneItem(a)], 50_000, 3, 10_000, e);
      r.Ok?
      && var job := EndToEnd.JobFor(r.value, Native, ZERO_ADDRESS, Public(to), [change], d);
         job.Valid()
         && var p := PreparedPlan(job);
            Displayed(Confirmed(v, p.shardAddresses, ChangeShardsOf(p.changeShards, Native, ZERO_ADDRESS)), Native, None)
              < Displayed(v, Native, None) - 50_000
  {
    hide SumBy, Engine, EngineMisallocates, Displayed, NewAddresses, Request, Shuffle;
    OneItemCutInTwo(a, e);
    var v, pool := [OneItem(a).shard], [OneItem(a)];
    var s := Engine(pool, 50_000, 3, 10_000, e).value;
    var job := EndToEnd.JobFor(s, Native, ZERO_ADDRESS, Public(to), [change], d);
    OneShardStore(a);
    TransferLowersBalanceByAmount(v, 50_000, 3, 10_000, e, job);
    TwoChangeOutputs(job);
    SharedIsNotNew(v, PreparedPlan(job).changeShards);
  }

  lemma OneShardStore(a: Address)
    ensures var v := [OneItem(a).shard];
      && UniqueAddresses(v) && NonNegative(v) && (forall s | s in v && IsUnspent(s) :: OnlyFirstCounts(s.assets, Native, None))
      && Pool(UnspentFor(v, Native, None, None), Native, None) == [OneItem(a)]
  {
    var s := OneItem(a).shard;
    assert Answers(s.assets[0], Native, None, None);
    OneKept(s, IsUnspent);
    OneKept(s, HasAsset(Native, None, None));
    assert [s][1..] == [];
  }

  lemma OneKept(s: Shard, p: Shard -> bool)
    requires p(s)
    ensures Filter([s], p) == [s]
  {
    assert [s][1..] == [];
  }

  lemma TwoChangeOutputs(job: Job)
    requires job.Valid() && |job.shards| == 1 && |job.changePool| == 1
    requires |job.change[0]| == 2 && job.change[0][0] > 0 && job.change[0][1] > 0
    ensures var outs := PreparedPlan(job).changeShards; |outs| == 2 && outs[0].to == outs[1].to
  {
    hide SumBy;
    CutRow(job);
    var outs := ChangeOuts(job, 0, 2);
    ChangeOutsSum(job, 0, 2);
    assert outs[0] in outs && outs[1] in outs;
    assert ChangeUpTo(job, 1) == ChangeUpTo(job, 0) + RowChange(job, 0);
  }

  lemma CutRow(job: Job)
    requires job.Valid() && |job.shards| == 1
    requires |job.change[0]| == 2 && job.change[0][0] > 0 && job.change[0][1] > 0
    ensures |ChangeOuts(job, 0, 2)| == 2 && RowChange(job, 0) == ChangeOuts(job, 0, 2)
  {
    assert ChangeOuts(job, 0, 0) == [];
    assert |ChangeOuts(job, 0, 1)| == 1;
  }

  lemma SharedIsNotNew(v: View, outs: seq<Out>)
    requires |outs| == 2 && outs[0].to == outs[1].to
    ensures !NewAddresses(v, outs)
  {}

  /** Two payments drawn to one address of the recipient's pool: the announcement states the first of them only. */
  lemma SharedRecipientIsUnderAnnounced(a: Address, r1: Address, r2: Address, change: Address, e: EngineDraws, d: PlanDraws)
    requires CutsInTwo(e) && d.recipient(0)(0) == 0 == d.recipient(0)(1)
    ensures var r := Engine([OneItem(a)], 50_000, 3, 10_000, e);
      r.Ok?
      && var job := EndToEnd.JobFor(r.value, Native, ZERO_ADDRESS, Private([r1, r2]), [change], d);
         job.Valid()
         && exists ann | ann in PreparedPlan(job).announcements ::
              ann.stealth == r1 && ann.identifier < Flow(PreparedPlan(job).commands, Into(r1))
  {
    hide SumBy, Engine, EngineMisallocates, Request, Shuffle, Times, Fused;
    OneItemCutInTwo(a, e);
    var s := Engine([OneItem(a)], 50_000, 3, 10_000, e).value;
    var job := EndToEnd.JobFor(s, Native, ZERO_ADDRESS, Private([r1, r2]), [change], d);
    var p := PreparedPlan(job);
    TwoPaymentOutputs(job, r1);
    AnnounceAllFacts(job, AnnouncedOuts(job, 1));
    var k :| 0 <= k < |p.announcements| && p.announcements[k].stealth == r1;
    AnnouncedAmountAgainstReceived(job, p.announcements[k]);
  }

  lemma TwoPaymentOutputs(job: Job, r: Address)
    requires job.Valid() && |job.shards| == 1 && job.mode.Private? && job.kind != ERC721
    requires PayTarget(job, 0, 0) == r == PayTarget(job, 0, 1)
    requires |job.pay[0]| == 2 && job.pay[0][0] > 0 && job.pay[0][1] > 0
    ensures Reached(AnnouncedOuts(job, 1), r) && Times(AllOuts(job, 1), r) >= 2
  {
    assert PayOuts(job, 0, 0) == [];
    assert PayOuts(job, 0, 1) == [Out(r, job.pay[0][0])];
    assert PayOuts(job, 0, 2) == [Out(r, job.pay[0][0]), Out(r, job.pay[0][1])];
    var outs := RowPay(job, 0) + RowChange(job, 0);
    assert AnnouncedOuts(job, 0) == [] && AllOuts(job, 0) == [];
    assert AllOuts(job, 1) == outs == AnnouncedOuts(job, 1);
    assert outs[0].to == r && outs[1].to == r;
    ChangeOutsSum(job, 0, |job.change[0]|);
    SumByAppend(RowPay(job, 0), RowChange(job, 0), Hits(r));
    SumByAppend([outs[0]], [outs[1]], Hits(r));
    SumBySingle(outs[0], Hits(r));
    SumBySingle(outs[1], Hits(r));
    assert RowPay(job, 0) == [outs[0]] + [outs[1]];
    SentIffHit(RowChange(job, 0), r);
  }
}
