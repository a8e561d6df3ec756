/** The displayed balance before and after a transfer is prepared, confirmed or refused. */
module WalletTransfer {
  import opened Seqs
  import opened Protocol
  import opened Randomness
  import opened CoinSelection
  import opened SelectionProperties
  import opened Plan
  import opened PlanProperties
  import EndToEnd
  import opened StoreSpec
  import opened StoreProperties
  import opened WalletBalance

  predicate Fungible(kind: AssetKind, token: Option<Address>) {
    kind != ERC721 && (kind == ERC20 ==> token.Some?)
  }

  // The displayed balance as a plain sum

  function Live(kind: AssetKind, token: Option<Address>): Shard -> int {
    (s: Shard) => if IsUnspent(s) then ShardBalance(kind, token)(s) else 0
  }

  lemma {:induction false} NoMatchNoBalance(assets: seq<Asset>, kind: AssetKind, token: Option<Address>)
    requires Fungible(kind, token)
    requires forall a | a in assets :: !Answers(a, kind, token, None)
    ensures SumBy(assets, Counted(kind, token)) == 0
  {
    if assets != [] {
      assert assets[0] in assets;
      forall a | a in assets[1..] ensures a in assets {}
      NoMatchNoBalance(assets[1..], kind, token);
    }
  }

  lemma {:induction false} DisplayedAsSum(v: View, kind: AssetKind, token: Option<Address>)
    requires Fungible(kind, token)
    ensures Displayed(v, kind, token) == SumBy(v, Live(kind, token))
  {
    if v != [] {
      DisplayedAsSum(v[1..], kind, token);
      var s, p := v[0], HasAsset(kind, token, None);
      assert Unspent(v) == (if IsUnspent(s) then [s] else []) + Unspent(v[1..]);
      if IsUnspent(s) {
        assert Unspent(v)[1..] == Unspent(v[1..]);
        assert UnspentFor(v, kind, token, None) == (if p(s) then [s] else []) + UnspentFor(v[1..], kind, token, None);
        if p(s) {
          assert UnspentFor(v, kind, token, None)[1..] == UnspentFor(v[1..], kind, token, None);
        } else {
          assert UnspentFor(v, kind, token, None) == UnspentFor(v[1..], kind, token, None);
          forall a | a in s.assets ensures !Answers(a, kind, token, None) {
            var k :| 0 <= k < |s.assets| && s.assets[k] == a;
          }
          NoMatchNoBalance(s.assets, kind, token);
        }
      } else {
        assert Unspent(v) == Unspent(v[1..]);
      }
    }
  }

  // Marking inputs as pending

  function Except(kind: AssetKind, token: Option<Address>, inputs: seq<Address>): Shard -> int {
    (s: Shard) => if s.address in inputs then 0 else Live(kind, token)(s)
  }

  lemma {:induction false} PendingAsExcept(v: View, kind: AssetKind, token: Option<Address>, inputs: seq<Address>)
    ensures SumBy(WithPending(v, inputs, true), Live(kind, token)) == SumBy(v, Except(kind, token, inputs))
  {
    if v != [] {
      PendingAsExcept(v[1..], kind, token, inputs);
      var marked := WithPending(v, inputs, true);
      assert marked[1..] == WithPending(v[1..], inputs, true);
      if v[0].address in inputs {
        assert marked[0] == v[0].(pending := true);
        assert !IsUnspent(marked[0]);
        assert Except(kind, token, inputs)(v[0]) == 0;
      } else {
        assert marked[0] == v[0];
        assert Except(kind, token, inputs)(v[0]) == Live(kind, token)(v[0]);
      }
    }
  }

  lemma {:induction false} ExceptOne(v: View, kind: AssetKind, token: Option<Address>, inputs: seq<Address>, s: Shard)
    requires UniqueAddresses(v) && s.address !in inputs
    requires forall x | x in v && x.address == s.address :: x == s
    ensures SumBy(v, Except(kind, token, inputs)) - SumBy(v, Except(kind, token, inputs + [s.address]))
         == if s in v then Live(kind, token)(s) else 0
  {
    if v != [] {
      assert v[0] in v;
      forall x | x in v[1..] ensures x in v {}
      ExceptOne(v[1..], kind, token, inputs, s);
      if v[0] == s {
        assert s !in v[1..];
      }
    }
  }

  function ItemLive(kind: AssetKind, token: Option<Address>): PoolItem -> int {
    (x: PoolItem) => Live(kind, token)(x.shard)
  }

  lemma {:induction false} ExceptAll(v: View, kind: AssetKind, token: Option<Address>, items: seq<PoolItem>)
    requires UniqueAddresses(v) && Distinct(EndToEnd.Inputs(items))
    requires forall x | x in items :: x.shard in v
    ensures SumBy(v, Except(kind, token, EndToEnd.Inputs(items)))
         == SumBy(v, Live(kind, token)) - SumBy(items, ItemLive(kind, token))
  {
    hide SumBy, Live;
    if items == [] {
      SumByEmpty(items, ItemLive(kind, token));
      SumBySame(v, Except(kind, token, EndToEnd.Inputs(items)), Live(kind, token));
    } else {
      var n := |items| - 1;
      var init, last := items[..n], items[n];
      assert items == init + [last];
      assert EndToEnd.Inputs(items) == EndToEnd.Inputs(init) + [last.shard.address];
      assert Distinct(EndToEnd.Inputs(init)) by {
        forall i, j | 0 <= i < j < n ensures EndToEnd.Inputs(init)[i] != EndToEnd.Inputs(init)[j] {
          assert EndToEnd.Inputs(items)[i] == EndToEnd.Inputs(init)[i] && EndToEnd.Inputs(items)[j] == EndToEnd.Inputs(init)[j];
        }
      }
      forall x | x in init ensures x.shard in v { assert x in items; }
      ExceptAll(v, kind, token, init);
      assert last in items;
      assert last.shard.address !in EndToEnd.Inputs(init) by {
        forall i | 0 <= i < n ensures EndToEnd.Inputs(init)[i] != last.shard.address {
          assert EndToEnd.Inputs(items)[i] == EndToEnd.Inputs(init)[i] && EndToEnd.Inputs(items)[n] == last.shard.address;
        }
      }
      ExceptOne(v, kind, token, EndToEnd.Inputs(init), last.shard);
      SumByAppend(init, [last], ItemLive(kind, token));
      SumBySingle(last, ItemLive(kind, token));
    }
  }

  // Adding change shards

  function ChangeShard(o: Out, kind: AssetKind, token: Address): Shard {
    Shard(o.to, false, false, [
      match kind
      case Native => NativeAsset(o.amount)
      case ERC20 => ERC20Asset(token, o.amount)
      case ERC721 => ERC721Asset(token, 0, [])])
  }

  function ChangeShardsOf(outs: seq<Out>, kind: AssetKind, token: Address): (r: seq<Shard>)
    ensures |r| == |outs|
  {
    seq(|outs|, i requires 0 <= i < |outs| => ChangeShard(outs[i], kind, token))
  }

  function TokenOf(kind: AssetKind, token: Address): Option<Address> {
    if kind == Native then None else Some(token)
  }

  lemma ChangeShardShows(o: Out, kind: AssetKind, token: Address)
    requires kind != ERC721
    ensures Live(kind, TokenOf(kind, token))(ChangeShard(o, kind, token)) == o.amount
  {
    var s := ChangeShard(o, kind, token);
    var t := TokenOf(kind, token);
    SumBySingle(s.assets[0], Counted(kind, t));
    assert s.assets == [s.assets[0]];
    assert ShardBalance(kind, t)(s) == SumBy(s.assets, Counted(kind, t)) == o.amount;
  }

  /** Every change output goes to an address that is neither stored nor used by an earlier output. */
  ghost predicate NewAddresses(v: View, outs: seq<Out>) {
    && (forall i | 0 <= i < |outs| :: !Has(v, outs[i].to))
    && (forall i, j | 0 <= i < j < |outs| :: outs[i].to != outs[j].to)
  }

  /** The change that is recorded is the change that is sent exactly when no address repeats. */
  lemma {:induction false} RecordedChange(v: View, outs: seq<Out>, kind: AssetKind, token: Address)
    requires kind != ERC721 && forall o | o in outs :: o.amount > 0
    ensures var f := Live(kind, TokenOf(kind, token)); var added := NewOnes(v, ChangeShardsOf(outs, kind, token));
      && 0 <= SumBy(added, f) <= SumBy(outs, Amount)
      && (SumBy(added, f) == SumBy(outs, Amount) <==> NewAddresses(v, outs))
    decreases |outs|
  {
    hide Live;
    if outs != [] {
      var shards, f := ChangeShardsOf(outs, kind, token), Live(kind, TokenOf(kind, token));
      assert shards[1..] == ChangeShardsOf(outs[1..], kind, token);
      assert outs[0] in outs;
      forall o | o in outs[1..] ensures o in outs {}
      var s := shards[0];
      var v' := Added(v, s);
      RecordedChange(v', outs[1..], kind, token);
      if Has(v, s.address) {
        assert !NewAddresses(v, outs);
      } else {
        ChangeShardShows(outs[0], kind, token);
        var rest := NewOnes(v', shards[1..]);
        assert s.(pending := false) == s;
        assert NewOnes(v, shards) == [s] + rest && ([s] + rest)[1..] == rest;
        NewAddressesStep(v, s, outs);
      }
    }
  }

  lemma NewAddressesStep(v: View, s: Shard, outs: seq<Out>)
    requires outs != [] && s.address == outs[0].to && !Has(v, s.address)
    ensures NewAddresses(v, outs) <==> NewAddresses(Added(v, s), outs[1..])
  {
    var v' := Added(v, s);
    forall a ensures Has(v', a) <==> Has(v, a) || a == s.address {
      if Has(v, a) { var i :| 0 <= i < |v| && v[i].address == a; assert v'[i].address == a; }
      if a == s.address { assert v'[|v|].address == a; }
    }
    if NewAddresses(v', outs[1..]) {
      forall i | 0 <= i < |outs| ensures !Has(v, outs[i].to) { if i > 0 { assert outs[1..][i - 1] == outs[i]; } }
      forall i, j | 0 <= i < j < |outs| ensures outs[i].to != outs[j].to {
        assert outs[1..][j - 1] == outs[j];
        if i > 0 { assert outs[1..][i - 1] == outs[i]; }
      }
    }
  }

  // Plans

  lemma {:induction false} ChangeIsPositive(job: Job, n: nat)
    requires job.Valid() && n <= |job.shards|
    ensures forall o | o in ChangeUpTo(job, n) :: o.amount > 0
  {
    if n > 0 {
      ChangeIsPositive(job, n - 1);
      ChangeOutsSum(job, n - 1, |job.change[n - 1]|);
    }
  }

  /** The change of a plan that conserves value is what the inputs hold beyond the amount. */
  lemma ChangeOfConservingPlan(s: Selection, job: Job)
    requires PlanConserves(s) && job.Valid() && job == EndToEnd.JobFor(s, job.kind, job.token, job.mode, job.changePool, job.d)
    requires forall i, x | 0 <= i < |s.items| && (x in s.paymentSplits[i] || x in s.changeSplits[i]) :: x > 0
    ensures SumBy(PreparedPlan(job).changeShards, Amount) == SumBy(s.items, ItemBalance) - s.totalSelected
  {
    hide SumBy;
    var n := |job.shards|;
    ChangeRecordsSum(job, n);
    SentTotals(job, n);
    EndToEnd.RowsTotal(s, n);
    assert job.pay[..n] == job.pay && job.change[..n] == job.change && s.items[..n] == s.items;
  }

  /** What the wallet shows once a plan is prepared: the inputs are gone, the recorded change is there. */
  lemma DisplayedAfterPrepare(v: View, items: seq<PoolItem>, outs: seq<Out>, kind: AssetKind, token: Address)
    requires Fungible(kind, TokenOf(kind, token)) && UniqueAddresses(v)
    requires Distinct(EndToEnd.Inputs(items)) && forall x | x in items :: x.shard in v
    ensures var t := TokenOf(kind, token);
      Displayed(Confirmed(v, EndToEnd.Inputs(items), ChangeShardsOf(outs, kind, token)), kind, t)
      == Displayed(v, kind, t) - SumBy(items, ItemLive(kind, t))
         + SumBy(NewOnes(v, ChangeShardsOf(outs, kind, token)), Live(kind, t))
  {
    hide SumBy, Live, Displayed;
    var t, inputs, change := TokenOf(kind, token), EndToEnd.Inputs(items), ChangeShardsOf(outs, kind, token);
    var marked := WithPending(v, inputs, true);
    AddedManyAppends(marked, change);
    NewOnesByAddress(marked, v, change);
    DisplayedAsSum(v, kind, t);
    DisplayedAsSum(Confirmed(v, inputs, change), kind, t);
    SumByAppend(marked, NewOnes(v, change), Live(kind, t));
    PendingAsExcept(v, kind, t, inputs);
    ExceptAll(v, kind, t, items);
  }

  lemma ItemsShowTheirBalance(v: View, items: seq<PoolItem>, kind: AssetKind, token: Option<Address>)
    requires Fungible(kind, token) && NonNegative(v)
    requires forall s | s in v && IsUnspent(s) :: OnlyFirstCounts(s.assets, kind, token)
    requires forall x | x in items :: x.shard in v && IsUnspent(x.shard) && x.balance == FirstMatch(x.shard.assets, kind, token)
    ensures SumBy(items, ItemLive(kind, token)) == SumBy(items, ItemBalance)
  {
    hide SumBy;
    forall x | x in items ensures ItemLive(kind, token)(x) == ItemBalance(x) {
      HiddenIsRest(x.shard.assets, kind, token);
      assert ShardBalance(kind, token)(x.shard) == SumBy(x.shard.assets, Counted(kind, token));
      assert Live(kind, token)(x.shard) == x.balance;
    }
    SumBySame(items, ItemLive(kind, token), ItemBalance);
  }

  /**
   From selection to the store: preparing a fungible transfer lowers the displayed balance by exactly the amount
   if and only if the change outputs went to new and different addresses. When two of them share an address
   only the first is recorded and the wallet shows less until balances are verified on chain.
  */
  lemma TransferLowersBalanceByAmount(v: View, amount: int, maxSplits: int, dust: int, e: EngineDraws, job: Job)
    requires var t := TokenOf(job.kind, job.token);
      && job.kind != ERC721 && UniqueAddresses(v) && NonNegative(v)
      && (forall s | s in v && IsUnspent(s) :: OnlyFirstCounts(s.assets, job.kind, t))
      && amount >= 0 && dust > 0 && maxSplits >= 1
      && var pool := Shuffle(Pool(UnspentFor(v, job.kind, t, None), job.kind, t), e.swap);
         var r := Engine(pool, amount, maxSplits, dust, e);
         && r.Ok? && !EngineMisallocates(pool, amount, dust, e)
         && job.Valid() && job == EndToEnd.JobFor(r.value, job.kind, job.token, job.mode, job.changePool, job.d)
    ensures var t := TokenOf(job.kind, job.token); var p := PreparedPlan(job);
      var after := Confirmed(v, p.shardAddresses, ChangeShardsOf(p.changeShards, job.kind, job.token));
      && Displayed(after, job.kind, t) <= Displayed(v, job.kind, t) - amount
      && (Displayed(after, job.kind, t) == Displayed(v, job.kind, t) - amount <==> NewAddresses(v, p.changeShards))
  {
    hide SumBy, Live, Displayed, Engine, Shuffle, Pool, NewAddresses, NewOnes, OnlyFirstCounts, UnspentFor;
    var t := TokenOf(job.kind, job.token);
    var shards := UnspentFor(v, job.kind, t, None);
    var pool := Shuffle(Pool(shards, job.kind, t), e.swap);
    var s := Engine(pool, amount, maxSplits, dust, e).value;
    PoolIsRequest(shards, job.kind, t, amount, dust);
    ShuffledRequest(Pool(shards, job.kind, t), amount, dust, e.swap);
    InsufficientExactlyWhenTooSmall(Pool(shards, job.kind, t), amount, maxSplits, dust, e);
    PlanConservesExactly(pool, amount, maxSplits, dust, e);
    PlanOutputsAreBounded(pool, amount, maxSplits, dust, e);
    EndToEnd.EngineItems(pool, amount, maxSplits, dust, e);
    SelectionComesFromStore(v, job.kind, t, amount, maxSplits, dust, e);
    ItemsShowTheirBalance(v, s.items, job.kind, t);
    ChangeOfConservingPlan(s, job);
    var outs := PreparedPlan(job).changeShards;
    ChangeIsPositive(job, |job.shards|);
    DisplayedAfterPrepare(v, s.items, outs, job.kind, job.token);
    RecordedChange(v, outs, job.kind, job.token);
  }

  /** Confirming a transfer removes only shards that are already hidden: the displayed balance stays. */
  lemma {:induction false} ConfirmationKeepsBalance(v: View, inputs: seq<Address>, kind: AssetKind, token: Option<Address>)
    requires Fungible(kind, token)
    requires forall s | s in v && s.address in inputs :: !IsUnspent(s)
    ensures Displayed(Removed(v, inputs), kind, token) == Displayed(v, kind, token)
  {
    DisplayedAsSum(v, kind, token);
    DisplayedAsSum(Removed(v, inputs), kind, token);
    RemovedSum(v, inputs, kind, token);
  }

  lemma {:induction false} RemovedSum(v: View, inputs: seq<Address>, kind: AssetKind, token: Option<Address>)
    requires forall s | s in v && s.address in inputs :: !IsUnspent(s)
    ensures SumBy(Removed(v, inputs), Live(kind, token)) == SumBy(v, Live(kind, token))
  {
    if v != [] {
      assert v[0] in v;
      forall s | s in v[1..] ensures s in v {}
      RemovedSum(v[1..], inputs, kind, token);
      if v[0].address !in inputs {
        assert Removed(v, inputs)[1..] == Removed(v[1..], inputs);
      } else {
        assert Removed(v, inputs) == Removed(v[1..], inputs);
      }
    }
  }

  /** A relay whose execution reverted leaves a displayed balance that is too high by the change it recorded. */
  lemma RevertedRelayOverstates(v: View, inputs: seq<Address>, outs: seq<Out>, kind: AssetKind, token: Address)
    requires kind != ERC721 && NonePending(v, inputs) && forall o | o in outs :: o.amount > 0
    ensures var t := TokenOf(kind, token); var change := ChangeShardsOf(outs, kind, token);
      var after := AfterRelay(v, inputs, change, Reverted);
      && Displayed(after, kind, t) == Displayed(v, kind, t) + SumBy(NewOnes(v, change), Live(kind, t))
      && (Displayed(after, kind, t) == Displayed(v, kind, t) <==> forall o | o in outs :: Has(v, o.to))
  {
    hide SumBy, Live, Displayed;
    var t, change := TokenOf(kind, token), ChangeShardsOf(outs, kind, token);
    FailureRestoresInputsOnly(v, inputs, change);
    DisplayedAsSum(v, kind, t);
    DisplayedAsSum(v + NewOnes(v, change), kind, t);
    SumByAppend(v, NewOnes(v, change), Live(kind, t));
    SomethingRecorded(v, outs, kind, token);
  }

  /** Nothing is recorded exactly when every change address is stored already. */
  lemma {:induction false} SomethingRecorded(v: View, outs: seq<Out>, kind: AssetKind, token: Address)
    requires kind != ERC721 && forall o | o in outs :: o.amount > 0
    ensures SumBy(NewOnes(v, ChangeShardsOf(outs, kind, token)), Live(kind, TokenOf(kind, token))) >= 0
    ensures SumBy(NewOnes(v, ChangeShardsOf(outs, kind, token)), Live(kind, TokenOf(kind, token))) == 0
       <==> forall o | o in outs :: Has(v, o.to)
    decreases |outs|
  {
    hide Live;
    if outs != [] {
      var shards, f := ChangeShardsOf(outs, kind, token), Live(kind, TokenOf(kind, token));
      assert shards[1..] == ChangeShardsOf(outs[1..], kind, token);
      assert outs[0] in outs;
      forall o | o in outs[1..] ensures o in outs {}
      var s := shards[0];
      if Has(v, s.address) {
        SomethingRecorded(v, outs[1..], kind, token);
        assert forall o | o in outs :: o == outs[0] || o in outs[1..];
      } else {
        SomethingRecorded(Added(v, s), outs[1..], kind, token);
        ChangeShardShows(outs[0], kind, token);
        var rest := NewOnes(Added(v, s), shards[1..]);
        assert s.(pending := false) == s;
        assert NewOnes(v, shards) == [s] + rest && ([s] + rest)[1..] == rest;
      }
    }
  }
}
