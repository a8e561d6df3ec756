/** Selection, plan, fusion and router together: what a fungible transfer does to the ledger. */
module EndToEnd {
  import opened Seqs
  import opened Protocol
  import opened Randomness
  import opened Allocation
  import opened CoinSelection
  import SelectionProperties
  import opened Fusion
  import opened Plan
  import opened PlanProperties
  import opened Ledger
  import opened RouterSpec

  function AddressOf(item: PoolItem): Address { item.shard.address }

  function Inputs(items: seq<PoolItem>): (a: seq<Address>)
    ensures |a| == |items|
  {
    seq(|items|, i requires 0 <= i < |items| => AddressOf(items[i]))
  }

  /** The job a selection is turned into. */
  function JobFor(s: Selection, kind: AssetKind, token: Address, mode: Mode, changePool: seq<Address>, d: PlanDraws): Job {
    Job(Inputs(s.items), kind, token, mode, changePool, s.paymentSplits, s.changeSplits, d)
  }

  // Commands of a plan

  /** A command goes from an input shard to a recipient or a change address and carries something. */
  ghost predicate Wired(job: Job, c: Command) {
    && c.kind == job.kind && c.token == job.token && c.value > 0
    && c.shard in job.shards && (c.to in Recipients(job) || c.to in job.changePool)
  }

  lemma RowIsWired(job: Job, i: nat)
    requires job.Valid() && i < |job.shards| && job.kind != ERC721
    ensures forall c | c in RowCommands(job, i) :: Wired(job, c)
  {
    hide SumBy;
    PayOutsSum(job, i, |job.pay[i]|);
    ChangeOutsSum(job, i, |job.change[i]|);
    var outs := RowPay(job, i) + RowChange(job, i);
    var local := ToCommands(job, i, outs);
    ShuffleKeepsElements(local, job.d.order(i));
    forall c | c in RowCommands(job, i) ensures Wired(job, c) {
      assert c in multiset(local);
      var k :| 0 <= k < |local| && local[k] == c;
      assert outs[k] in outs;
    }
  }

  lemma {:induction false} PlanIsWired(job: Job, n: nat)
    requires job.Valid() && n <= |job.shards| && job.kind != ERC721
    ensures forall c | c in CommandsUpTo(job, n) :: Wired(job, c)
  {
    hide RowCommands, Wired;
    if n > 0 {
      PlanIsWired(job, n - 1);
      RowIsWired(job, n - 1);
    }
  }

  lemma {:induction false} PositiveFlow(cmds: seq<Command>, k: Key)
    requires forall c | c in cmds :: c.value > 0 && c.kind != ERC721
    ensures Total(cmds, k) >= 0
    ensures k in KeysOf(cmds) ==> Total(cmds, k) > 0
  {
    if cmds != [] {
      assert cmds[0] in cmds;
      forall c | c in cmds[1..] ensures c in cmds {}
      PositiveFlow(cmds[1..], k);
      assert KeysOf(cmds) == [KeyOf(cmds[0])] + KeysOf(cmds[1..]);
    }
  }

  lemma NoNfts(cmds: seq<Command>)
    requires forall c | c in cmds :: c.kind != ERC721
    ensures Nfts(cmds) == []
  {
    if Nfts(cmds) != [] {
      NftsAre(cmds, Nfts(cmds)[0]);
    }
  }

  lemma FusedCommandIsWired(job: Job, cmds: seq<Command>, j: nat)
    requires job.kind != ERC721 && j < |FirstUses(cmds)|
    requires forall c | c in cmds :: Wired(job, c)
    ensures var k := FirstUses(cmds)[j]; Wired(job, Command(k.shard, k.kind, k.token, k.to, Total(cmds, k)))
  {
    hide SumBy, Flow, Recipients;
    var k := FirstUses(cmds)[j];
    FirstUsesAreTheKeys(cmds, k);
    PositiveFlow(cmds, k);
    var i :| 0 <= i < |cmds| && KeysOf(cmds)[i] == k;
    assert cmds[i] in cmds;
  }

  lemma FusedIsWired(job: Job, cmds: seq<Command>)
    requires job.kind != ERC721
    requires forall c | c in cmds :: Wired(job, c)
    ensures forall c | c in Fused(cmds) :: Wired(job, c)
  {
    forall c | c in cmds ensures c.kind != ERC721 { assert Wired(job, c); }
    NoNfts(cmds);
    hide SumBy, Flow, Total, Wired, Fused, FirstUses, Nfts;
    FusedIsOneCommandPerKey(cmds);
    var fused := Fused(cmds);
    forall c | c in fused ensures Wired(job, c) {
      var j :| 0 <= j < |fused| && fused[j] == c;
      assert fused[|Nfts(cmds)| + j] == fused[j];
      FusedCommandIsWired(job, cmds, j);
    }
  }

  // The ledger

  lemma {:induction false} ShuffledStaysDistinct(items: seq<PoolItem>, i: nat, draw: nat -> Draw)
    requires items == [] ==> i == 0
    requires items != [] ==> i < |items|
    requires Distinct(Inputs(items))
    ensures Distinct(Inputs(Shuffled(items, i, draw)))
    decreases i
  {
    if i > 0 {
      var j := Pick(draw(i), i + 1);
      var swapped := items[i := items[j]][j := items[i]];
      assert Inputs(swapped) == Inputs(items)[i := Inputs(items)[j]][j := Inputs(items)[i]];
      ShuffledStaysDistinct(swapped, i - 1, draw);
    }
  }

  /** Distinct shards stay distinct through the shuffle and the selection of a prefix. */
  lemma SelectedInputsAreDistinct(unshuffled: seq<PoolItem>, amount: int, e: EngineDraws)
    requires Distinct(Inputs(unshuffled))
    ensures Distinct(Inputs(Selected(Shuffle(unshuffled, e.swap), amount, e)))
  {
    ShuffledStaysDistinct(unshuffled, if unshuffled == [] then 0 else |unshuffled| - 1, e.swap);
    var items := Selected(Shuffle(unshuffled, e.swap), amount, e);
    var shuffled := Shuffle(unshuffled, e.swap);
    forall i | 0 <= i < |items| ensures Inputs(items)[i] == Inputs(shuffled)[i] {
      assert items[i] == shuffled[i];
    }
  }

  /** Addresses of inputs, recipients and change are all different, as fresh stealth addresses are. */
  ghost predicate Separate(job: Job) {
    && Distinct(job.shards) && Distinct(Recipients(job)) && Distinct(job.changePool)
    && Disjoint(Recipients(job), job.changePool)
    && Disjoint(Recipients(job), job.shards) && Disjoint(job.changePool, job.shards)
  }

  /** Every input shard holds exactly what the plan's row sends. */
  ghost predicate HoldsItsRow(job: Job, l: Books, coin: Coin)
    requires job.Valid()
  {
    forall i | 0 <= i < |job.shards| :: Funds(l, coin, job.shards[i]) == Sent(job.pay[i]) + Sent(job.change[i])
  }

  lemma PlanFlows(job: Job, cmds: seq<Command>, p: Key -> bool)
    requires job.Valid() && multiset(cmds) == multiset(PreparedPlan(job).commands)
    ensures Flow(cmds, p) == Flow(CommandsUpTo(job, |job.shards|), p)
  {
    hide SumBy;
    SumByPermutation(cmds, PreparedPlan(job).commands, Weight(p));
    FusionPreservesFlow(CommandsUpTo(job, |job.shards|), p);
  }

  lemma PlanIsOneWay(job: Job, cmds: seq<Command>)
    requires job.Valid() && job.kind != ERC721 && Separate(job)
    requires multiset(cmds) == multiset(PreparedPlan(job).commands)
    ensures OneWay(cmds, CoinOf(job.kind, job.token)) && forall c | c in cmds :: Wired(job, c)
  {
    PlanIsWired(job, |job.shards|);
    FusedIsWired(job, CommandsUpTo(job, |job.shards|));
    forall c | c in cmds ensures Wired(job, c) {
      assert c in multiset(PreparedPlan(job).commands);
    }
  }

  lemma SourceFlow(job: Job, cmds: seq<Command>, i: nat)
    requires job.Valid() && job.kind != ERC721 && Separate(job) && i < |job.shards|
    requires multiset(cmds) == multiset(PreparedPlan(job).commands)
    ensures Flow(cmds, From(job.shards[i])) == Sent(job.pay[i]) + Sent(job.change[i])
    ensures Flow(cmds, Into(job.shards[i])) == 0
  {
    hide SumBy, Wired;
    PlanFlows(job, cmds, From(job.shards[i]));
    FlowFrom(job, |job.shards|, job.shards[i], i);
    PlanIsOneWay(job, cmds);
    SourcesReceiveNothing(job, cmds, i);
    NoFlowIntoSource(cmds, CoinOf(job.kind, job.token), job.shards[i]);
  }

  lemma SourcesReceiveNothing(job: Job, cmds: seq<Command>, i: nat)
    requires Separate(job) && i < |job.shards| && forall c | c in cmds :: Wired(job, c)
    ensures forall c | c in cmds :: c.to != job.shards[i]
  {
    assert job.shards[i] in job.shards;
  }

  lemma {:induction false} NoFlowFromOutsiders(job: Job, cmds: seq<Command>, a: Address)
    requires job.kind != ERC721 && a !in job.shards
    requires forall c | c in cmds :: Wired(job, c)
    ensures Flow(cmds, From(a)) == 0
  {
    if cmds != [] {
      assert cmds[0] in cmds;
      forall c | c in cmds[1..] ensures c in cmds {}
      FlowHead(cmds, From(a));
      FlowOne(cmds[0], a);
      NoFlowFromOutsiders(job, cmds[1..], a);
    }
  }

  lemma {:induction false} NoFlowToOutsiders(job: Job, cmds: seq<Command>, a: Address)
    requires job.kind != ERC721 && a !in Recipients(job) && a !in job.changePool
    requires forall c | c in cmds :: Wired(job, c)
    ensures Flow(cmds, Into(a)) == 0
  {
    if cmds != [] {
      assert cmds[0] in cmds;
      forall c | c in cmds[1..] ensures c in cmds {}
      FlowHead(cmds, Into(a));
      FlowOne(cmds[0], a);
      NoFlowToOutsiders(job, cmds[1..], a);
    }
  }

  /** The effect of a plan whose rows match what the inputs hold, in any order of its commands. */
  ghost predicate Drains(job: Job, l: Books, l': Books, coin: Coin, paid: int, change: int) {
    && (forall i | 0 <= i < |job.shards| :: Funds(l', coin, job.shards[i]) == 0)
    && PoolFunds(l', coin, Recipients(job)) == PoolFunds(l, coin, Recipients(job)) + paid
    && PoolFunds(l', coin, job.changePool) == PoolFunds(l, coin, job.changePool) + change
    && (forall a | a !in job.shards && a !in Recipients(job) && a !in job.changePool :: Funds(l', coin, a) == Funds(l, coin, a))
  }

  lemma PlanIsCovered(job: Job, cmds: seq<Command>, l: Books)
    requires job.Valid() && job.kind != ERC721 && Separate(job) && HoldsItsRow(job, l, CoinOf(job.kind, job.token))
    requires multiset(cmds) == multiset(PreparedPlan(job).commands)
    ensures OneWay(cmds, CoinOf(job.kind, job.token)) && Covered(l, cmds, CoinOf(job.kind, job.token))
  {
    hide SumBy, Flow, Sent, OneWay;
    PlanIsOneWay(job, cmds);
    forall c | c in cmds ensures Flow(cmds, From(c.shard)) <= Funds(l, CoinOf(job.kind, job.token), c.shard) {
      assert Wired(job, c);
      var i :| 0 <= i < |job.shards| && job.shards[i] == c.shard;
      SourceFlow(job, cmds, i);
    }
  }

  /** What a settled plan does to each account. */
  lemma PlanEffectPerAccount(job: Job, cmds: seq<Command>, l: Books, a: Address)
    requires job.Valid() && job.kind != ERC721 && Separate(job) && HoldsItsRow(job, l, CoinOf(job.kind, job.token))
    requires multiset(cmds) == multiset(PreparedPlan(job).commands)
    ensures TransferAll(l, cmds).Some?
    ensures Funds(TransferAll(l, cmds).value, CoinOf(job.kind, job.token), a)
         == if a in job.shards then 0 else Funds(l, CoinOf(job.kind, job.token), a) + Flow(cmds, Into(a))
    ensures a !in job.shards && a !in Recipients(job) && a !in job.changePool ==> Flow(cmds, Into(a)) == 0
  {
    hide SumBy, Flow, Sent, OneWay, Covered, Wired, PreparedPlan, Recipients;
    PlanIsCovered(job, cmds, l);
    PlanIsOneWay(job, cmds);
    TransfersSettle(l, cmds, CoinOf(job.kind, job.token));
    assert NetOf(l, TransferAll(l, cmds).value, CoinOf(job.kind, job.token), a, cmds);
    if a in job.shards {
      var i :| 0 <= i < |job.shards| && job.shards[i] == a;
      SourceFlow(job, cmds, i);
    } else {
      NoFlowFromOutsiders(job, cmds, a);
      if a !in Recipients(job) && a !in job.changePool { NoFlowToOutsiders(job, cmds, a); }
    }
  }

  /** One of the two pools gains what flows into it. */
  lemma PlanFillsPool(job: Job, cmds: seq<Command>, l: Books, pool: seq<Address>)
    requires job.Valid() && job.kind != ERC721 && Separate(job) && HoldsItsRow(job, l, CoinOf(job.kind, job.token))
    requires multiset(cmds) == multiset(PreparedPlan(job).commands)
    requires pool == Recipients(job) || pool == job.changePool
    ensures TransferAll(l, cmds).Some?
    ensures PoolFunds(TransferAll(l, cmds).value, CoinOf(job.kind, job.token), pool)
         == PoolFunds(l, CoinOf(job.kind, job.token), pool) + Flow(CommandsUpTo(job, |job.shards|), IntoAny(pool))
  {
    hide SumBy, Flow, PreparedPlan, TransferAll;
    PlanEffectPerAccount(job, cmds, l, 0);
    var l' := TransferAll(l, cmds).value;
    forall a | a in pool ensures Funds(l', CoinOf(job.kind, job.token), a) == Funds(l, CoinOf(job.kind, job.token), a) + Flow(cmds, Into(a)) {
      PlanEffectPerAccount(job, cmds, l, a);
    }
    PoolGains(l, l', cmds, CoinOf(job.kind, job.token), pool);
    PlanFlows(job, cmds, IntoAny(pool));
  }

  lemma PlanDrainsInputs(job: Job, cmds: seq<Command>, l: Books)
    requires job.Valid() && job.kind != ERC721 && Separate(job) && HoldsItsRow(job, l, CoinOf(job.kind, job.token))
    requires multiset(cmds) == multiset(PreparedPlan(job).commands)
    ensures TransferAll(l, cmds).Some?
    ensures Drains(job, l, TransferAll(l, cmds).value, CoinOf(job.kind, job.token), SentPay(job, |job.shards|), SentChange(job, |job.shards|))
  {
    hide SumBy, Flow, PreparedPlan, TransferAll, HoldsItsRow;
    PlanEffectPerAccount(job, cmds, l, 0);
    var l' := TransferAll(l, cmds).value;
    forall a
      ensures a in job.shards ==> Funds(l', CoinOf(job.kind, job.token), a) == 0
      ensures a !in job.shards && a !in Recipients(job) && a !in job.changePool ==>
        Funds(l', CoinOf(job.kind, job.token), a) == Funds(l, CoinOf(job.kind, job.token), a)
    {
      PlanEffectPerAccount(job, cmds, l, a);
    }
    PlanFillsPool(job, cmds, l, Recipients(job));
    PlanFillsPool(job, cmds, l, job.changePool);
    FlowIntoPools(job, |job.shards|);
  }

  // The whole path

  /** The selected shards hold their recorded balances on the ledger. */
  ghost predicate HoldsRecorded(items: seq<PoolItem>, l: Books, coin: Coin) {
    forall i | 0 <= i < |items| :: Funds(l, coin, AddressOf(items[i])) == items[i].balance
  }

  /** A job whose selection conserves value sends each input's whole balance and pays the amount. */
  lemma ConservingJob(s: Selection, job: Job, amount: int, l: Books)
    requires SelectionProperties.PlanConserves(s) && s.totalSelected == amount
    requires job == JobFor(s, job.kind, job.token, job.mode, job.changePool, job.d) && job.Valid()
    requires forall i, x | 0 <= i < |s.items| && (x in s.paymentSplits[i] || x in s.changeSplits[i]) :: x > 0
    requires HoldsRecorded(s.items, l, CoinOf(job.kind, job.token))
    ensures HoldsItsRow(job, l, CoinOf(job.kind, job.token))
    ensures SentPay(job, |job.shards|) == amount
    ensures SentChange(job, |job.shards|) == SumBy(s.items, SelectionProperties.ItemBalance) - amount
  {
    hide SumBy;
    var n := |job.shards|;
    forall i | 0 <= i < n ensures Funds(l, CoinOf(job.kind, job.token), job.shards[i]) == Sent(job.pay[i]) + Sent(job.change[i]) {
      SentIsSum(job.pay[i]);
      SentIsSum(job.change[i]);
      assert SelectionProperties.RowConserves(s, i);
      assert job.shards[i] == AddressOf(s.items[i]);
    }
    SentTotals(job, n);
    assert job.pay[..n] == job.pay && job.change[..n] == job.change;
    RowsTotal(s, n);
    assert s.items[..n] == s.items;
  }

  lemma {:induction false} RowsTotal(s: Selection, n: nat)
    requires SelectionProperties.PlanConserves(s) && n <= |s.items|
    ensures Sum2(s.paymentSplits[..n]) + Sum2(s.changeSplits[..n]) == SumBy(s.items[..n], SelectionProperties.ItemBalance)
  {
    hide SumBy;
    if n == 0 {
      assert s.paymentSplits[..0] == [] && s.changeSplits[..0] == [];
      SumByEmpty(s.items[..0], SelectionProperties.ItemBalance);
    } else {
      RowsTotal(s, n - 1);
      Sum2Snoc(s.paymentSplits, n - 1);
      Sum2Snoc(s.changeSplits, n - 1);
      assert s.items[..n] == s.items[..n - 1] + [s.items[n - 1]];
      SumByAppend(s.items[..n - 1], [s.items[n - 1]], SelectionProperties.ItemBalance);
      SumBySingle(s.items[n - 1], SelectionProperties.ItemBalance);
      assert SelectionProperties.RowConserves(s, n - 1);
    }
  }

  /** A call that carries these commands signed by their shards, to accounts that accept and do nothing else. */
  ghost predicate Carries(m: MeshCall, cmds: seq<Command>) {
    && |m.commands| == |cmds|
    && (forall k | 0 <= k < |cmds| ::
          var c := m.commands[k];
          c.cmd == cmds[k] && c.signer == cmds[k].shard && c.accepts && c.onTransfer == [])
  }

  lemma {:induction false} CarriedSettles(m: MeshCall, cmds: seq<Command>, l: Books, n: nat)
    requires Carries(m, cmds) && n <= |cmds|
    ensures Settle(l, m.commands[..n]) == TransferAll(l, cmds[..n])
  {
    if n == 0 {
      assert m.commands[..0] == [] && cmds[..0] == [];
    } else {
      CarriedSettles(m, cmds, l, n - 1);
      assert m.commands[..n][..n - 1] == m.commands[..n - 1] && m.commands[..n][n - 1] == m.commands[n - 1];
      assert cmds[..n] == cmds[..n - 1] + [cmds[n - 1]];
      TransferAllSnoc(l, cmds[..n - 1], cmds[n - 1]);
    }
  }

  lemma {:induction false} TransferAllSnoc(l: Books, cmds: seq<Command>, c: Command)
    ensures TransferAll(l, cmds + [c])
      == match TransferAll(l, cmds) case None => None case Some(l') => Transfer(l', c)
    decreases |cmds|
  {
    if cmds == [] {
      assert cmds + [c] == [c];
    } else {
      assert (cmds + [c])[1..] == cmds[1..] + [c];
      if Transfer(l, cmds[0]).Some? { TransferAllSnoc(Transfer(l, cmds[0]).value, cmds[1..], c); }
    }
  }

  /** Selection and plan as far as the ledger: the commands, in any order, settle and drain the inputs. */
  lemma SelectionSettles(pool: seq<PoolItem>, amount: int, maxSplits: int, dust: int, e: EngineDraws,
                         job: Job, cmds: seq<Command>, l: Books)
    requires SelectionProperties.Request(pool, amount, dust) && Sum(Balances(pool)) >= amount && dust > 0 && maxSplits >= 1
    requires !SelectionProperties.EngineMisallocates(pool, amount, dust, e)
    requires var r := Engine(pool, amount, maxSplits, dust, e);
      r.Ok? && job == JobFor(r.value, job.kind, job.token, job.mode, job.changePool, job.d)
    requires job.Valid() && job.kind != ERC721 && Separate(job)
    requires multiset(cmds) == multiset(PreparedPlan(job).commands)
    requires HoldsRecorded(Selected(pool, amount, e), l, CoinOf(job.kind, job.token))
    ensures TransferAll(l, cmds).Some?
    ensures Drains(job, l, TransferAll(l, cmds).value, CoinOf(job.kind, job.token), amount, PreparedPlan(job).changeAmount)
    ensures PreparedPlan(job).changeAmount == SumBy(Selected(pool, amount, e), SelectionProperties.ItemBalance) - amount
  {
    hide SumBy, Flow, PreparedPlan, TransferAll, Engine, Drains, Separate, Selected, HoldsItsRow;
    var s := Engine(pool, amount, maxSplits, dust, e).value;
    SelectionProperties.PlanConservesExactly(pool, amount, maxSplits, dust, e);
    SelectionProperties.PlanOutputsAreBounded(pool, amount, maxSplits, dust, e);
    EngineItems(pool, amount, maxSplits, dust, e);
    ConservingJob(s, job, amount, l);
    PlanDrainsInputs(job, cmds, l);
    ChangeAmountIsSent(job);
  }

  /**
   The exact condition: the commands of a plan settle on the ledger if and only if selection did not
   misallocate. (LargeBalancesConserve gives a check on the pool that rules misallocation out.)
  */
  lemma PlanSettlesExactly(pool: seq<PoolItem>, amount: int, maxSplits: int, dust: int, e: EngineDraws,
                           job: Job, cmds: seq<Command>, l: Books)
    requires SelectionProperties.Request(pool, amount, dust) && Sum(Balances(pool)) >= amount && dust > 0 && maxSplits >= 1
    requires var r := Engine(pool, amount, maxSplits, dust, e);
      r.Ok? && job == JobFor(r.value, job.kind, job.token, job.mode, job.changePool, job.d)
    requires job.Valid() && job.kind != ERC721 && Separate(job)
    requires multiset(cmds) == multiset(PreparedPlan(job).commands)
    requires HoldsRecorded(Selected(pool, amount, e), l, CoinOf(job.kind, job.token))
    ensures TransferAll(l, cmds).Some? <==> !SelectionProperties.EngineMisallocates(pool, amount, dust, e)
  {
    hide SumBy, Flow, PreparedPlan, TransferAll, Engine, Separate, Selected;
    if !SelectionProperties.EngineMisallocates(pool, amount, dust, e) {
      SelectionSettles(pool, amount, maxSplits, dust, e, job, cmds, l);
    } else {
      var i := SelectionProperties.MisallocatedRowOverspends(pool, amount, maxSplits, dust, e);
      SelectionProperties.PlanOutputsAreBounded(pool, amount, maxSplits, dust, e);
      EngineItems(pool, amount, maxSplits, dust, e);
      SentIsSum(job.pay[i]);
      SentIsSum(job.change[i]);
      assert job.shards[i] == AddressOf(Selected(pool, amount, e)[i]);
      SourceFlow(job, cmds, i);
      PlanIsOneWay(job, cmds);
      if TransferAll(l, cmds).Some? {
        SettledIsCovered(l, cmds, CoinOf(job.kind, job.token));
      }
    }
  }

  /** A sandbox whose commands settle on the ledger and come from unspent shards succeeds. */
  lemma SandboxCarries(st: State, m: MeshCall, cmds: seq<Command>)
    requires Carries(m, cmds) && TransferAll(st.books, cmds).Some? && st.marks <= st.spent
    requires m.callGasSuffices && (forall a | a in m.announced :: a !in st.spent)
    requires forall c | c in cmds :: c.shard !in st.spent
    ensures Sandbox(st, m).Some?
    ensures var t := Sandbox(st, m).value;
      && t.books == TransferAll(st.books, cmds).value
      && (forall c | c in cmds :: c.shard in t.spent)
      && t.history == st.history + Spends(st.tx, m.commands)
  {
    hide Settle, TransferAll;
    CarriedSettles(m, cmds, st.books, |cmds|);
    assert m.commands[..|cmds|] == m.commands && cmds[..|cmds|] == cmds;
    forall k | 0 <= k < |m.commands| ensures Authorized(st, m.commands[k]) {
      assert m.commands[k].cmd == cmds[k];
    }
    forall c | c in cmds ensures c.shard in Shards(m.commands) {
      var k :| 0 <= k < |cmds| && cmds[k] == c;
      assert m.commands[k].cmd.shard == c.shard;
    }
  }

  /**
   From request to ledger. A fundable request over distinct shards, each holding its recorded balance,
   to fresh and separate addresses, whose selection does not misallocate: whatever the draws and whatever order
   the fused commands run in, the sandbox succeeds, every input shard is left empty and every shard
   that sent is spent, the recipients gain exactly the amount and the change pool exactly the rest,
   which is `changeAmount`.
  */
  lemma TransferEndToEnd(pool: seq<PoolItem>, amount: int, maxSplits: int, dust: int, e: EngineDraws,
                         job: Job, cmds: seq<Command>, st: State, m: MeshCall)
    requires SelectionProperties.Request(pool, amount, dust) && Sum(Balances(pool)) >= amount && dust > 0 && maxSplits >= 1
    requires !SelectionProperties.EngineMisallocates(pool, amount, dust, e)
    requires var r := Engine(pool, amount, maxSplits, dust, e);
      r.Ok? && job == JobFor(r.value, job.kind, job.token, job.mode, job.changePool, job.d)
    requires job.Valid() && job.kind != ERC721 && Separate(job)
    requires multiset(cmds) == multiset(PreparedPlan(job).commands) && Carries(m, cmds)
    requires HoldsRecorded(Selected(pool, amount, e), st.books, CoinOf(job.kind, job.token))
    requires m.callGasSuffices && (forall a | a in m.announced :: a !in st.spent)
    requires st.marks <= st.spent && forall a | a in job.shards :: a !in st.spent
    ensures Sandbox(st, m).Some?
    ensures var t := Sandbox(st, m).value;
      && Drains(job, st.books, t.books, CoinOf(job.kind, job.token), amount, PreparedPlan(job).changeAmount)
      && PreparedPlan(job).changeAmount == SumBy(Selected(pool, amount, e), SelectionProperties.ItemBalance) - amount
      && (forall a | a in job.shards :: a in t.spent)
      && t.history == st.history + Spends(st.tx, m.commands)
  {
    hide SumBy, Flow, PreparedPlan, TransferAll, Settle, Engine, Drains, Selected, Sandbox, Carries, Separate, HoldsRecorded;
    SelectionSettles(pool, amount, maxSplits, dust, e, job, cmds, st.books);
    PlanIsOneWay(job, cmds);
    forall c | c in cmds ensures c.shard !in st.spent { assert Wired(job, c); }
    SandboxCarries(st, m, cmds);
    forall a | a in job.shards ensures a in Sandbox(st, m).value.spent {
      InputSends(pool, amount, maxSplits, dust, e, job, cmds, st.books, a);
    }
  }

  /** Every input has a command: its balance is positive, so something flows out of it. */
  lemma InputSends(pool: seq<PoolItem>, amount: int, maxSplits: int, dust: int, e: EngineDraws,
                   job: Job, cmds: seq<Command>, l: Books, a: Address)
    requires SelectionProperties.Request(pool, amount, dust) && Sum(Balances(pool)) >= amount && dust > 0 && maxSplits >= 1
    requires !SelectionProperties.EngineMisallocates(pool, amount, dust, e)
    requires var r := Engine(pool, amount, maxSplits, dust, e);
      r.Ok? && job == JobFor(r.value, job.kind, job.token, job.mode, job.changePool, job.d)
    requires job.Valid() && job.kind != ERC721 && Separate(job)
    requires multiset(cmds) == multiset(PreparedPlan(job).commands)
    requires HoldsRecorded(Selected(pool, amount, e), l, CoinOf(job.kind, job.token)) && a in job.shards
    ensures exists c | c in cmds :: c.shard == a
  {
    hide SumBy, Flow, PreparedPlan, Engine, Selected, Separate;
    var s := Engine(pool, amount, maxSplits, dust, e).value;
    SelectionProperties.PlanConservesExactly(pool, amount, maxSplits, dust, e);
    SelectionProperties.PlanOutputsAreBounded(pool, amount, maxSplits, dust, e);
    EngineItems(pool, amount, maxSplits, dust, e);
    ConservingJob(s, job, amount, l);
    var i :| 0 <= i < |job.shards| && job.shards[i] == a;
    SourceFlow(job, cmds, i);
    SelectedIsPositive(pool, amount, e, i);
    assert Flow(cmds, From(a)) == s.items[i].balance > 0;
    if forall c | c in cmds :: c.shard != a {
      NoFlowFromAbsent(cmds, a);
    }
  }

  lemma SelectedIsPositive(pool: seq<PoolItem>, amount: int, e: EngineDraws, i: nat)
    requires Positive(Balances(pool)) && i < |Selected(pool, amount, e)|
    ensures Selected(pool, amount, e)[i].balance > 0
  {
    assert Selected(pool, amount, e)[i] == pool[i];
    assert Balances(pool)[i] == pool[i].balance;
  }

  lemma {:induction false} NoFlowFromAbsent(cmds: seq<Command>, a: Address)
    requires forall c | c in cmds :: c.shard != a
    ensures Flow(cmds, From(a)) == 0
  {
    if cmds != [] {
      assert cmds[0] in cmds;
      forall c | c in cmds[1..] ensures c in cmds {}
      assert !From(a)(KeyOf(cmds[0]));
      NoFlowFromAbsent(cmds[1..], a);
    }
  }

  lemma EngineItems(pool: seq<PoolItem>, amount: int, maxSplits: int, dust: int, e: EngineDraws)
    requires Engine(pool, amount, maxSplits, dust, e).Ok?
    ensures var s := Engine(pool, amount, maxSplits, dust, e).value;
      s.items == Selected(pool, amount, e) && s.totalSelected == amount
  {}

  lemma ChangeAmountIsSent(job: Job)
    requires job.Valid()
    ensures PreparedPlan(job).changeAmount == SentChange(job, |job.shards|)
  {
    ChangeRecordsSum(job, |job.shards|);
  }

  /** The same call moves no other coin and no token id. */
  lemma TransferMovesOneCoin(job: Job, cmds: seq<Command>, st: State, m: MeshCall)
    requires job.Valid() && job.kind != ERC721 && Separate(job)
    requires multiset(cmds) == multiset(PreparedPlan(job).commands) && Carries(m, cmds) && Sandbox(st, m).Some?
    ensures var t := Sandbox(st, m).value;
      && t.books.owners == st.books.owners
      && (forall coin, a | coin != CoinOf(job.kind, job.token) :: Funds(t.books, coin, a) == Funds(st.books, coin, a))
  {
    hide PreparedPlan, Settle, TransferAll, Separate;
    PlanIsOneWay(job, cmds);
    CarriedSettles(m, cmds, st.books, |cmds|);
    assert m.commands[..|cmds|] == m.commands && cmds[..|cmds|] == cmds;
    TransfersTouchOneCoin(st.books, cmds, CoinOf(job.kind, job.token));
  }

  // One token id

  /**
   The whole path of a token id: its plan, signed and carried through the sandbox by an unspent shard, goes through if and
   only if the shard owns the id. Then the recipient owns it, the shard is spent and nothing else has moved.
  */
  lemma NftEndToEnd(job: Job, tokenId: int, st: State, m: MeshCall)
    requires NftJob(job, tokenId) && (job.mode.Public? ==> tokenId > 0)
    requires Carries(m, PreparedPlan(job).commands)
    requires m.callGasSuffices && (forall a | a in m.announced :: a !in st.spent)
    requires st.marks <= st.spent && job.shards[0] !in st.spent
    ensures Sandbox(st, m).Some? <==> tokenId >= 0 && OwnerOf(st.books, job.token, tokenId) == Some(job.shards[0])
    ensures Sandbox(st, m).Some? ==>
      var t := Sandbox(st, m).value;
      && (exists r | r in Recipients(job) :: OwnerOf(t.books, job.token, tokenId) == Some(r))
      && SameOwnersBut(st.books, t.books, job.token, tokenId) && SameFunds(st.books, t.books)
      && t.spent == st.spent + {job.shards[0]}
      && t.history == st.history + [Spend(st.tx, PreparedPlan(job).commands[0])]
  {
    hide PreparedPlan, Settle, TransferAll, Transfer, SameFunds, SameOwnersBut, OwnerOf;
    NftPlan(job, tokenId);
    var cmds := PreparedPlan(job).commands;
    var c := cmds[0];
    PayTargetIsRecipient(job, 0, 0);
    NftTransferExactly(st.books, c);
    CarriedSettles(m, cmds, st.books, 1);
    assert m.commands[..1] == m.commands && cmds[..1] == cmds == [c];
    OneTransfer(st.books, c);
    assert m.commands[0].cmd == c && Authorized(st, m.commands[0]);
    if Sandbox(st, m).Some? {
      assert Shards(m.commands) == {job.shards[0]};
      assert Spends(st.tx, m.commands) == [Spend(st.tx, c)];
    }
  }

  lemma OneTransfer(l: Books, c: Command)
    ensures TransferAll(l, [c]) == Transfer(l, c)
  {
    assert [c][1..] == [];
  }

  // The smallest case, with every hypothesis spelled out

  /** A call with these commands, each signed by its shard, without paymaster. */
  function PlainCall(cmds: seq<Command>): MeshCall {
    MeshCall(0, seq(|cmds|, k requires 0 <= k < |cmds| => MeshCommand(cmds[k], ZERO_ADDRESS, cmds[k].shard, true, [])),
             [], ZERO_ADDRESS, ZERO_ADDRESS, 0, 0, GasLimits(0, 0, 0, 0), 0, map[], true, 0, 0, true, [])
  }

  /**
   A wallet of one unspent shard, a known recipient and one change address, all different: for every positive amount up
   to the balance and all draws there is a call that leaves the shard empty, the recipient with the amount more and the change
   address with the rest.
  */
  lemma OneShardTransfer(shard: Shard, balance: nat, to: Address, change: Address, amount: nat, maxSplits: nat, dust: nat,
                         e: EngineDraws, d: PlanDraws, st: State) returns (m: MeshCall)
    requires 0 < amount <= balance && dust > 0 && maxSplits >= 1
    requires shard.address != to && shard.address != change && to != change
    requires Funds(st.books, Ether, shard.address) == balance
    requires st.marks <= st.spent && shard.address !in st.spent
    ensures Sandbox(st, m).Some?
    ensures var t := Sandbox(st, m).value;
      && Funds(t.books, Ether, shard.address) == 0
      && Funds(t.books, Ether, to) == Funds(st.books, Ether, to) + amount
      && Funds(t.books, Ether, change) == Funds(st.books, Ether, change) + balance - amount
      && shard.address in t.spent
  {
    hide SumBy, Sum, Engine, PreparedPlan, Sandbox, SelectionProperties.EngineMisallocates;
    var pool := [PoolItem(shard, balance)];
    OneShardPool(shard, balance, amount, dust, e);
    SelectionProperties.PlanConservesExactly(pool, amount, maxSplits, dust, e);
    EngineItems(pool, amount, maxSplits, dust, e);
    var job := JobFor(Engine(pool, amount, maxSplits, dust, e).value, Native, ZERO_ADDRESS, Public(to), [change], d);
    var cmds := PreparedPlan(job).commands;
    m := PlainCall(cmds);
    assert job.shards == [shard.address];
    TransferEndToEnd(pool, amount, maxSplits, dust, e, job, cmds, st, m);
    assert shard.address == job.shards[0];
    OnePool(st.books, Sandbox(st, m).value.books, to);
    OnePool(st.books, Sandbox(st, m).value.books, change);
    SumBySingle(pool[0], SelectionProperties.ItemBalance);
  }

  lemma OneShardPool(shard: Shard, balance: nat, amount: nat, dust: nat, e: EngineDraws)
    requires 0 < amount <= balance && dust > 0
    ensures var pool := [PoolItem(shard, balance)];
      && SelectionProperties.Request(pool, amount, dust) && Sum(Balances(pool)) == balance
      && !SelectionProperties.EngineMisallocates(pool, amount, dust, e)
      && Selected(pool, amount, e) == pool
  {
    var pool := [PoolItem(shard, balance)];
    assert Balances(pool) == [balance];
    assert [balance][1..] == [];
  }

  lemma OnePool(l: Books, l': Books, a: Address)
    ensures PoolFunds(l, Ether, [a]) == Funds(l, Ether, a) && PoolFunds(l', Ether, [a]) == Funds(l', Ether, a)
  {
    assert [a][1..] == [];
  }
}
