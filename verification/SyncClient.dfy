/** The client on the live store: the sync pipeline with its rollback, and recording a transfer (index.ts, discovery.ts). */
module SyncClient {
  import opened Seqs
  import opened Protocol
  import opened StoreSpec
  import StoreProperties
  import WalletTransfer
  import Plan
  import opened Splice
  import opened Multicall
  import opened ShardStore
  import opened BalanceVerification
  import opened SyncSpec

  /** Which await of the pipeline throws, if one does. */
  datatype Fault = NoFault | FetchingLogs | AfterProcessing | AfterSpentCheck | AfterVerification

  /** Trial decryption, chunk by chunk: the size of the chunks leaves no trace in the result. */
  method DiscoverAll(logs: seq<Log>, discover: Discovery, chunkSize: nat) returns (shards: seq<Shard>)
    requires chunkSize > 0
    ensures shards == Discovered(logs, discover)
  {
    shards := [];
    var i := 0;
    while i < |logs|
      invariant 0 <= i <= |logs| && shards == Discovered(logs[..i], discover)
    {
      var end := if i + chunkSize < |logs| then i + chunkSize else |logs|;
      for j := i to end
        invariant shards == Discovered(logs[..j], discover)
      {
        assert logs[..j + 1][..j] == logs[..j];
        match discover(logs[j])
        case None =>
        case Some(s) => shards := shards + [s.(spent := false, pending := false)];
      }
      i := end;
    }
    assert logs[..|logs|] == logs;
  }

  function ChunkStop(i: nat, count: nat): nat {
    if i + MULTICALL_CHUNK_SIZE < count then i + MULTICALL_CHUNK_SIZE else count
  }

  /** Reference i is the shard it was, except perhaps for the assets of an unspent one. */
  ghost predicate OnlyAssetsMoved(refs: seq<LiveShard>, before: View)
    reads refs
  {
    && |refs| == |before|
    && forall i | 0 <= i < |refs| ::
         && refs[i].address == before[i].address && refs[i].spent == before[i].spent && refs[i].pending == before[i].pending
         && (IsUnspent(before[i]) || refs[i].assets == before[i].assets)
  }

  lemma ValuesHead(refs: seq<LiveShard>)
    requires refs != []
    ensures Values(refs) == [refs[0].Value()] + Values(refs[1..])
    ensures if IsUnspent(refs[0].Value()) then
              FilterRefs(refs, IsUnspent) == [refs[0]] + FilterRefs(refs[1..], IsUnspent)
              && InventoryOf(FilterRefs(refs, IsUnspent)) == [refs[0].assets] + InventoryOf(FilterRefs(refs[1..], IsUnspent))
            else
              FilterRefs(refs, IsUnspent) == FilterRefs(refs[1..], IsUnspent)
  {}

  /** After the unspent shards got their new assets, the whole list is the merged list. */
  lemma {:induction false} LiveReferencesReachTheStore(refs: seq<LiveShard>, before: View)
    requires OnlyAssetsMoved(refs, before)
    ensures |FilterRefs(refs, IsUnspent)| == |Unspent(before)|
    ensures Values(refs) == Merged(before, InventoryOf(FilterRefs(refs, IsUnspent)))
  {
    hide Merged, Values, FilterRefs, InventoryOf;
    if refs == [] {
      EmptyLists(refs, before);
    } else {
      LiveReferencesReachTheStore(refs[1..], before[1..]);
      ValuesHead(refs);
      UnspentHead(before);
      var inv := InventoryOf(FilterRefs(refs, IsUnspent));
      MergedHead(before, inv);
      if IsUnspent(before[0]) {
        assert inv[1..] == InventoryOf(FilterRefs(refs[1..], IsUnspent));
      }
    }
  }

  lemma EmptyLists(refs: seq<LiveShard>, before: View)
    requires refs == [] && before == []
    ensures FilterRefs(refs, IsUnspent) == [] && Unspent(before) == []
    ensures Values(refs) == [] == Merged(before, InventoryOf(FilterRefs(refs, IsUnspent)))
  {}

  lemma UnspentHead(before: View)
    requires before != []
    ensures |Unspent(before)| == |Unspent(before[1..])| + if IsUnspent(before[0]) then 1 else 0
  {}

  /** The references whose shards were unspent in an earlier state of the list. */
  ghost function Picked(refs: seq<LiveShard>, before: View): (r: seq<LiveShard>)
    requires |refs| == |before|
    ensures forall x | x in r :: x in refs
  {
    if refs == [] then []
    else (if IsUnspent(before[0]) then [refs[0]] else []) + Picked(refs[1..], before[1..])
  }

  lemma {:induction false} FilterIsPicked(refs: seq<LiveShard>, before: View)
    requires OnlyAssetsMoved(refs, before)
    ensures FilterRefs(refs, IsUnspent) == Picked(refs, before)
  {
    if refs != [] {
      FilterIsPicked(refs[1..], before[1..]);
    }
  }

  lemma {:induction false} NotPicked(refs: seq<LiveShard>, before: View, i: nat)
    requires Distinct(refs) && i < |refs| == |before| && !IsUnspent(before[i])
    ensures refs[i] !in Picked(refs, before)
  {
    if i > 0 {
      assert Distinct(refs[1..]);
      NotPicked(refs[1..], before[1..], i - 1);
      assert refs[i] != refs[0];
    } else {
      assert refs[0] !in refs[1..];
    }
  }

  class Client {
    const store: Store

    constructor (s: Store)
      ensures store == s
    {
      store := s;
    }

    /** Discovered shards are added unless their address is stored. */
    method ProcessAnnouncements(logs: seq<Log>, discover: Discovery)
      requires store.Valid()
      modifies store`shards
      ensures store.Valid() && store.View() == AddedMany(old(store.View()), Discovered(logs, discover))
      ensures forall x | x in store.shards && x !in old(store.shards) :: fresh(x)
    {
      hide Discovered, AddedMany, Added, Has;
      var found := DiscoverAll(logs, discover, 50);
      assert found[0..] == found;
      for i := 0 to |found|
        invariant store.Valid() && AddedMany(store.View(), found[i..]) == AddedMany(old(store.View()), found)
        invariant forall x | x in store.shards && x !in old(store.shards) :: fresh(x)
      {
        AddedManyStep(store.View(), found, i);
        var present := store.Get(found[i].address);
        if present.Some? { continue; }
        store.Add(found[i]);
      }
      NoneAdded(store.View(), found[|found|..]);
    }

    lemma NoneAdded(v: View, ss: seq<Shard>)
      requires ss == []
      ensures AddedMany(v, ss) == v
    {}

    /** Statuses stay false where the call or its whole chunk failed. */
    method SpentStatuses(count: nat, replies: SpentReplies) returns (statuses: array<bool>)
      ensures fresh(statuses) && statuses.Length == count
      ensures forall k | 0 <= k < count :: statuses[k] <==> replies(k) == Some(true)
    {
      statuses := new bool[count](_ => false);
      var i := 0;
      while i < count
        invariant 0 <= i <= count
        invariant forall k | 0 <= k < i :: statuses[k] <==> replies(k) == Some(true)
        invariant forall k | i <= k < count :: !statuses[k]
      {
        var stop := ChunkStop(i, count);
        for j := i to stop
          invariant forall k | 0 <= k < j :: statuses[k] <==> replies(k) == Some(true)
          invariant forall k | j <= k < count :: !statuses[k]
        {
          if replies(j).Some? { statuses[j] := replies(j).value; }
        }
        i := stop;
      }
    }

    method SyncSpentShards(replies: SpentReplies)
      requires store.Valid()
      modifies store`shards
      ensures store.Valid() && store.View() == WithoutSpent(old(store.View()), replies)
      ensures forall x | x in store.shards :: x in old(store.shards)
    {
      var unspent := store.GetUnspent();
      ghost var before := Unspent(store.View());
      var statuses := SpentStatuses(|unspent|, replies);
      var spent: seq<Address> := [];
      for i := 0 to |unspent|
        invariant spent == SpentAmong(before, replies, i)
      {
        assert before[i].address == unspent[i].address;
        if statuses[i] { spent := spent + [unspent[i].address]; }
      }
      if |spent| > 0 {
        store.RemoveMany(spent);
      } else {
        FilterKeepsAll(store.View(), NotAmong(spent));
      }
    }

    /** Verification of the unspent shards, through the references the store hands out. */
    method VerifyUnspent(answers: Answers, arrival: seq<nat>) returns (mapping: seq<Slot>)
      requires store.Valid() && Distinct(arrival)
      modifies store.shards
      ensures store.shards == old(store.shards) && store.Valid()
      ensures InOrder(mapping) && Complete(Assets(Unspent(old(store.View()))), mapping)
      ensures store.View() == Reconciled(old(store.View()), answers, Heard(mapping, arrival))
    {
      hide Values, FilterRefs, Merged, VerifiedAll, Heard, InOrder, Complete, InventoryOf, Picked, Unspent, IsUnspent;
      var active := store.GetUnspent();
      ghost var refs, before := store.shards, store.View();
      Unmoved(refs);
      FilterIsPicked(refs, before);
      SameColumns(active, Unspent(before));
      assert forall i | 0 <= i < |active| :: active[i] in active && active[i] in refs;
      mapping := VerifyShardBalances(active, answers, arrival);
      forall i | 0 <= i < |before| && !IsUnspent(before[i]) ensures refs[i].assets == before[i].assets {
        NotPicked(refs, before, i);
      }
      LiveReferencesReachTheStore(refs, before);
      FilterIsPicked(refs, before);
    }

    lemma Unmoved(refs: seq<LiveShard>)
      ensures OnlyAssetsMoved(refs, Values(refs))
    {}

    lemma SameColumns(active: seq<LiveShard>, v: View)
      requires Values(active) == v
      ensures OwnersOf(active) == Addresses(v) && InventoryOf(active) == Assets(v)
    {
      forall i | 0 <= i < |active| ensures v[i] == active[i].Value() {}
    }

    /** `confirmPrepared`: the inputs are marked, the change outputs become shards. */
    method ConfirmPrepared(inputs: seq<Address>, kind: AssetKind, token: Address, outs: seq<Plan.Out>)
      requires store.Valid()
      modifies store`shards, store.shards
      ensures store.Valid()
      ensures store.View() == StoreProperties.Confirmed(old(store.View()), inputs, WalletTransfer.ChangeShardsOf(outs, kind, token))
      ensures forall x | x in store.shards :: x in old(store.shards) || fresh(x)
    {
      hide WithPending, AddedMany, Added, Has;
      store.SetPending(inputs, true);
      ghost var marked, change := store.View(), WalletTransfer.ChangeShardsOf(outs, kind, token);
      assert change[0..] == change;
      for i := 0 to |outs|
        invariant store.Valid() && AddedMany(store.View(), change[i..]) == AddedMany(marked, change)
        invariant forall x | x in store.shards :: x in old(store.shards) || fresh(x)
      {
        AddedManyStep(store.View(), change, i);
        store.Add(WalletTransfer.ChangeShard(outs[i], kind, token));
      }
      NoneAdded(store.View(), change[|outs|..]);
    }

    /** `relayTransfer` and its `wait`, for each way it can end. */
    method RelayTransfer(inputs: seq<Address>, kind: AssetKind, token: Address, outs: seq<Plan.Out>,
                         outcome: StoreProperties.RelayOutcome)
      requires store.Valid()
      modifies store`shards, store.shards
      ensures store.Valid()
      ensures store.View() == StoreProperties.AfterRelay(old(store.View()), inputs,
                                                         WalletTransfer.ChangeShardsOf(outs, kind, token), outcome)
    {
      ConfirmPrepared(inputs, kind, token, outs);
      assert forall i | 0 <= i < |store.shards| :: store.shards[i] in store.shards;
      match outcome
      case ThrowsBeforeHash =>
      case NeverConfirmed =>
      case Reverted => store.ConfirmFailed(inputs, None);
      case Executed => store.RemoveMany(inputs);
    }

    /**
     `syncWithChain`. A failure anywhere leaves the stored shards and the cursor as they were; a success moves the
     cursor to the highest block seen and gives the store of SyncedView.
    */
    method SyncWithChain(log: seq<Log>, fromStart: bool, startBlock: int, discover: Discovery,
                         replies: SpentReplies, answers: Answers, arrival: seq<nat>, fault: Fault)
      returns (ok: bool, mapping: seq<Slot>)
      requires store.Valid() && Distinct(arrival)
      modifies store, store.shards
      ensures store.Valid() && (ok <==> fault == NoFault)
      ensures !ok ==> store.View() == old(store.View()) && store.lastSyncedBlock == old(store.lastSyncedBlock)
      ensures ok ==>
        var from := StartCursor(old(store.lastSyncedBlock), startBlock, fromStart);
        var logs := Fetched(log, from);
        && store.lastSyncedBlock == Some(Highest(from, logs))
        && store.View() == SyncedView(old(store.View()), logs, discover, Chain(replies, answers, Heard(mapping, arrival)))
        && InOrder(mapping)
        && Complete(Assets(Unspent(WithoutSpent(AddedMany(old(store.View()), Discovered(logs, discover)), replies))), mapping)
    {
      hide SyncedView, Merged, VerifiedAll, WithoutSpent, AddedMany, Heard;
      mapping := [];
      if fault == FetchingLogs { return false, []; }
      var from := StartCursor(store.lastSyncedBlock, startBlock, fromStart);
      var logs := Fetched(log, from);
      var highest := from;
      for i := 0 to |logs|
        invariant highest == Highest(from, logs[..i])
      {
        assert logs[..i + 1][..i] == logs[..i];
        if logs[i].block >= highest { highest := logs[i].block; }
      }
      assert logs[..|logs|] == logs;
      ghost var before := store.View();
      var snapshot := store.ExportState();

      ProcessAnnouncements(logs, discover);
      if fault == AfterProcessing {
        store.ImportState(snapshot);
        return false, [];
      }
      store.SetLastSyncedBlock(highest);
      SyncSpentShards(replies);
      if fault == AfterSpentCheck {
        store.ImportState(snapshot);
        return false, [];
      }
      assert forall i | 0 <= i < |store.shards| :: store.shards[i] in store.shards;
      mapping := VerifyUnspent(answers, arrival);
      if fault == AfterVerification {
        store.ImportState(snapshot);
        return false, [];
      }
      SyncedViewIs(before, logs, discover, Chain(replies, answers, Heard(mapping, arrival)));
      ok := true;
    }

    lemma SyncedViewIs(v: View, logs: seq<Log>, discover: Discovery, c: Chain)
      ensures SyncedView(v, logs, discover, c) == Reconciled(WithoutSpent(AddedMany(v, Discovered(logs, discover)), c.replies), c.answers, c.heard)
    {}
  }
}
