/** What a sync stores, asset by asset: the content of the announcements it processed. */
module SyncContents {
  import opened Seqs
  import opened Protocol
  import opened StoreSpec
  import opened StoreProperties
  import opened Splice
  import opened Multicall
  import opened BalanceVerification
  import opened SyncSpec
  import ChainTruth

  /** Log k is the first to announce a shard of address a. */
  ghost predicate First(logs: seq<Log>, discover: Discovery, k: nat, a: Address) {
    && k < |logs| && discover(logs[k]).Some? && discover(logs[k]).value.address == a
    && forall j: nat | j < k && discover(logs[j]).Some? :: discover(logs[j]).value.address != a
  }

  /** A shard as trial decryption found it, neither spent nor pending. */
  function Fresh(s: Shard): Shard { Shard(s.address, false, false, s.assets) }

  /** The shard comes from the first log of its address, which is new to the store. */
  ghost predicate NewlyFound(v: View, logs: seq<Log>, discover: Discovery, s: Shard) {
    !Has(v, s.address) && exists k: nat :: First(logs, discover, k, s.address) && s == Fresh(discover(logs[k]).value)
  }

  lemma {:induction false} AddedManyInTwo(v: View, a: seq<Shard>, b: seq<Shard>)
    ensures AddedMany(v, a + b) == AddedMany(AddedMany(v, a), b)
    decreases |a|
  {
    hide Has;
    if a == [] {
      assert a + b == b;
    } else {
      assert (a + b)[1..] == a[1..] + b;
      AddedManyInTwo(Added(v, a[0]), a[1..], b);
    }
  }

  lemma AddedOne(v: View, s: Shard)
    ensures AddedMany(v, [s]) == Added(v, s)
  {
    assert [s][1..] == [];
  }

  /** One more log. */
  lemma ProcessedStep(v: View, logs: seq<Log>, discover: Discovery)
    requires logs != []
    ensures var n := |logs| - 1; var before, after := AddedMany(v, Discovered(logs[..n], discover)), AddedMany(v, Discovered(logs, discover));
      after == match discover(logs[n]) case None => before case Some(s) => Added(before, Fresh(s))
  {
    hide Added, AddedMany;
    var n := |logs| - 1;
    var front := Discovered(logs[..n], discover);
    match discover(logs[n]) {
      case None => assert front + [] == front;
      case Some(s) =>
        AddedManyInTwo(v, front, [Fresh(s)]);
        AddedOne(AddedMany(v, front), Fresh(s));
    }
  }

  lemma FirstStep(logs: seq<Log>, discover: Discovery, k: nat, a: Address)
    requires logs != []
    ensures var n := |logs| - 1;
      First(logs, discover, k, a) <==>
        if k < n then First(logs[..n], discover, k, a)
        else k == n && discover(logs[n]).Some? && discover(logs[n]).value.address == a
             && forall j: nat :: !First(logs[..n], discover, j, a)
  {
    var n := |logs| - 1;
    if k == n && forall j: nat :: !First(logs[..n], discover, j, a) {
      forall j: nat | j < n && discover(logs[j]).Some? ensures discover(logs[j]).value.address != a {
        if discover(logs[j]).value.address == a { var i := FirstOf(logs[..n], discover, j, a); }
      }
    }
    if First(logs, discover, n, a) {
      forall j: nat ensures !First(logs[..n], discover, j, a) {
        if j < n { assert logs[..n][j] == logs[j]; }
      }
    }
  }

  lemma {:induction false} FirstOf(logs: seq<Log>, discover: Discovery, j: nat, a: Address) returns (k: nat)
    requires j < |logs| && discover(logs[j]).Some? && discover(logs[j]).value.address == a
    ensures First(logs, discover, k, a) && k <= j
    decreases j
  {
    if i: nat :| i < j && discover(logs[i]).Some? && discover(logs[i]).value.address == a {
      k := FirstOf(logs, discover, i, a);
    } else {
      k := j;
    }
  }

  /** Processing a batch of logs keeps what is stored and adds exactly the shards first announced for new addresses, with their assets. */
  lemma {:induction false} ProcessedIsWhatWasFound(v: View, logs: seq<Log>, discover: Discovery)
    ensures forall s :: s in AddedMany(v, Discovered(logs, discover)) <==> s in v || NewlyFound(v, logs, discover, s)
  {
    hide Discovered, First, Added, Has;
    if logs == [] {
      NothingProcessed(v, discover);
    } else {
      var n := |logs| - 1;
      ProcessedIsWhatWasFound(v, logs[..n], discover);
      ProcessedStep(v, logs, discover);
      forall s ensures s in AddedMany(v, Discovered(logs, discover)) <==> s in v || NewlyFound(v, logs, discover, s) {
        ProcessedOne(v, logs, discover, s);
      }
    }
  }

  lemma NothingProcessed(v: View, discover: Discovery)
    ensures AddedMany(v, Discovered([], discover)) == v
    ensures forall s :: !NewlyFound(v, [], discover, s)
  {}

  lemma HasIff(v: View, a: Address)
    ensures Has(v, a) <==> exists s | s in v :: s.address == a
  {
    if Has(v, a) { var i :| 0 <= i < |v| && v[i].address == a; assert v[i] in v; }
  }

  lemma ProcessedOne(v: View, logs: seq<Log>, discover: Discovery, s: Shard)
    requires logs != []
    requires var n := |logs| - 1; var before := AddedMany(v, Discovered(logs[..n], discover));
      && (forall x :: x in before <==> x in v || NewlyFound(v, logs[..n], discover, x))
      && AddedMany(v, Discovered(logs, discover))
         == match discover(logs[n]) case None => before case Some(d) => Added(before, Fresh(d))
    ensures s in AddedMany(v, Discovered(logs, discover)) <==> s in v || NewlyFound(v, logs, discover, s)
  {
    hide Discovered, AddedMany, First, Has;
    var n := |logs| - 1;
    var before := AddedMany(v, Discovered(logs[..n], discover));
    forall k: nat ensures First(logs, discover, k, s.address) <==>
      if k < n then First(logs[..n], discover, k, s.address)
      else k == n && discover(logs[n]).Some? && discover(logs[n]).value.address == s.address
           && forall j: nat :: !First(logs[..n], discover, j, s.address)
    {
      FirstStep(logs, discover, k, s.address);
    }
    forall k: nat | k < n ensures logs[..n][k] == logs[k] {}
    BoundedFirst(logs[..n], discover, s.address);
    HasIff(before, s.address);
    HasIff(v, s.address);
    if discover(logs[n]).Some? && discover(logs[n]).value.address == s.address {
      KnownBefore(v, logs[..n], discover, before, s.address);
    }
  }

  lemma BoundedFirst(logs: seq<Log>, discover: Discovery, a: Address)
    ensures forall k: nat | First(logs, discover, k, a) :: k < |logs|
  {}

  /** An address is in the store after processing exactly when it was there or some log announced it. */
  lemma KnownBefore(v: View, logs: seq<Log>, discover: Discovery, after: View, a: Address)
    requires forall x :: x in after <==> x in v || NewlyFound(v, logs, discover, x)
    ensures Has(after, a) <==> Has(v, a) || exists k: nat :: First(logs, discover, k, a)
  {
    hide Has, First;
    HasIff(after, a);
    HasIff(v, a);
    if k: nat :| First(logs, discover, k, a) && !Has(v, a) {
      FirstFacts(logs, discover, k, a);
      var s := Fresh(discover(logs[k]).value);
      assert NewlyFound(v, logs, discover, s);
    }
  }

  lemma FirstFacts(logs: seq<Log>, discover: Discovery, k: nat, a: Address)
    requires First(logs, discover, k, a)
    ensures k < |logs| && discover(logs[k]).Some? && discover(logs[k]).value.address == a
  {}

  // From the log of the chain to the store

  /** `getLogs` keeps the order, so the first log from a block on is the first of those fetched. */
  lemma {:induction false} FirstFetched(log: seq<Log>, from: int, discover: Discovery, k: nat, a: Address) returns (i: nat)
    requires k < |log| && log[k].block >= from && discover(log[k]).Some? && discover(log[k]).value.address == a
    requires forall j: nat | j < k && log[j].block >= from && discover(log[j]).Some? :: discover(log[j]).value.address != a
    ensures First(Fetched(log, from), discover, i, a) && Fetched(log, from)[i] == log[k]
  {
    var n := |log| - 1;
    var front := Fetched(log[..n], from);
    if k < n {
      i := FirstFetched(log[..n], from, discover, k, a);
      assert forall j: nat | j < |front| :: Fetched(log, from)[j] == front[j];
    } else {
      i := |front|;
      forall j: nat | j < i && discover(Fetched(log, from)[j]).Some? ensures discover(Fetched(log, from)[j]).value.address != a {
        assert Fetched(log, from)[j] == front[j] && front[j] in front;
        FetchedElements(log[..n], from, front[j]);
        var m :| 0 <= m < n && log[..n][m] == front[j];
        assert log[m] == front[j];
      }
    }
  }

  /** The first announcement of the address in the log, among those a sync from that block looks at. */
  ghost predicate FirstFrom(log: seq<Log>, from: int, discover: Discovery, k: nat, a: Address) {
    && k < |log| && log[k].block >= from && discover(log[k]).Some? && discover(log[k]).value.address == a
    && forall j: nat | j < k && log[j].block >= from && discover(log[j]).Some? :: discover(log[j]).value.address != a
  }

  /** Where a sync starts to look. */
  function SyncStart(w: World, fromStart: bool, startBlock: int): int {
    if fromStart then startBlock else match w.cursor case None => startBlock case Some(c) => c
  }

  /** The store with everything that was announced since, before the spent shards go. */
  function FoundBy(w: World, fromStart: bool, startBlock: int, discover: Discovery): View {
    AddedMany(w.view, Discovered(Fetched(w.log, StartCursor(w.cursor, startBlock, fromStart)), discover))
  }

  /** A shard of the address with these assets as the answers correct them, neither spent nor pending, is in the list. */
  ghost predicate Stores(v: View, a: Address, assets: seq<Asset>, chain: Chain) {
    exists si: nat, owners: seq<Address> | si < |owners| && owners[si] == a ::
      Shard(a, false, false, VerifiedRow(owners, assets, si, chain.answers, chain.heard)) in v
  }

  /** A query for an unspent shard of the address answered that it is spent. */
  ghost predicate ReportedSpent(found: View, replies: SpentReplies, a: Address) {
    exists q | 0 <= q < |Unspent(found)| :: Unspent(found)[q].address == a && replies(q) == Some(true)
  }

  /**
   A sync that succeeds stores every shard announced for a new address, with the assets of its first announcement
   as the answers correct them, neither spent nor pending, unless the router reported it spent.
  */
  lemma SyncStoresTheAnnouncedAssets(w: World, fromStart: bool, chain: Chain, startBlock: int, discover: Discovery, k: nat, a: Address)
    requires UniqueAddresses(w.view) && !Has(w.view, a) && FirstFrom(w.log, SyncStart(w, fromStart, startBlock), discover, k, a)
    ensures k < |w.log| && discover(w.log[k]).Some?
    ensures var w' := Step(w, SyncSucceeds(fromStart, chain), startBlock, discover);
      && (Has(w'.view, a) <==> !ReportedSpent(FoundBy(w, fromStart, startBlock, discover), chain.replies, a))
      && (Has(w'.view, a) ==> Stores(w'.view, a, discover(w.log[k]).value.assets, chain))
  {
    hide Discovered, VerifiedRow, VerifiedAll, SpentAmong, Fetched, Merged, Has, First, FirstFrom, Highest, WithoutSpent, AddedMany;
    var from := StartCursor(w.cursor, startBlock, fromStart);
    FirstFromFacts(w.log, from, discover, k, a);
    var logs := Fetched(w.log, from);
    var i := FirstFetched(w.log, from, discover, k, a);
    ProcessedIsWhatWasFound(w.view, logs, discover);
    var found := AddedMany(w.view, Discovered(logs, discover));
    FirstFacts(logs, discover, i, a);
    var s := Fresh(discover(logs[i]).value);
    assert NewlyFound(w.view, logs, discover, s);
    var kept := WithoutSpent(found, chain.replies);
    HasIff(found, a);
    SpentIsRemovedExactly(found, chain.replies, a);
    SyncKeepsAddresses(kept, chain.answers, chain.heard);
    if Has(kept, a) {
      KeptAsFound(found, chain.replies, s, w.view, discover, logs);
      var si := UnspentIsVerified(kept, s, chain.answers, chain.heard);
      assert Addresses(Unspent(kept))[si] == a;
    }
  }

  lemma FirstFromFacts(log: seq<Log>, from: int, discover: Discovery, k: nat, a: Address)
    requires FirstFrom(log, from, discover, k, a)
    ensures k < |log| && log[k].block >= from && discover(log[k]).Some? && discover(log[k]).value.address == a
    ensures forall j: nat | j < k && log[j].block >= from && discover(log[j]).Some? :: discover(log[j]).value.address != a
  {}

  /** What remains of an address that was not removed is the shard that was found. */
  lemma KeptAsFound(found: View, replies: SpentReplies, s: Shard, v: View, discover: Discovery, logs: seq<Log>)
    requires UniqueAddresses(v) && found == AddedMany(v, Discovered(logs, discover)) && s in found
    requires Has(WithoutSpent(found, replies), s.address)
    ensures s in WithoutSpent(found, replies)
  {
    hide Discovered, SpentAmong;
    AddedManyKeepsUnique(v, Discovered(logs, discover));
    var spent := SpentAmong(Unspent(found), replies, |Unspent(found)|);
    HasIff(WithoutSpent(found, replies), s.address);
    var t :| t in WithoutSpent(found, replies) && t.address == s.address;
    FilterElements(found, NotAmong(spent), t);
    if t != s { OneOfEach(found, t, s); }
  }

  /** An unspent shard of the store is verified under its position among the unspent ones. */
  lemma UnspentIsVerified(v: View, s: Shard, answers: Answers, heard: set<Slot>) returns (si: nat)
    requires s in v && IsUnspent(s)
    ensures si < |Unspent(v)| && Unspent(v)[si] == s
    ensures s.(assets := VerifiedRow(Addresses(Unspent(v)), s.assets, si, answers, heard)) in Reconciled(v, answers, heard)
  {
    hide Merged, VerifiedRow;
    FilterElements(v, IsUnspent, s);
    si :| 0 <= si < |Unspent(v)| && Unspent(v)[si] == s;
    var inv := VerifiedAll(Addresses(Unspent(v)), Assets(Unspent(v)), answers, heard);
    ChainTruth.MergedUnspent(v, inv);
    var r := Unspent(Reconciled(v, answers, heard))[si];
    FilterElements(Reconciled(v, answers, heard), IsUnspent, r);
  }

  /** Conversely, every address that a sync adds was announced in a log from that block on. */
  lemma SyncAddsOnlyWhatWasAnnounced(w: World, fromStart: bool, chain: Chain, startBlock: int, discover: Discovery, a: Address)
    requires Has(Step(w, SyncSucceeds(fromStart, chain), startBlock, discover).view, a) && !Has(w.view, a)
    ensures exists k: nat ::
      k < |w.log| && w.log[k].block >= SyncStart(w, fromStart, startBlock)
      && discover(w.log[k]).Some? && discover(w.log[k]).value.address == a
  {
    hide Discovered, SpentAmong, Fetched, Merged, Has, First, Highest, VerifiedAll;
    var from := StartCursor(w.cursor, startBlock, fromStart);
    var logs := Fetched(w.log, from);
    var found := AddedMany(w.view, Discovered(logs, discover));
    SyncKeepsAddresses(WithoutSpent(found, chain.replies), chain.answers, chain.heard);
    SpentIsRemovedExactly(found, chain.replies, a);
    ProcessedIsWhatWasFound(w.view, logs, discover);
    KnownBefore(w.view, logs, discover, found, a);
    var i: nat :| First(logs, discover, i, a);
    FirstFacts(logs, discover, i, a);
    FetchedElements(w.log, from, logs[i]);
    assert logs[i] in logs;
    var k :| 0 <= k < |w.log| && w.log[k] == logs[i];
  }

  /** After any run from an empty wallet, with the address never seen before. */
  lemma EveryRunStoresTheAnnouncedAssets(es: seq<Event>, fromStart: bool, chain: Chain, startBlock: int, discover: Discovery, k: nat, a: Address)
    requires PossibleRun(World([], [], None, {}, 0), es, startBlock, discover)
    requires var w := SyncSpec.Run(World([], [], None, {}, 0), es, startBlock, discover);
      !Has(w.view, a) && FirstFrom(w.log, SyncStart(w, fromStart, startBlock), discover, k, a)
    ensures var w := SyncSpec.Run(World([], [], None, {}, 0), es, startBlock, discover);
      var w' := Step(w, SyncSucceeds(fromStart, chain), startBlock, discover);
      && k < |w.log| && discover(w.log[k]).Some?
      && (Has(w'.view, a) <==> !ReportedSpent(FoundBy(w, fromStart, startBlock, discover), chain.replies, a))
      && (Has(w'.view, a) ==> Stores(w'.view, a, discover(w.log[k]).value.assets, chain))
  {
    hide SyncSpec.Run, Step, Stores, ReportedSpent, FoundBy;
    var w0 := World([], [], None, {}, 0);
    EveryRunIsSound(w0, es, startBlock, discover) by { assert Sound(w0, startBlock, discover); }
    AddressesAreUnique(SyncSpec.Run(w0, es, startBlock, discover), startBlock, discover);
    SyncStoresTheAnnouncedAssets(SyncSpec.Run(w0, es, startBlock, discover), fromStart, chain, startBlock, discover, k, a);
  }
}
