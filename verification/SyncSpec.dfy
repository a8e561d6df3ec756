/** Syncing the store with the announcement log: what a run of syncs guarantees (index.ts, discovery.ts). */
module SyncSpec {
  import opened Seqs
  import opened Protocol
  import opened StoreSpec
  import opened StoreProperties
  import opened Multicall
  import opened Splice
  import opened BalanceVerification

  /** A log entry of the announcer; `payload` is all that parsing and trial decryption look at. */
  datatype Log = Log(block: int, payload: int)

  /** Parsing and trial decryption: the shard announced to this wallet, if it is one. */
  type Discovery = Log -> Option<Shard>

  function Discovered(logs: seq<Log>, discover: Discovery): seq<Shard> {
    if logs == [] then []
    else
      Discovered(logs[..|logs| - 1], discover)
      + match discover(logs[|logs| - 1]) case None => [] case Some(s) => [s.(spent := false, pending := false)]
  }

  /** `getLogs` from a block to the latest one. */
  function Fetched(chain: seq<Log>, from: int): seq<Log> {
    if chain == [] then []
    else
      var last := chain[|chain| - 1];
      Fetched(chain[..|chain| - 1], from) + if last.block >= from then [last] else []
  }

  /** The highest block among the logs, at least the start. */
  function Highest(from: int, logs: seq<Log>): (h: int)
    ensures h >= from
  {
    if logs == [] then from
    else
      var h := Highest(from, logs[..|logs| - 1]);
      if logs[|logs| - 1].block >= h then logs[|logs| - 1].block else h
  }

  function StartCursor(cursor: Option<int>, startBlock: int, fromStart: bool): int {
    if fromStart || cursor.None? then startBlock else cursor.value
  }

  type SpentReplies = nat -> Option<bool>

  /** Addresses of the shards whose query answered true; a query without an answer counts as unspent. */
  function SpentAmong(unspent: View, replies: SpentReplies, n: nat): seq<Address>
    requires n <= |unspent|
  {
    if n == 0 then []
    else SpentAmong(unspent, replies, n - 1) + if replies(n - 1) == Some(true) then [unspent[n - 1].address] else []
  }

  function WithoutSpent(v: View, replies: SpentReplies): View {
    Removed(v, SpentAmong(Unspent(v), replies, |Unspent(v)|))
  }

  function Assets(v: View): (inv: Inventory)
    ensures |inv| == |v|
  {
    seq(|v|, i requires 0 <= i < |v| => v[i].assets)
  }

  function Addresses(v: View): (a: seq<Address>)
    ensures |a| == |v|
  {
    seq(|v|, i requires 0 <= i < |v| => v[i].address)
  }

  /** The unspent shards of the list get new assets, in order; the others keep theirs. */
  function Merged(v: View, inv: Inventory): (r: View)
    requires |inv| == |Unspent(v)|
    ensures |r| == |v| && forall i | 0 <= i < |v| :: r[i] == v[i].(assets := r[i].assets)
  {
    if v == [] then []
    else if IsUnspent(v[0]) then
      assert Unspent(v) == [v[0]] + Unspent(v[1..]);
      [v[0].(assets := inv[0])] + Merged(v[1..], inv[1..])
    else
      assert Unspent(v) == Unspent(v[1..]);
      [v[0]] + Merged(v[1..], inv)
  }

  lemma MergedHead(before: View, inv: Inventory)
    requires before != [] && |inv| == |Unspent(before)|
    ensures if IsUnspent(before[0]) then
              |inv| > 0 && |inv[1..]| == |Unspent(before[1..])|
              && Merged(before, inv) == [before[0].(assets := inv[0])] + Merged(before[1..], inv[1..])
            else
              |inv| == |Unspent(before[1..])| && Merged(before, inv) == [before[0]] + Merged(before[1..], inv)
  {
    if IsUnspent(before[0]) { assert Unspent(before) == [before[0]] + Unspent(before[1..]); }
  }

  /** Balance answers, and the chunks that came back. */
  datatype Chain = Chain(replies: SpentReplies, answers: Answers, heard: set<Slot>)

  function Reconciled(v: View, answers: Answers, heard: set<Slot>): View {
    Merged(v, VerifiedAll(Addresses(Unspent(v)), Assets(Unspent(v)), answers, heard))
  }

  /** The store after a sync that succeeded. */
  function SyncedView(v: View, logs: seq<Log>, discover: Discovery, c: Chain): View {
    Reconciled(WithoutSpent(AddedMany(v, Discovered(logs, discover)), c.replies), c.answers, c.heard)
  }

  // Runs

  /** The announcement log so far, the store, and what the proof remembers: removed addresses, logs covered. */
  datatype World = World(log: seq<Log>, view: View, cursor: Option<int>, removed: set<Address>, covered: nat)

  datatype Event =
    | Grow(logs: seq<Log>)
    | Local(op: StoreOp)
    | SyncFails(fromStart: bool)
    | SyncSucceeds(fromStart: bool, chain: Chain)

  function AddressSet(v: View): set<Address> {
    set i | 0 <= i < |v| :: v[i].address
  }

  function Step(w: World, e: Event, startBlock: int, discover: Discovery): World {
    match e
    case Grow(logs) => w.(log := w.log + logs)
    case Local(op) =>
      w.(view := Apply(w.view, op), removed := w.removed + (AddressSet(w.view) - AddressSet(Apply(w.view, op))))
    case SyncFails(_) => w
    case SyncSucceeds(fromStart, chain) =>
      var from := StartCursor(w.cursor, startBlock, fromStart);
      var logs := Fetched(w.log, from);
      var found := AddedMany(w.view, Discovered(logs, discover));
      World(w.log, SyncedView(w.view, logs, discover, chain), Some(Highest(from, logs)),
            w.removed + (AddressSet(found) - AddressSet(WithoutSpent(found, chain.replies))), |w.log|)
  }

  ghost predicate BlocksAscend(log: seq<Log>) {
    forall i, j | 0 <= i < j < |log| :: log[i].block <= log[j].block
  }

  /** Log k announces a shard to this wallet, from the start block on. */
  predicate Announces(log: seq<Log>, k: nat, startBlock: int, discover: Discovery) {
    k < |log| && log[k].block >= startBlock && discover(log[k]).Some?
  }

  predicate KnownOrRemoved(w: World, a: Address) { Has(w.view, a) || a in w.removed }

  ghost predicate AllKnown(w: World, n: nat, startBlock: int, discover: Discovery) {
    forall k: nat | k < n && Announces(w.log, k, startBlock, discover) :: KnownOrRemoved(w, discover(w.log[k]).value.address)
  }

  ghost predicate CursorIsSound(w: World, startBlock: int) {
    match w.cursor
    case None => w.covered == 0
    case Some(c) =>
      && c >= startBlock
      && (c == startBlock || exists k | 0 <= k < |w.log| :: w.log[k].block == c)
      && forall k | w.covered <= k < |w.log| && w.log[k].block >= startBlock :: w.log[k].block >= c
  }

  ghost predicate Sound(w: World, startBlock: int, discover: Discovery) {
    && w.covered <= |w.log| && UniqueAddresses(w.view)
    && CursorIsSound(w, startBlock)
    && AllKnown(w, w.covered, startBlock, discover)
  }

  predicate NotLower(before: Option<int>, after: Option<int>) {
    before.Some? ==> after.Some? && after.value >= before.value
  }

  // Lists

  lemma HasIffInSet(v: View, a: Address)
    ensures Has(v, a) <==> a in AddressSet(v)
  {}

  lemma {:induction false} FetchedElements(log: seq<Log>, from: int, l: Log)
    ensures l in Fetched(log, from) <==> l in log && l.block >= from
  {
    if log != [] {
      var n := |log| - 1;
      FetchedElements(log[..n], from, l);
      assert l in log <==> l in log[..n] || l == log[n];
    }
  }

  lemma {:induction false} HighestIsMaximum(from: int, logs: seq<Log>)
    ensures forall l | l in logs :: l.block <= Highest(from, logs)
    ensures Highest(from, logs) == from || exists l | l in logs :: l.block == Highest(from, logs)
  {
    if logs != [] {
      var n := |logs| - 1;
      HighestIsMaximum(from, logs[..n]);
      assert logs[n] in logs;
      assert forall l | l in logs :: l in logs[..n] || l == logs[n];
    }
  }

  lemma {:induction false} DiscoveredElements(logs: seq<Log>, discover: Discovery, l: Log)
    requires l in logs && discover(l).Some?
    ensures exists s | s in Discovered(logs, discover) :: s.address == discover(l).value.address
  {
    var n := |logs| - 1;
    if l == logs[n] {
      var s := discover(l).value.(spent := false, pending := false);
      assert Discovered(logs, discover)[|Discovered(logs, discover)| - 1] == s;
    } else {
      assert l in logs[..n];
      DiscoveredElements(logs[..n], discover, l);
      var s :| s in Discovered(logs[..n], discover) && s.address == discover(l).value.address;
      assert s in Discovered(logs, discover);
    }
  }

  /** Everything that was there or is added is there afterwards. */
  lemma {:induction false} AddedManyHas(v: View, ss: seq<Shard>, a: Address)
    requires Has(v, a) || exists s | s in ss :: s.address == a
    ensures Has(AddedMany(v, ss), a)
    decreases |ss|
  {
    if ss != [] {
      var v' := Added(v, ss[0]);
      if Has(v, a) {
        var i :| 0 <= i < |v| && v[i].address == a;
        assert v'[i].address == a;
      } else {
        var s :| s in ss && s.address == a;
        if s == ss[0] {
          assert v'[|v|].address == a;
        } else {
          assert s in ss[1..];
        }
      }
      AddedManyHas(v', ss[1..], a);
    }
  }

  lemma SyncKeepsAddresses(v: View, answers: Answers, heard: set<Slot>)
    ensures forall a :: Has(Reconciled(v, answers, heard), a) <==> Has(v, a)
    ensures UniqueAddresses(v) ==> UniqueAddresses(Reconciled(v, answers, heard))
  {
    var r := Reconciled(v, answers, heard);
    forall i | 0 <= i < |v| ensures r[i].address == v[i].address {}
    forall a ensures Has(r, a) <==> Has(v, a) {
      if Has(v, a) { var i :| 0 <= i < |v| && v[i].address == a; assert r[i].address == a; }
    }
  }

  lemma {:induction false} SpentAmongElements(unspent: View, replies: SpentReplies, n: nat, a: Address)
    requires n <= |unspent|
    ensures a in SpentAmong(unspent, replies, n) <==>
      exists k | 0 <= k < n :: unspent[k].address == a && replies(k) == Some(true)
  {
    if n > 0 {
      SpentAmongElements(unspent, replies, n - 1, a);
    }
  }

  /** An address disappears exactly when the query for an unspent shard of that address answered true. */
  lemma SpentIsRemovedExactly(v: View, replies: SpentReplies, a: Address)
    ensures Has(WithoutSpent(v, replies), a) <==>
      Has(v, a) && forall k | 0 <= k < |Unspent(v)| && Unspent(v)[k].address == a :: replies(k) != Some(true)
  {
    var spent := SpentAmong(Unspent(v), replies, |Unspent(v)|);
    SpentAmongElements(Unspent(v), replies, |Unspent(v)|, a);
    var kept := Removed(v, spent);
    forall s ensures s in kept <==> s in v && s.address !in spent { FilterElements(v, NotAmong(spent), s); }
    if Has(v, a) && a !in spent {
      var i :| 0 <= i < |v| && v[i].address == a;
      assert v[i] in kept;
    }
    if Has(kept, a) {
      var i :| 0 <= i < |kept| && kept[i].address == a;
      assert kept[i] in v;
    }
  }

  // One step

  lemma SyncedAddress(w: World, e: Event, startBlock: int, discover: Discovery, a: Address)
    requires e.SyncSucceeds?
    requires var logs := Fetched(w.log, StartCursor(w.cursor, startBlock, e.fromStart));
      KnownOrRemoved(w, a) || exists s | s in Discovered(logs, discover) :: s.address == a
    ensures KnownOrRemoved(Step(w, e, startBlock, discover), a)
  {
    var logs := Fetched(w.log, StartCursor(w.cursor, startBlock, e.fromStart));
    var found := AddedMany(w.view, Discovered(logs, discover));
    var kept := WithoutSpent(found, e.chain.replies);
    if a !in w.removed {
      AddedManyHas(w.view, Discovered(logs, discover), a);
      HasIffInSet(found, a);
      HasIffInSet(kept, a);
      SyncKeepsAddresses(kept, e.chain.answers, e.chain.heard);
    }
  }

  lemma SyncCoversLog(w: World, e: Event, startBlock: int, discover: Discovery, k: nat)
    requires Sound(w, startBlock, discover) && e.SyncSucceeds? && Announces(w.log, k, startBlock, discover)
    ensures KnownOrRemoved(Step(w, e, startBlock, discover), discover(w.log[k]).value.address)
  {
    hide Step, SpentAmong, Highest;
    var from := StartCursor(w.cursor, startBlock, e.fromStart);
    var a := discover(w.log[k]).value.address;
    if w.log[k].block >= from {
      FetchedElements(w.log, from, w.log[k]);
      DiscoveredElements(Fetched(w.log, from), discover, w.log[k]);
    } else {
      assert k < w.covered;
    }
    SyncedAddress(w, e, startBlock, discover, a);
  }

  lemma SyncCursor(w: World, e: Event, startBlock: int, discover: Discovery)
    requires CursorIsSound(w, startBlock) && w.covered <= |w.log| && e.SyncSucceeds?
    ensures CursorIsSound(Step(w, e, startBlock, discover), startBlock)
    ensures NotLower(w.cursor, Step(w, e, startBlock, discover).cursor)
  {
    var from := StartCursor(w.cursor, startBlock, e.fromStart);
    var logs := Fetched(w.log, from);
    HighestIsMaximum(from, logs);
    var c := Highest(from, logs);
    if c != from {
      var l :| l in logs && l.block == c;
      FetchedElements(w.log, from, l);
      var k :| 0 <= k < |w.log| && w.log[k] == l;
      assert w.log[k].block == c;
    }
    if w.cursor.Some? && w.cursor.value > startBlock && e.fromStart {
      var k :| 0 <= k < |w.log| && w.log[k].block == w.cursor.value;
      FetchedElements(w.log, from, w.log[k]);
    }
  }

  lemma SyncIsSound(w: World, e: Event, startBlock: int, discover: Discovery)
    requires Sound(w, startBlock, discover) && e.SyncSucceeds?
    ensures Sound(Step(w, e, startBlock, discover), startBlock, discover)
    ensures NotLower(w.cursor, Step(w, e, startBlock, discover).cursor)
  {
    var w' := Step(w, e, startBlock, discover);
    var logs := Fetched(w.log, StartCursor(w.cursor, startBlock, e.fromStart));
    var found := AddedMany(w.view, Discovered(logs, discover));
    var kept := WithoutSpent(found, e.chain.replies);
    assert UniqueAddresses(w'.view) by {
      AddedManyKeepsUnique(w.view, Discovered(logs, discover));
      FilterKeepsUnique(found, NotAmong(SpentAmong(Unspent(found), e.chain.replies, |Unspent(found)|)));
      SyncKeepsAddresses(kept, e.chain.answers, e.chain.heard);
    }
    SyncCursor(w, e, startBlock, discover);
    forall k: nat | k < |w.log| && Announces(w.log, k, startBlock, discover)
      ensures KnownOrRemoved(w', discover(w.log[k]).value.address)
    {
      SyncCoversLog(w, e, startBlock, discover, k);
    }
  }

  lemma LocalIsSound(w: World, op: StoreOp, startBlock: int, discover: Discovery)
    requires Sound(w, startBlock, discover)
    ensures Sound(Step(w, Local(op), startBlock, discover), startBlock, discover)
  {
    var w' := Step(w, Local(op), startBlock, discover);
    ApplyKeepsUnique(w.view, op);
    forall a | KnownOrRemoved(w, a) ensures KnownOrRemoved(w', a) {
      HasIffInSet(w.view, a);
      HasIffInSet(w'.view, a);
    }
  }

  lemma GrowIsSound(w: World, logs: seq<Log>, startBlock: int, discover: Discovery)
    requires Sound(w, startBlock, discover) && BlocksAscend(w.log + logs)
    ensures Sound(Step(w, Grow(logs), startBlock, discover), startBlock, discover)
  {
    var w' := Step(w, Grow(logs), startBlock, discover);
    forall k | 0 <= k < |w.log| ensures w'.log[k] == w.log[k] {}
    if w.cursor.Some? && w.cursor.value > startBlock {
      var j :| 0 <= j < |w.log| && w.log[j].block == w.cursor.value;
      assert w'.log[j].block == w.cursor.value;
      forall k | |w.log| <= k < |w'.log| ensures w'.log[k].block >= w.cursor.value {
        assert w'.log[j].block <= w'.log[k].block;
      }
    }
  }

  /** Log blocks never go down as the log grows. */
  ghost predicate Possible(w: World, e: Event) {
    e.Grow? ==> BlocksAscend(w.log + e.logs)
  }

  lemma StepIsSound(w: World, e: Event, startBlock: int, discover: Discovery)
    requires Sound(w, startBlock, discover) && Possible(w, e)
    ensures Sound(Step(w, e, startBlock, discover), startBlock, discover)
    ensures NotLower(w.cursor, Step(w, e, startBlock, discover).cursor)
  {
    match e
    case Grow(logs) => GrowIsSound(w, logs, startBlock, discover);
    case Local(op) => LocalIsSound(w, op, startBlock, discover);
    case SyncFails(_) =>
    case SyncSucceeds(_, _) => SyncIsSound(w, e, startBlock, discover);
  }

  function Run(w: World, es: seq<Event>, startBlock: int, discover: Discovery): World
    decreases |es|
  {
    if es == [] then w else Run(Step(w, es[0], startBlock, discover), es[1..], startBlock, discover)
  }

  ghost predicate PossibleRun(w: World, es: seq<Event>, startBlock: int, discover: Discovery)
    decreases |es|
  {
    es == [] || (Possible(w, es[0]) && PossibleRun(Step(w, es[0], startBlock, discover), es[1..], startBlock, discover))
  }

  /** The invariant holds in every reachable state, and the cursor never goes down along a run. */
  lemma {:induction false} EveryRunIsSound(w: World, es: seq<Event>, startBlock: int, discover: Discovery)
    requires Sound(w, startBlock, discover) && PossibleRun(w, es, startBlock, discover)
    ensures Sound(Run(w, es, startBlock, discover), startBlock, discover)
    ensures NotLower(w.cursor, Run(w, es, startBlock, discover).cursor)
    decreases |es|
  {
    hide Sound, Step, Possible, NotLower;
    if es != [] {
      var w' := Step(w, es[0], startBlock, discover);
      StepIsSound(w, es[0], startBlock, discover);
      EveryRunIsSound(w', es[1..], startBlock, discover);
      NotLowerTransitive(w.cursor, w'.cursor, Run(w, es, startBlock, discover).cursor);
    } else {
      NotLowerTransitive(w.cursor, w.cursor, w.cursor);
    }
  }

  lemma NotLowerTransitive(a: Option<int>, b: Option<int>, c: Option<int>)
    ensures NotLower(a, a)
    ensures NotLower(a, b) && NotLower(b, c) ==> NotLower(a, c)
  {}

  /**
   Completeness: after any run from an empty wallet, a sync that succeeds leaves every shard announced to the
   wallet since the start block in the store, unless it was removed as spent, confirmed or failed.
  */
  lemma SyncIsComplete(es: seq<Event>, fromStart: bool, chain: Chain, startBlock: int, discover: Discovery, k: nat)
    requires PossibleRun(World([], [], None, {}, 0), es, startBlock, discover)
    requires Announces(Run(World([], [], None, {}, 0), es, startBlock, discover).log, k, startBlock, discover)
    ensures var w := Run(World([], [], None, {}, 0), es, startBlock, discover);
      KnownOrRemoved(Step(w, SyncSucceeds(fromStart, chain), startBlock, discover), discover(w.log[k]).value.address)
  {
    var w0 := World([], [], None, {}, 0);
    EveryRunIsSound(w0, es, startBlock, discover);
    SyncCoversLog(Run(w0, es, startBlock, discover), SyncSucceeds(fromStart, chain), startBlock, discover, k);
  }

  // Pending shards

  lemma {:induction false} MergedKeepsPending(v: View, inv: Inventory, s: Shard)
    requires |inv| == |Unspent(v)| && s in v && s.pending
    ensures s in Merged(v, inv)
  {
    if IsUnspent(v[0]) {
      assert Unspent(v) == [v[0]] + Unspent(v[1..]);
      MergedKeepsPending(v[1..], inv[1..], s);
    } else if s != v[0] {
      assert Unspent(v) == Unspent(v[1..]);
      MergedKeepsPending(v[1..], inv, s);
    }
  }

  /** Syncing looks at unspent shards only: a pending one stays exactly as it is. */
  lemma PendingSurvivesSync(v: View, logs: seq<Log>, discover: Discovery, c: Chain, s: Shard)
    requires UniqueAddresses(v) && s in v && s.pending
    ensures s in SyncedView(v, logs, discover, c)
  {
    hide Merged;
    var found := AddedMany(v, Discovered(logs, discover));
    AddedManyExtends(v, Discovered(logs, discover), s);
    AddedManyKeepsUnique(v, Discovered(logs, discover));
    var spent := SpentAmong(Unspent(found), c.replies, |Unspent(found)|);
    forall k | 0 <= k < |Unspent(found)| ensures Unspent(found)[k].address != s.address {
      FilterElements(found, IsUnspent, Unspent(found)[k]);
      OneOfEach(found, Unspent(found)[k], s);
    }
    SpentAmongElements(Unspent(found), c.replies, |Unspent(found)|, s.address);
    var kept := WithoutSpent(found, c.replies);
    FilterElements(found, NotAmong(spent), s);
    MergedKeepsPending(kept, VerifiedAll(Addresses(Unspent(kept)), Assets(Unspent(kept)), c.answers, c.heard), s);
  }

  lemma AddedManyExtends(v: View, ss: seq<Shard>, s: Shard)
    requires s in v
    ensures s in AddedMany(v, ss)
  {
    AddedManyAppends(v, ss);
  }

  lemma OneOfEach(v: View, a: Shard, b: Shard)
    requires UniqueAddresses(v) && a in v && b in v && a != b
    ensures a.address != b.address
  {
    var i :| 0 <= i < |v| && v[i] == a;
    var j :| 0 <= j < |v| && v[j] == b;
  }

  /** No run of log growth and syncs ever frees or removes a pending shard: only a confirmation can. */
  lemma {:induction false} PendingSurvivesRuns(w: World, es: seq<Event>, startBlock: int, discover: Discovery, s: Shard)
    requires Sound(w, startBlock, discover) && PossibleRun(w, es, startBlock, discover)
    requires (forall e | e in es :: !e.Local?) && s in w.view && s.pending
    ensures s in Run(w, es, startBlock, discover).view
    decreases |es|
  {
    hide Sound, SyncedView, Possible;
    if es != [] {
      assert es[0] in es;
      forall e | e in es[1..] ensures e in es {}
      StepIsSound(w, es[0], startBlock, discover);
      if es[0].SyncSucceeds? {
        AddressesAreUnique(w, startBlock, discover);
        PendingSurvivesSync(w.view, Fetched(w.log, StartCursor(w.cursor, startBlock, es[0].fromStart)), discover, es[0].chain, s);
      }
      PendingSurvivesRuns(Step(w, es[0], startBlock, discover), es[1..], startBlock, discover, s);
    }
  }

  lemma AddressesAreUnique(w: World, startBlock: int, discover: Discovery)
    requires Sound(w, startBlock, discover)
    ensures UniqueAddresses(w.view)
  {}
}
