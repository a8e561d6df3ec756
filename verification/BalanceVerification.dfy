/** Overwriting recorded balances with chain answers and dropping token ids owned by others (index.ts). */
module BalanceVerification {
  import opened Seqs
  import opened Protocol
  import opened Splice
  import opened Multicall
  import opened ShardStore

  const MULTICALL_CHUNK_SIZE := 300

  /** What came back for one call: nothing usable, or a number (a balance, or the owner's address). */
  datatype Answer = Failed | Value(v: nat)

  type Answers = Slot -> Answer

  function InventoryOf(shards: seq<LiveShard>): (inv: Inventory)
    reads shards
    ensures |inv| == |shards|
  {
    seq(|shards|, i requires 0 <= i < |shards| reads shards => shards[i].assets)
  }

  function OwnersOf(shards: seq<LiveShard>): (owners: seq<Address>)
    ensures |owners| == |shards|
  {
    seq(|shards|, i requires 0 <= i < |shards| => shards[i].address)
  }

  // What the answers mean

  function WithBalance(a: Asset, balance: int): Asset {
    match a
    case NativeAsset(_) => NativeAsset(balance)
    case ERC20Asset(token, _) => ERC20Asset(token, balance)
    case ERC721Asset(_, _, _) => a
  }

  function Balanced(a: Asset, si: nat, ai: nat, answers: Answers, seen: set<Slot>): Asset {
    var s := BalanceSlot(si, ai);
    if !a.ERC721Asset? && s in seen && answers(s).Value? then WithBalance(a, answers(s).v) else a
  }

  function BalancedRow(row: seq<Asset>, si: nat, answers: Answers, seen: set<Slot>): seq<Asset> {
    seq(|row|, ai requires 0 <= ai < |row| => Balanced(row[ai], si, ai, answers, seen))
  }

  /** The balances that have been answered, written in. */
  function BalancedAll(inv: Inventory, answers: Answers, seen: set<Slot>): Inventory {
    seq(|inv|, si requires 0 <= si < |inv| => BalancedRow(inv[si], si, answers, seen))
  }

  /** `ownerOf` succeeded and named somebody other than the shard. */
  predicate IsDead(owners: seq<Address>, answers: Answers, s: Slot) {
    s.TokenSlot? && answers(s).Value? && s.si < |owners| && answers(s).v != owners[s.si]
  }

  function DeadIds(owners: seq<Address>, a: Asset, si: nat, ai: nat, answers: Answers, seen: set<Slot>): set<nat> {
    if a.ERC721Asset?
    then set ti | 0 <= ti < |a.tokenIds| && TokenSlot(si, ai, ti) in seen && IsDead(owners, answers, TokenSlot(si, ai, ti)) :: ti
    else {}
  }

  function Verified(owners: seq<Address>, a: Asset, si: nat, ai: nat, answers: Answers, seen: set<Slot>): Asset {
    Filtered(Balanced(a, si, ai, answers, seen), DeadIds(owners, a, si, ai, answers, seen))
  }

  function VerifiedRow(owners: seq<Address>, row: seq<Asset>, si: nat, answers: Answers, seen: set<Slot>): seq<Asset> {
    seq(|row|, ai requires 0 <= ai < |row| => Verified(owners, row[ai], si, ai, answers, seen))
  }

  /** Balances overwritten, and each asset left with the ids whose query failed or named the shard, in order. */
  function VerifiedAll(owners: seq<Address>, inv: Inventory, answers: Answers, seen: set<Slot>): Inventory {
    seq(|inv|, si requires 0 <= si < |inv| => VerifiedRow(owners, inv[si], si, answers, seen))
  }

  /** Calls are sent in chunks; those of the chunks that came back. */
  function Heard(mapping: seq<Slot>, arrival: seq<nat>): set<Slot> {
    set k | 0 <= k < |mapping| && k / MULTICALL_CHUNK_SIZE in arrival :: mapping[k]
  }

  function ChunkCount(calls: nat): nat {
    (calls + MULTICALL_CHUNK_SIZE - 1) / MULTICALL_CHUNK_SIZE
  }

  // One answer

  /** The list of dead entries names exactly the dead slots seen, each once. */
  ghost predicate ListsDead(dead: seq<Dead>, owners: seq<Address>, answers: Answers, seen: set<Slot>) {
    && Distinct(dead)
    && forall si, ai, ti :: Dead(si, ai, ti) in dead
         <==> TokenSlot(si, ai, ti) in seen && IsDead(owners, answers, TokenSlot(si, ai, ti))
  }

  lemma BalancedStep(inv: Inventory, answers: Answers, seen: set<Slot>, m: Slot)
    requires m.ValidIn(inv)
    ensures var before, after := BalancedAll(inv, answers, seen), BalancedAll(inv, answers, seen + {m});
      after == if m.BalanceSlot? && answers(m).Value?
               then before[m.si := before[m.si][m.ai := WithBalance(before[m.si][m.ai], answers(m).v)]]
               else before
  {
    var before, after := BalancedAll(inv, answers, seen), BalancedAll(inv, answers, seen + {m});
    if m.BalanceSlot? && answers(m).Value? {
      var row := before[m.si][m.ai := WithBalance(before[m.si][m.ai], answers(m).v)];
      assert after[m.si] == row;
      forall si: nat | si < |inv| && si != m.si ensures after[si] == before[si] {}
    } else {
      forall si: nat | si < |inv| ensures after[si] == before[si] {
        forall ai: nat | ai < |inv[si]| ensures after[si][ai] == before[si][ai] {}
      }
    }
  }

  /** Inside the loop over one chunk's results. */
  method ApplyAnswer(shards: seq<LiveShard>, m: Slot, answers: Answers, dead: seq<Dead>, ghost inv: Inventory, ghost seen: set<Slot>)
    returns (dead': seq<Dead>)
    requires Distinct(shards) && m.ValidIn(inv) && m !in seen
    requires InventoryOf(shards) == BalancedAll(inv, answers, seen)
    requires ListsDead(dead, OwnersOf(shards), answers, seen)
    modifies set i | 0 <= i < |shards| :: shards[i]`assets
    ensures InventoryOf(shards) == BalancedAll(inv, answers, seen + {m})
    ensures ListsDead(dead', OwnersOf(shards), answers, seen + {m})
  {
    BalancedStep(inv, answers, seen, m);
    dead' := dead;
    match answers(m)
    case Failed =>
    case Value(v) =>
      assert m.si < |BalancedAll(inv, answers, seen)| == |shards|;
      var shard := shards[m.si];
      assert shard.assets == InventoryOf(shards)[m.si] == BalancedAll(inv, answers, seen)[m.si];
      match m
      case BalanceSlot(si, ai) =>
        ghost var before := InventoryOf(shards);
        shard.assets := shard.assets[ai := WithBalance(shard.assets[ai], v)];
        assert InventoryOf(shards) == before[si := before[si][ai := WithBalance(before[si][ai], v)]];
      case TokenSlot(si, ai, ti) =>
        if v != shard.address {
          assert Dead(si, ai, ti) !in dead;
          dead' := dead + [Dead(si, ai, ti)];
        }
  }

  // One chunk

  /** The slots of mapping[from..to]. */
  ghost function Between(mapping: seq<Slot>, from: nat, to: nat): set<Slot>
    requires to <= |mapping|
  {
    set k | from <= k < to :: mapping[k]
  }

  lemma PrecedesIsStrict(mapping: seq<Slot>)
    requires InOrder(mapping)
    ensures forall j, k | 0 <= j < |mapping| && 0 <= k < |mapping| && j != k :: mapping[j] != mapping[k]
  {
    forall j, k | 0 <= j < k < |mapping| ensures mapping[j] != mapping[k] {
      assert mapping[j].Precedes(mapping[k]);
    }
  }

  function ChunkEnd(c: nat, calls: nat): nat {
    if (c + 1) * MULTICALL_CHUNK_SIZE < calls then (c + 1) * MULTICALL_CHUNK_SIZE else calls
  }

  lemma ChunkBounds(k: nat, c: nat, calls: nat)
    requires k < calls
    ensures k / MULTICALL_CHUNK_SIZE == c <==> c * MULTICALL_CHUNK_SIZE <= k < ChunkEnd(c, calls)
    ensures k / MULTICALL_CHUNK_SIZE < ChunkCount(calls)
  {}

  lemma HeardStep(mapping: seq<Slot>, arrival: seq<nat>, c: nat)
    requires c < |arrival|
    ensures Heard(mapping, arrival[..c + 1])
         == Heard(mapping, arrival[..c]) + Between(mapping, arrival[c] * MULTICALL_CHUNK_SIZE, ChunkEnd(arrival[c], |mapping|))
  {
    var start, end := arrival[c] * MULTICALL_CHUNK_SIZE, ChunkEnd(arrival[c], |mapping|);
    assert arrival[..c + 1] == arrival[..c] + [arrival[c]];
    forall k | 0 <= k < |mapping|
      ensures k / MULTICALL_CHUNK_SIZE in arrival[..c + 1] <==> k / MULTICALL_CHUNK_SIZE in arrival[..c] || start <= k < end
    {
      ChunkBounds(k, arrival[c], |mapping|);
    }
  }

  lemma ChunkIsNew(mapping: seq<Slot>, arrival: seq<nat>, c: nat, k: nat)
    requires InOrder(mapping) && Distinct(arrival) && c < |arrival| && k < |mapping| && k / MULTICALL_CHUNK_SIZE == arrival[c]
    ensures mapping[k] !in Heard(mapping, arrival[..c])
  {
    PrecedesIsStrict(mapping);
    forall j | 0 <= j < |mapping| && j / MULTICALL_CHUNK_SIZE in arrival[..c] ensures mapping[j] != mapping[k] {}
  }

  method ApplyChunk(shards: seq<LiveShard>, mapping: seq<Slot>, answers: Answers, dead: seq<Dead>,
                    arrival: seq<nat>, c: nat, ghost inv: Inventory)
    returns (dead': seq<Dead>)
    requires Distinct(shards) && InOrder(mapping) && Complete(inv, mapping)
    requires Distinct(arrival) && c < |arrival|
    requires InventoryOf(shards) == BalancedAll(inv, answers, Heard(mapping, arrival[..c]))
    requires ListsDead(dead, OwnersOf(shards), answers, Heard(mapping, arrival[..c]))
    modifies set i | 0 <= i < |shards| :: shards[i]`assets
    ensures InventoryOf(shards) == BalancedAll(inv, answers, Heard(mapping, arrival[..c + 1]))
    ensures ListsDead(dead', OwnersOf(shards), answers, Heard(mapping, arrival[..c + 1]))
  {
    hide BalancedAll, ListsDead, Heard, Complete, InOrder;
    var start, end := arrival[c] * MULTICALL_CHUNK_SIZE, ChunkEnd(arrival[c], |mapping|);
    HeardStep(mapping, arrival, c);
    ghost var heard := Heard(mapping, arrival[..c]);
    dead' := dead;
    if start >= end {
      assert heard + Between(mapping, start, end) == heard;
      return;
    }
    var k := start;
    assert heard + Between(mapping, start, start) == heard;
    while k < end
      invariant start <= k <= end
      invariant InventoryOf(shards) == BalancedAll(inv, answers, heard + Between(mapping, start, k))
      invariant ListsDead(dead', OwnersOf(shards), answers, heard + Between(mapping, start, k))
    {
      ghost var seen := heard + Between(mapping, start, k);
      ChunkBounds(k, arrival[c], |mapping|);
      ChunkIsNew(mapping, arrival, c, k);
      PrecedesIsStrict(mapping);
      ValidEntry(inv, mapping, k);
      dead' := ApplyAnswer(shards, mapping[k], answers, dead', inv, seen);
      assert seen + {mapping[k]} == heard + Between(mapping, start, k + 1);
      k := k + 1;
    }
  }

  lemma ValidEntry(inv: Inventory, mapping: seq<Slot>, k: nat)
    requires Complete(inv, mapping) && k < |mapping|
    ensures mapping[k].ValidIn(inv)
  {
    assert mapping[k] in mapping;
  }

  // The splices

  method SpliceDead(shards: seq<LiveShard>, dead: seq<Dead>)
    requires Distinct(shards)
    modifies set i | 0 <= i < |shards| :: shards[i]`assets
    ensures InventoryOf(shards) == SpliceAll(old(InventoryOf(shards)), SortDead(dead))
  {
    var sorted := SortDead(dead);
    ghost var inv := InventoryOf(shards);
    for n := 0 to |sorted|
      invariant SpliceAll(InventoryOf(shards), sorted[n..]) == SpliceAll(inv, sorted)
    {
      var d := sorted[n];
      assert sorted[n..][0] == d && sorted[n..][1..] == sorted[n + 1..];
      ghost var before := InventoryOf(shards);
      if d.si < |shards| && d.ai < |shards[d.si].assets| {
        var asset := shards[d.si].assets[d.ai];
        if asset.ERC721Asset? && d.ti < |asset.tokenIds| {
          shards[d.si].assets := shards[d.si].assets[d.ai := asset.(tokenIds := Without(asset.tokenIds, d.ti))];
          assert InventoryOf(shards) == SpliceAt(before, d);
        }
      }
    }
    assert sorted[|sorted|..] == [];
  }

  lemma VerifiedIsFiltered(owners: seq<Address>, inv: Inventory, answers: Answers, seen: set<Slot>, dead: seq<Dead>)
    requires ListsDead(dead, owners, answers, seen)
    requires forall s | s in seen :: s.ValidIn(inv)
    ensures forall d | d in dead :: Points(BalancedAll(inv, answers, seen), d)
    ensures FilterAll(BalancedAll(inv, answers, seen), dead) == VerifiedAll(owners, inv, answers, seen)
  {
    hide Keep;
    var balanced := BalancedAll(inv, answers, seen);
    forall d | d in dead ensures Points(balanced, d) {
      assert Dead(d.si, d.ai, d.ti) in dead;
      assert TokenSlot(d.si, d.ai, d.ti).ValidIn(inv);
    }
    forall si: nat | si < |inv| ensures FilterRow(balanced[si], dead, si) == VerifiedRow(owners, inv[si], si, answers, seen) {
      forall ai: nat | ai < |inv[si]|
        ensures Filtered(balanced[si][ai], DeadAt(dead, si, ai)) == Verified(owners, inv[si][ai], si, ai, answers, seen)
      {
        DeadAtIs(owners, inv, answers, seen, dead, si, ai);
      }
    }
  }

  lemma DeadAtIs(owners: seq<Address>, inv: Inventory, answers: Answers, seen: set<Slot>, dead: seq<Dead>, si: nat, ai: nat)
    requires ListsDead(dead, owners, answers, seen) && si < |inv| && ai < |inv[si]|
    requires forall s | s in seen :: s.ValidIn(inv)
    ensures DeadAt(dead, si, ai) == DeadIds(owners, inv[si][ai], si, ai, answers, seen)
  {
    forall t | t in DeadAt(dead, si, ai) ensures t in DeadIds(owners, inv[si][ai], si, ai, answers, seen) {
      var k :| 0 <= k < |dead| && dead[k].si == si && dead[k].ai == ai && dead[k].ti == t;
      assert Dead(si, ai, t) == dead[k] && dead[k] in dead;
      assert TokenSlot(si, ai, t).ValidIn(inv);
    }
    forall t | t in DeadIds(owners, inv[si][ai], si, ai, answers, seen) ensures t in DeadAt(dead, si, ai) {
      assert Dead(si, ai, t) in dead;
      var k :| 0 <= k < |dead| && dead[k] == Dead(si, ai, t);
    }
  }

  lemma NothingHeard(owners: seq<Address>, inv: Inventory, answers: Answers)
    ensures BalancedAll(inv, answers, {}) == inv
    ensures VerifiedAll(owners, inv, answers, {}) == inv
  {
    forall si: nat | si < |inv|
      ensures BalancedAll(inv, answers, {})[si] == inv[si] && VerifiedAll(owners, inv, answers, {})[si] == inv[si]
    {
      forall ai: nat | ai < |inv[si]| ensures Verified(owners, inv[si][ai], si, ai, answers, {}) == inv[si][ai] {
        assert DeadIds(owners, inv[si][ai], si, ai, answers, {}) == {};
        if inv[si][ai].ERC721Asset? { KeepNone(inv[si][ai].tokenIds, {}); }
      }
    }
  }

  lemma HeardIsValid(inv: Inventory, mapping: seq<Slot>, arrival: seq<nat>)
    requires Complete(inv, mapping)
    ensures forall s | s in Heard(mapping, arrival) :: s.ValidIn(inv)
  {
    forall s | s in Heard(mapping, arrival) ensures s.ValidIn(inv) { assert s in mapping; }
  }

  /**
   `verifyShardBalances` on live shards. The chunks report in the order of `arrival`; a chunk that failed
   is not in it, and a number past the last chunk names none. Whatever the order, the answers heard are
   applied exactly and nothing else changes.
   `mapping` lists the calls made.
  */
  method VerifyShardBalances(shards: seq<LiveShard>, answers: Answers, arrival: seq<nat>) returns (mapping: seq<Slot>)
    requires Distinct(shards) && Distinct(arrival)
    modifies set i | 0 <= i < |shards| :: shards[i]`assets
    ensures InOrder(mapping) && Complete(old(InventoryOf(shards)), mapping)
    ensures InventoryOf(shards) == VerifiedAll(OwnersOf(shards), old(InventoryOf(shards)), answers, Heard(mapping, arrival))
  {
    hide BalancedAll, VerifiedAll, ListsDead, Complete, InOrder, SpliceAll, SortDead, FilterAll;
    ghost var inv := InventoryOf(shards);
    var calls;
    calls, mapping := BuildBatch(OwnersOf(shards), InventoryOf(shards));
    NothingHeard(OwnersOf(shards), inv, answers);
    assert Heard(mapping, arrival[..0]) == {};
    if |calls| == 0 {
      assert Heard(mapping, arrival) == {};
      return;
    }
    var dead: seq<Dead> := [];
    NothingDeadYet(OwnersOf(shards), answers);
    for c := 0 to |arrival|
      invariant InventoryOf(shards) == BalancedAll(inv, answers, Heard(mapping, arrival[..c]))
      invariant ListsDead(dead, OwnersOf(shards), answers, Heard(mapping, arrival[..c]))
    {
      dead := ApplyChunk(shards, mapping, answers, dead, arrival, c, inv);
    }
    assert arrival[..|arrival|] == arrival;
    ghost var seen := Heard(mapping, arrival);
    HeardIsValid(inv, mapping, arrival);
    VerifiedIsFiltered(OwnersOf(shards), inv, answers, seen, dead);
    ListIsDistinct(dead, OwnersOf(shards), answers, seen);
    SortedSplicingFilters(BalancedAll(inv, answers, seen), dead);
    SpliceDead(shards, dead);
  }

  lemma NothingDeadYet(owners: seq<Address>, answers: Answers)
    ensures ListsDead([], owners, answers, {})
  {}

  lemma ListIsDistinct(dead: seq<Dead>, owners: seq<Address>, answers: Answers, seen: set<Slot>)
    requires ListsDead(dead, owners, answers, seen)
    ensures Distinct(dead)
  {}

  // When every chunk arrives

  ghost predicate AllArrived(mapping: seq<Slot>, arrival: seq<nat>) {
    forall c: nat | c < ChunkCount(|mapping|) :: c in arrival
  }

  lemma EverythingHeard(inv: Inventory, mapping: seq<Slot>, arrival: seq<nat>)
    requires Complete(inv, mapping) && AllArrived(mapping, arrival)
    ensures forall s: Slot :: s in Heard(mapping, arrival) <==> s.ValidIn(inv)
  {
    HeardIsValid(inv, mapping, arrival);
    forall s: Slot | s.ValidIn(inv) ensures s in Heard(mapping, arrival) {
      var k :| 0 <= k < |mapping| && mapping[k] == s;
      ChunkBounds(k, 0, |mapping|);
    }
  }

  /** The order of arrival does not matter. */
  lemma AnyArrivalOrder(owners: seq<Address>, inv: Inventory, answers: Answers, mapping: seq<Slot>, a: seq<nat>, b: seq<nat>)
    requires multiset(a) == multiset(b)
    ensures VerifiedAll(owners, inv, answers, Heard(mapping, a)) == VerifiedAll(owners, inv, answers, Heard(mapping, b))
  {
    forall c: nat ensures c in a <==> c in b {
      assert c in a <==> c in multiset(a);
    }
    assert Heard(mapping, a) == Heard(mapping, b);
  }

  lemma {:induction false} KeepElements(ids: seq<int>, dead: set<nat>, x: int)
    ensures x in Keep(ids, dead) <==> exists t | 0 <= t < |ids| :: ids[t] == x && t !in dead
  {
    if ids != [] {
      var n := |ids| - 1;
      KeepElements(ids[..n], dead, x);
      forall t | 0 <= t < n ensures ids[..n][t] == ids[t] {}
    }
  }

  /** With every answer in: an id stays exactly when its `ownerOf` failed or returned the shard. */
  lemma VerifiedTokens(owners: seq<Address>, inv: Inventory, answers: Answers, mapping: seq<Slot>, arrival: seq<nat>,
                       si: nat, ai: nat, x: int)
    requires |owners| == |inv| && Complete(inv, mapping) && AllArrived(mapping, arrival)
    requires si < |inv| && ai < |inv[si]| && inv[si][ai].ERC721Asset?
    ensures var ids := inv[si][ai].tokenIds; var a := VerifiedAll(owners, inv, answers, Heard(mapping, arrival))[si][ai];
      && a.ERC721Asset? && a.token == inv[si][ai].token
      && (x in a.tokenIds <==> exists t: nat | t < |ids| ::
            ids[t] == x && var r := answers(TokenSlot(si, ai, t)); r == Failed || r == Value(owners[si]))
  {
    EverythingHeard(inv, mapping, arrival);
    var seen, ids := Heard(mapping, arrival), inv[si][ai].tokenIds;
    var dead := DeadIds(owners, inv[si][ai], si, ai, answers, seen);
    KeepElements(ids, dead, x);
    forall t: nat | t < |ids|
      ensures t !in dead <==> answers(TokenSlot(si, ai, t)) == Failed || answers(TokenSlot(si, ai, t)) == Value(owners[si])
    {
      assert TokenSlot(si, ai, t).ValidIn(inv);
    }
  }

  /**
   A balance is overwritten exactly when its slot was heard with a number; kind and token stay. What has not been
   answered keeps the recorded balance.
  */
  lemma VerifiedBalance(owners: seq<Address>, inv: Inventory, answers: Answers, seen: set<Slot>, si: nat, ai: nat)
    requires si < |inv| && ai < |inv[si]|
    ensures var a, r, s := inv[si][ai], VerifiedAll(owners, inv, answers, seen)[si][ai], BalanceSlot(si, ai);
      var balance := if s in seen && answers(s).Value? then answers(s).v else a.balance;
      && (a.NativeAsset? ==> r == NativeAsset(balance))
      && (a.ERC20Asset? ==> r == ERC20Asset(a.token, balance))
      && (a.ERC721Asset? ==> r == ERC721Asset(a.token, a.balance, r.tokenIds))
  {}

  /** An id goes exactly when its slot was heard and named somebody other than the shard. */
  lemma VerifiedIds(owners: seq<Address>, inv: Inventory, answers: Answers, seen: set<Slot>, si: nat, ai: nat, x: int)
    requires |owners| == |inv| && si < |inv| && ai < |inv[si]| && inv[si][ai].ERC721Asset?
    ensures VerifiedAll(owners, inv, answers, seen)[si][ai].ERC721Asset?
    ensures var ids := inv[si][ai].tokenIds;
      x in VerifiedAll(owners, inv, answers, seen)[si][ai].tokenIds <==> exists t: nat | t < |ids| ::
        ids[t] == x && var s := TokenSlot(si, ai, t); s !in seen || answers(s) == Failed || answers(s) == Value(owners[si])
  {
    var ids, dead := inv[si][ai].tokenIds, DeadIds(owners, inv[si][ai], si, ai, answers, seen);
    KeepElements(ids, dead, x);
    forall t: nat | t < |ids|
      ensures t !in dead <==>
        var s := TokenSlot(si, ai, t); s !in seen || answers(s) == Failed || answers(s) == Value(owners[si])
    {}
  }
}
