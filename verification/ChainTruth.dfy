/** Verified records against the ledger, when the answers are those of the chain. */
module ChainTruth {
  import opened Seqs
  import opened Protocol
  import opened Ledger
  import opened StoreSpec
  import opened Splice
  import opened Multicall
  import opened BalanceVerification
  import opened SyncSpec

  /** What the chain answers; `ownerOf` of an id nobody owns reverts. */
  function Truth(l: Books, q: Query): Answer {
    match q
    case EthBalance(owner) => Value(Funds(l, Ether, owner))
    case BalanceOf(token, owner) => Value(Funds(l, Token(token), owner))
    case OwnerOf(token, id) => (match Ledger.OwnerOf(l, token, id) case None => Failed case Some(owner) => Value(owner))
  }

  ghost predicate Honest(l: Books, owners: seq<Address>, inv: Inventory, answers: Answers)
    requires |owners| == |inv|
  {
    forall s: Slot | s.ValidIn(inv) :: answers(s) == Truth(l, QueryFor(owners, inv, s))
  }

  ghost predicate AllHeard(inv: Inventory, seen: set<Slot>) {
    forall s: Slot | s.ValidIn(inv) :: s in seen
  }

  /** The recorded asset is what the ledger says of its owner, but an id nobody owns stays listed. */
  ghost predicate IsTrue(l: Books, owner: Address, before: Asset, after: Asset) {
    match before
    case NativeAsset(_) => after == NativeAsset(Funds(l, Ether, owner))
    case ERC20Asset(token, _) => after == ERC20Asset(token, Funds(l, Token(token), owner))
    case ERC721Asset(token, balance, ids) =>
      && after.ERC721Asset? && after.token == token && after.balance == balance
      && forall x :: x in after.tokenIds <==> x in ids && Ledger.OwnerOf(l, token, x) in {None, Some(owner)}
  }

  /** With every answer heard and honest, every record is true. */
  lemma VerifiedIsTrue(l: Books, owners: seq<Address>, inv: Inventory, answers: Answers, seen: set<Slot>, si: nat, ai: nat)
    requires |owners| == |inv| && Honest(l, owners, inv, answers) && AllHeard(inv, seen)
    requires si < |inv| && ai < |inv[si]|
    ensures IsTrue(l, owners[si], inv[si][ai], VerifiedAll(owners, inv, answers, seen)[si][ai])
  {
    hide VerifiedAll;
    Widths(owners, inv, answers, seen);
    VerifiedBalance(owners, inv, answers, seen, si, ai);
    var a := inv[si][ai];
    if a.ERC721Asset? {
      var r := VerifiedAll(owners, inv, answers, seen)[si][ai];
      forall x ensures x in r.tokenIds <==> x in a.tokenIds && Ledger.OwnerOf(l, a.token, x) in {None, Some(owners[si])} {
        IdIsTrue(l, owners, inv, answers, seen, si, ai, x);
      }
    } else {
      assert BalanceSlot(si, ai).ValidIn(inv);
    }
  }

  lemma IdIsTrue(l: Books, owners: seq<Address>, inv: Inventory, answers: Answers, seen: set<Slot>, si: nat, ai: nat, x: int)
    requires |owners| == |inv| && Honest(l, owners, inv, answers) && AllHeard(inv, seen)
    requires si < |inv| && ai < |inv[si]| && inv[si][ai].ERC721Asset?
    ensures VerifiedAll(owners, inv, answers, seen)[si][ai].ERC721Asset?
    ensures x in VerifiedAll(owners, inv, answers, seen)[si][ai].tokenIds
       <==> x in inv[si][ai].tokenIds && Ledger.OwnerOf(l, inv[si][ai].token, x) in {None, Some(owners[si])}
  {
    hide VerifiedAll;
    VerifiedIds(owners, inv, answers, seen, si, ai, x);
    var a := inv[si][ai];
    forall t: nat | t < |a.tokenIds|
      ensures var s := TokenSlot(si, ai, t);
        s in seen && answers(s) == Truth(l, Query.OwnerOf(a.token, a.tokenIds[t]))
    {
      assert TokenSlot(si, ai, t).ValidIn(inv);
    }
  }

  // The store

  /** A list of shards and its unspent ones, one shard at a time. */
  lemma UnspentStep(v: View)
    requires v != []
    ensures Unspent(v) == (if IsUnspent(v[0]) then [v[0]] else []) + Unspent(v[1..])
  {}

  /** The unspent shards of the merged list have the new assets, one for one; the others are as they were. */
  ghost predicate MergesUnspent(v: View, inv: Inventory)
    requires |inv| == |Unspent(v)|
  {
    var w := Unspent(Merged(v, inv));
    && |w| == |inv|
    && (forall k | 0 <= k < |inv| :: w[k] == Unspent(v)[k].(assets := inv[k]))
    && (forall i | 0 <= i < |v| && !IsUnspent(v[i]) :: Merged(v, inv)[i] == v[i])
  }

  lemma {:induction false} MergedUnspent(v: View, inv: Inventory)
    requires |inv| == |Unspent(v)|
    ensures MergesUnspent(v, inv)
  {
    hide Merged, Unspent, MergesUnspent;
    if v == [] {
      NothingMerged(inv);
    } else {
      MergedHead(v, inv);
      MergedUnspent(v[1..], if IsUnspent(v[0]) then inv[1..] else inv);
      MergesOneMore(v, inv);
    }
  }

  lemma MergesOneMore(v: View, inv: Inventory)
    requires v != [] && |inv| == |Unspent(v)|
    requires if IsUnspent(v[0]) then inv != [] && |inv[1..]| == |Unspent(v[1..])| && MergesUnspent(v[1..], inv[1..])
             else |inv| == |Unspent(v[1..])| && MergesUnspent(v[1..], inv)
    ensures MergesUnspent(v, inv)
  {
    hide Merged, Unspent, IsUnspent;
    UnspentStep(v);
    MergedHead(v, inv);
    var rest := if IsUnspent(v[0]) then inv[1..] else inv;
    var head := if IsUnspent(v[0]) then v[0].(assets := inv[0]) else v[0];
    UnspentCons(head, Merged(v[1..], rest));
    SameStatus(v[0], head);
    forall i | 0 <= i < |v| && !IsUnspent(v[i]) ensures Merged(v, inv)[i] == v[i] {
      if i > 0 { assert v[1..][i - 1] == v[i] && Merged(v, inv)[i] == Merged(v[1..], rest)[i - 1]; }
    }
  }

  lemma SameStatus(s: Shard, t: Shard)
    requires s.spent == t.spent && s.pending == t.pending
    ensures IsUnspent(s) <==> IsUnspent(t)
  {}

  lemma UnspentCons(s: Shard, v: View)
    ensures Unspent([s] + v) == (if IsUnspent(s) then [s] else []) + Unspent(v)
  {
    assert ([s] + v)[1..] == v;
  }

  lemma NothingMerged(inv: Inventory)
    requires |inv| == |Unspent([])|
    ensures MergesUnspent([], inv)
  {}

  /**
   A verification in which every chunk arrives and the chain answers honestly makes the record of every unspent shard
   that of the ledger, asset by asset, and leaves the other shards as they are.
  */
  lemma VerifiedStoreIsTrue(v: View, l: Books, answers: Answers, heard: set<Slot>)
    requires var inv := Assets(Unspent(v)); Honest(l, Addresses(Unspent(v)), inv, answers) && AllHeard(inv, heard)
    ensures var before, after := Unspent(v), Unspent(Reconciled(v, answers, heard));
      && |after| == |before|
      && forall k | 0 <= k < |before| ::
           && after[k] == before[k].(assets := after[k].assets) && |after[k].assets| == |before[k].assets|
           && forall ai | 0 <= ai < |before[k].assets| :: IsTrue(l, before[k].address, before[k].assets[ai], after[k].assets[ai])
    ensures forall i | 0 <= i < |v| && !IsUnspent(v[i]) :: Reconciled(v, answers, heard)[i] == v[i]
  {
    hide VerifiedAll, Merged, Unspent, IsTrue, Honest, AllHeard, IsUnspent;
    var owners, inv := Addresses(Unspent(v)), Assets(Unspent(v));
    var verified := VerifiedAll(owners, inv, answers, heard);
    Widths(owners, inv, answers, heard);
    MergedUnspent(v, verified);
    forall k, ai | 0 <= k < |inv| && 0 <= ai < |inv[k]| ensures IsTrue(l, owners[k], inv[k][ai], verified[k][ai]) {
      VerifiedIsTrue(l, owners, inv, answers, heard, k, ai);
    }
  }

  lemma Widths(owners: seq<Address>, inv: Inventory, answers: Answers, seen: set<Slot>)
    ensures |VerifiedAll(owners, inv, answers, seen)| == |inv|
    ensures forall k | 0 <= k < |inv| :: |VerifiedAll(owners, inv, answers, seen)[k]| == |inv[k]|
  {}
}
