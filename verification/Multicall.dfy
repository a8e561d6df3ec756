/** The batch of balance and owner queries, with its index mapping (multicall.ts). */
module Multicall {
  import opened Seqs
  import opened Protocol
  import opened Splice

  /** Where an answer belongs: the balance of an asset, or one token id of it. */
  datatype Slot =
    | BalanceSlot(si: nat, ai: nat)
    | TokenSlot(si: nat, ai: nat, ti: nat)
  {
    predicate ValidIn(inv: Inventory) {
      match this
      case BalanceSlot(si, ai) => si < |inv| && ai < |inv[si]| && !inv[si][ai].ERC721Asset?
      case TokenSlot(si, ai, ti) => Points(inv, Dead(si, ai, ti))
    }

    /** Comes before position (s, a, t) of the nested loops. */
    predicate Before(s: nat, a: nat, t: nat) {
      si < s || (si == s && (ai < a || (ai == a && TokenSlot? && ti < t)))
    }

    predicate Precedes(that: Slot) {
      match that
      case BalanceSlot(s, a) => Before(s, a, 0)
      case TokenSlot(s, a, t) => Before(s, a, t)
    }
  }

  datatype Query =
    | EthBalance(owner: Address)
    | BalanceOf(token: Address, owner: Address)
    | OwnerOf(token: Address, id: int)

  function QueryFor(owners: seq<Address>, inv: Inventory, s: Slot): Query
    requires |owners| == |inv| && s.ValidIn(inv)
  {
    var a := inv[s.si][s.ai];
    match a
    case NativeAsset(_) => EthBalance(owners[s.si])
    case ERC20Asset(token, _) => BalanceOf(token, owners[s.si])
    case ERC721Asset(token, _, ids) => OwnerOf(token, ids[s.ti])
  }

  /** Strictly increasing positions; in particular no position twice. */
  ghost predicate InOrder(mapping: seq<Slot>) {
    forall j, k | 0 <= j < k < |mapping| :: mapping[j].Precedes(mapping[k])
  }

  /** Call k asks what mapping k records. */
  ghost predicate Lockstep(owners: seq<Address>, inv: Inventory, calls: seq<Query>, mapping: seq<Slot>) {
    && |owners| == |inv| && |calls| == |mapping|
    && forall k | 0 <= k < |mapping| :: mapping[k].ValidIn(inv) && calls[k] == QueryFor(owners, inv, mapping[k])
  }

  ghost predicate Covers(inv: Inventory, mapping: seq<Slot>, si: nat, ai: nat, ti: nat) {
    forall s: Slot :: s in mapping <==> s.ValidIn(inv) && s.Before(si, ai, ti)
  }

  ghost predicate Complete(inv: Inventory, mapping: seq<Slot>) {
    forall s: Slot :: s in mapping <==> s.ValidIn(inv)
  }

  lemma PushSlot(owners: seq<Address>, inv: Inventory, calls: seq<Query>, mapping: seq<Slot>, s: Slot, ti: nat)
    requires Lockstep(owners, inv, calls, mapping) && InOrder(mapping) && s.ValidIn(inv)
    requires Covers(inv, mapping, s.si, s.ai, ti) && (if s.TokenSlot? then s.ti == ti else ti == 0)
    ensures Lockstep(owners, inv, calls + [QueryFor(owners, inv, s)], mapping + [s]) && InOrder(mapping + [s])
    ensures s.TokenSlot? ==> Covers(inv, mapping + [s], s.si, s.ai, ti + 1)
    ensures s.BalanceSlot? ==> Covers(inv, mapping + [s], s.si, s.ai + 1, 0)
  {
    forall k | 0 <= k < |mapping| ensures mapping[k].Precedes(s) { assert mapping[k] in mapping; }
  }

  method BuildBatch(owners: seq<Address>, inv: Inventory) returns (calls: seq<Query>, mapping: seq<Slot>)
    requires |owners| == |inv|
    ensures Lockstep(owners, inv, calls, mapping) && InOrder(mapping) && Complete(inv, mapping)
  {
    calls, mapping := [], [];
    for si := 0 to |inv|
      invariant Lockstep(owners, inv, calls, mapping) && InOrder(mapping) && Covers(inv, mapping, si, 0, 0)
    {
      for ai := 0 to |inv[si]|
        invariant Lockstep(owners, inv, calls, mapping) && InOrder(mapping) && Covers(inv, mapping, si, ai, 0)
      {
        match inv[si][ai]
        case NativeAsset(_) =>
          PushSlot(owners, inv, calls, mapping, BalanceSlot(si, ai), 0);
          calls := calls + [EthBalance(owners[si])];
          mapping := mapping + [BalanceSlot(si, ai)];
        case ERC20Asset(token, _) =>
          PushSlot(owners, inv, calls, mapping, BalanceSlot(si, ai), 0);
          calls := calls + [BalanceOf(token, owners[si])];
          mapping := mapping + [BalanceSlot(si, ai)];
        case ERC721Asset(token, _, ids) =>
          for ti := 0 to |ids|
            invariant Lockstep(owners, inv, calls, mapping) && InOrder(mapping) && Covers(inv, mapping, si, ai, ti)
          {
            PushSlot(owners, inv, calls, mapping, TokenSlot(si, ai, ti), ti);
            calls := calls + [OwnerOf(token, ids[ti])];
            mapping := mapping + [TokenSlot(si, ai, ti)];
          }
      }
    }
  }
}
