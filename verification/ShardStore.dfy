/** The shard store: live shard objects, changed in place and handed out by reference (shard.ts). */
module ShardStore {
  import opened Seqs
  import opened Protocol
  import opened StoreSpec

  class LiveShard {
    const address: Address
    const spent: bool
    var pending: bool
    var assets: seq<Asset>

    function Value(): Shard
      reads this
    {
      Shard(address, spent, pending, assets)
    }

    constructor (s: Shard)
      ensures Value() == s
    {
      address, spent, pending, assets := s.address, s.spent, s.pending, s.assets;
    }
  }

  function Values(refs: seq<LiveShard>): (v: View)
    reads refs
    ensures |v| == |refs|
  {
    seq(|refs|, i requires 0 <= i < |refs| reads refs => refs[i].Value())
  }

  /** The references whose shards satisfy p, in order: what `filter` hands out. */
  function FilterRefs(refs: seq<LiveShard>, p: Shard -> bool): (r: seq<LiveShard>)
    reads refs
    ensures forall x | x in r :: x in refs
  {
    if refs == [] then []
    else (if p(refs[0].Value()) then [refs[0]] else []) + FilterRefs(refs[1..], p)
  }

  lemma {:induction false} FilterRefsView(refs: seq<LiveShard>, p: Shard -> bool)
    requires Distinct(refs)
    ensures Values(FilterRefs(refs, p)) == Filter(Values(refs), p)
    ensures Distinct(FilterRefs(refs, p))
  {
    if refs != [] {
      assert Values(refs)[1..] == Values(refs[1..]);
      FilterRefsView(refs[1..], p);
      assert refs[0] !in refs[1..];
      var tail := FilterRefs(refs[1..], p);
      assert Values([refs[0]] + tail) == [refs[0].Value()] + Values(tail);
    }
  }

  /** The inner reduction of `getBalanceForAsset`, over the assets of one shard. */
  method CountAssets(assets: seq<Asset>, kind: AssetKind, token: Option<Address>) returns (subSum: int)
    ensures subSum == SumBy(assets, Counted(kind, token))
  {
    subSum := 0;
    for k := 0 to |assets|
      invariant subSum == SumBy(assets[..k], Counted(kind, token))
    {
      SumByStep(assets, k, Counted(kind, token));
      var a := assets[k];
      if a.Kind() == kind && (a.NativeAsset? || token.None? || SameToken(a, token)) {
        subSum := subSum + if a.ERC721Asset? then |a.tokenIds| else a.balance;
      }
    }
    assert assets[..|assets|] == assets;
  }

  /** The inner loops of `getNFTs`, over the assets of one shard and their ids. */
  method ListAssets(s: Shard) returns (r: seq<NftRef>)
    ensures r == NftsOf(s, s.assets)
  {
    r := [];
    for k := 0 to |s.assets|
      invariant r == NftsOf(s, s.assets[..k])
    {
      NftsOfStep(s, s.assets, k);
      var a := s.assets[k];
      if a.ERC721Asset? {
        ghost var before := r;
        for t := 0 to |a.tokenIds|
          invariant r == before + TokensOf(s.address, a)[..t]
        {
          r := r + [NftRef(s.address, a.token, a.tokenIds[t])];
        }
      }
    }
    assert s.assets[..|s.assets|] == s.assets;
  }

  datatype PersistedState = PersistedState(shards: seq<Shard>, lastSyncedBlock: Option<int>)

  class Store {
    var shards: seq<LiveShard>
    var lastSyncedBlock: Option<int>

    ghost predicate Valid()
      reads this
    {
      Distinct(shards)
    }

    function View(): View
      reads this, shards
    {
      Values(shards)
    }

    constructor ()
      ensures Valid() && View() == [] && lastSyncedBlock == None
    {
      shards, lastSyncedBlock := [], None;
    }

    method SetLastSyncedBlock(block: int)
      modifies this`lastSyncedBlock
      ensures lastSyncedBlock == Some(block)
    {
      lastSyncedBlock := Some(block);
    }

    /** `add`: a clone, never pending, unless the address is already there. */
    method Add(shard: Shard)
      requires Valid()
      modifies this`shards
      ensures Valid() && View() == Added(old(View()), shard)
      ensures old(shards) <= shards && forall x | x in shards && x !in old(shards) :: fresh(x)
    {
      for i := 0 to |shards|
        invariant forall j | 0 <= j < i :: View()[j].address != shard.address
      {
        if shards[i].address == shard.address {
          assert View()[i].address == shard.address;
          return;
        }
      }
      var cloned := new LiveShard(shard.(pending := false));
      shards := shards + [cloned];
    }

    method AddMany(ss: seq<Shard>)
      requires Valid()
      modifies this`shards
      ensures Valid() && View() == AddedMany(old(View()), ss)
      ensures forall x | x in shards && x !in old(shards) :: fresh(x)
    {
      for i := 0 to |ss|
        invariant Valid() && AddedMany(View(), ss[i..]) == AddedMany(old(View()), ss)
        invariant forall x | x in shards && x !in old(shards) :: fresh(x)
      {
        assert ss[i..][1..] == ss[i + 1..];
        Add(ss[i]);
      }
    }

    /** `getUnspent`: live references, not copies. */
    method GetUnspent() returns (r: seq<LiveShard>)
      requires Valid()
      ensures r == FilterRefs(shards, IsUnspent) && Values(r) == Unspent(View())
      ensures Distinct(r) && forall x | x in r :: x in shards
    {
      FilterRefsView(shards, IsUnspent);
      r := FilterRefs(shards, IsUnspent);
    }

    method GetUnspentForAsset(kind: AssetKind, token: Option<Address>, id: Option<int>) returns (r: seq<LiveShard>)
      requires Valid()
      ensures Values(r) == UnspentFor(View(), kind, token, id)
      ensures Distinct(r) && forall x | x in r :: x in shards
    {
      var unspent := GetUnspent();
      FilterRefsView(unspent, HasAsset(kind, token, id));
      r := FilterRefs(unspent, HasAsset(kind, token, id));
    }

    /** `getBalanceForAsset`: the outer reduction, over the matching shards. */
    method GetBalanceForAsset(kind: AssetKind, token: Option<Address>) returns (total: int)
      requires Valid()
      ensures total == Displayed(View(), kind, token)
    {
      var matching := GetUnspentForAsset(kind, token, None);
      ghost var v, f := Values(matching), ShardBalance(kind, token);
      total := 0;
      for i := 0 to |matching|
        invariant v == Values(matching) && total == SumBy(v[..i], f)
      {
        assert v[i] == matching[i].Value();
        var subSum := CountAssets(matching[i].assets, kind, token);
        SumByStep(v, i, f);
        total := total + subSum;
      }
      assert v[..|matching|] == v;
    }

    /** `getNFTs`: one entry for every token id of every ERC721 asset of every unspent shard, and no other. */
    method GetNfts() returns (r: seq<NftRef>)
      requires Valid()
      ensures r == NftList(Unspent(View()))
      ensures forall n :: n in r <==> exists s | s in View() :: IsUnspent(s) && Lists(s, n)
    {
      var unspent := GetUnspent();
      ghost var v := Values(unspent);
      r := [];
      for i := 0 to |unspent|
        invariant v == Values(unspent) && r == NftList(v[..i])
      {
        assert v[i] == unspent[i].Value();
        var entries := ListAssets(unspent[i].Value());
        NftListStep(v, i);
        r := r + entries;
      }
      assert v[..|unspent|] == v;
      NftListOfUnspent(View());
    }

    method Get(a: Address) returns (r: Option<Shard>)
      ensures r.None? <==> !Has(View(), a)
      ensures r.Some? ==> r.value in View() && r.value.address == a
    {
      for i := 0 to |shards|
        invariant forall j | 0 <= j < i :: View()[j].address != a
      {
        if shards[i].address == a {
          assert View()[i] == shards[i].Value();
          return Some(shards[i].Value());
        }
      }
      return None;
    }

    method ExportState() returns (state: PersistedState)
      ensures state == PersistedState(View(), lastSyncedBlock)
    {
      state := PersistedState(Values(shards), lastSyncedBlock);
    }

    /** `importState`: all references are new, so those handed out before no longer reach the store. */
    method ImportState(state: PersistedState)
      modifies this
      ensures Valid() && View() == state.shards && lastSyncedBlock == state.lastSyncedBlock
      ensures forall x | x in shards :: fresh(x)
    {
      var copies: seq<LiveShard> := [];
      for i := 0 to |state.shards|
        invariant Distinct(copies) && Values(copies) == state.shards[..i]
        invariant forall x | x in copies :: fresh(x)
      {
        var copy := new LiveShard(state.shards[i]);
        copies := copies + [copy];
      }
      shards, lastSyncedBlock := copies, state.lastSyncedBlock;
    }

    /** The loop of `markPending` and `confirmFailed`: flags change on the live objects. */
    method SetPending(addresses: seq<Address>, flag: bool)
      requires Valid()
      modifies set i | 0 <= i < |shards| :: shards[i]`pending
      ensures View() == WithPending(old(View()), addresses, flag)
    {
      for i := 0 to |shards|
        invariant forall j | i <= j < |shards| :: shards[j].pending == old(shards[j].pending)
        invariant forall j | 0 <= j < i ::
          shards[j].pending == if shards[j].address in addresses then flag else old(shards[j].pending)
      {
        if shards[i].address in addresses {
          shards[i].pending := flag;
        }
      }
    }

    /** `removeMany`. */
    method RemoveMany(addresses: seq<Address>)
      requires Valid()
      modifies this`shards
      ensures Valid() && View() == Removed(old(View()), addresses)
      ensures forall x | x in shards :: x in old(shards)
    {
      FilterRefsView(shards, NotAmong(addresses));
      shards := FilterRefs(shards, NotAmong(addresses));
    }

    method ConfirmFailed(addresses: seq<Address>, change: Option<Address>)
      requires Valid()
      modifies this`shards, set i | 0 <= i < |shards| :: shards[i]`pending
      ensures Valid() && View() == Failed(old(View()), addresses, change)
    {
      SetPending(addresses, false);
      if change.Some? {
        RemoveMany([change.value]);
      }
    }
  }
}
