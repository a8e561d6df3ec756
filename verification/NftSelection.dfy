/** Choosing the shard for an ERC721 transfer (`selectERC721` of coinSelection.ts). */
module NftSelection {
  import opened Seqs
  import opened Protocol
  import opened StoreSpec

  predicate Holds(s: Shard, token: Address, id: int) {
    HasAsset(ERC721, Some(token), Some(id))(s)
  }

  datatype NftChoice = NftChoice(shard: Shard, paymentSplits: seq<seq<int>>, changeSplits: seq<seq<int>>)

  /** The first shard that holds the id pays it as its only split and has no change. */
  method SelectNft(shards: seq<Shard>, token: Option<Address>, id: Option<int>) returns (r: Result<NftChoice, string>)
    ensures r.Err? <==> token.None? || id.None? || forall s | s in shards :: !Holds(s, token.value, id.value)
    ensures r.Ok? ==> exists k | 0 <= k < |shards| ::
      && r.value == NftChoice(shards[k], [[id.value]], [[]]) && Holds(shards[k], token.value, id.value)
      && forall j | 0 <= j < k :: !Holds(shards[j], token.value, id.value)
  {
    if token.None? || id.None? { return Err("tokenAddress and tokenId required"); }
    for k := 0 to |shards|
      invariant forall j | 0 <= j < k :: !Holds(shards[j], token.value, id.value)
    {
      if Holds(shards[k], token.value, id.value) {
        return Ok(NftChoice(shards[k], [[id.value]], [[]]));
      }
    }
    return Err("No shard found");
  }

  /** An NFT can be sent exactly when the wallet lists it, and the shard chosen is one it is listed under. */
  lemma NftIsSelectableExactlyWhenListed(v: View, token: Address, id: int)
    ensures (exists s | s in UnspentFor(v, ERC721, Some(token), Some(id)) :: Holds(s, token, id))
       <==> (exists r | r in NftList(Unspent(v)) :: r.token == token && r.id == id)
    ensures forall s | s in UnspentFor(v, ERC721, Some(token), Some(id)) ::
      Holds(s, token, id) && NftRef(s.address, token, id) in NftList(Unspent(v))
  {
    forall s ensures s in UnspentFor(v, ERC721, Some(token), Some(id)) <==> s in Unspent(v) && Holds(s, token, id) {
      FilterElements(Unspent(v), HasAsset(ERC721, Some(token), Some(id)), s);
    }
    forall r | r in NftList(Unspent(v)) && r.token == token && r.id == id
      ensures exists s | s in Unspent(v) :: s.address == r.shard && Holds(s, token, id)
    {
      NftListElements(Unspent(v), r);
    }
    forall s | s in Unspent(v) && Holds(s, token, id) ensures NftRef(s.address, token, id) in NftList(Unspent(v)) {
      NftListElements(Unspent(v), NftRef(s.address, token, id));
    }
  }
}
