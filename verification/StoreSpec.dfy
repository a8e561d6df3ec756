/** What each operation of the shard store does to the list of stored shards (shard.ts). */
module StoreSpec {
  import opened Seqs
  import opened Protocol

  type View = seq<Shard>

  function Filter(v: View, p: Shard -> bool): View {
    if v == [] then [] else (if p(v[0]) then [v[0]] else []) + Filter(v[1..], p)
  }

  predicate Has(v: View, a: Address) {
    exists i | 0 <= i < |v| :: v[i].address == a
  }

  /** Shards of the list have pairwise different addresses. */
  ghost predicate UniqueAddresses(v: View) {
    forall i, j | 0 <= i < j < |v| :: v[i].address != v[j].address
  }

  function Added(v: View, s: Shard): View {
    if Has(v, s.address) then v else v + [s.(pending := false)]
  }

  function AddedMany(v: View, ss: seq<Shard>): View
    decreases |ss|
  {
    if ss == [] then v else AddedMany(Added(v, ss[0]), ss[1..])
  }

  /** Adding a list from position i on is adding one shard and then the rest. */
  lemma AddedManyStep(v: View, ss: seq<Shard>, i: nat)
    requires i < |ss|
    ensures AddedMany(v, ss[i..]) == AddedMany(Added(v, ss[i]), ss[i + 1..])
    ensures Has(v, ss[i].address) ==> Added(v, ss[i]) == v
  {
    assert ss[i..][0] == ss[i] && ss[i..][1..] == ss[i + 1..];
  }

  predicate IsUnspent(s: Shard) { !s.spent && !s.pending }

  function Unspent(v: View): View { Filter(v, IsUnspent) }

  function NotAmong(addresses: seq<Address>): Shard -> bool {
    (s: Shard) => s.address !in addresses
  }

  function Removed(v: View, addresses: seq<Address>): View {
    Filter(v, NotAmong(addresses))
  }

  /** The flag of every shard listed is set; the others are untouched. */
  function WithPending(v: View, addresses: seq<Address>, flag: bool): (r: View)
    ensures |r| == |v|
  {
    seq(|v|, i requires 0 <= i < |v| => if v[i].address in addresses then v[i].(pending := flag) else v[i])
  }

  function Failed(v: View, addresses: seq<Address>, change: Option<Address>): View {
    var reverted := WithPending(v, addresses, false);
    match change
    case None => reverted
    case Some(a) => Removed(reverted, [a])
  }

  // Queries

  predicate SameToken(a: Asset, token: Option<Address>) {
    match a
    case NativeAsset(_) => true
    case ERC20Asset(t, _) => token == Some(t)
    case ERC721Asset(t, _, _) => token == Some(t)
  }

  /** `getUnspentForAsset`: the asset has the type, the token and, for one NFT, the id. */
  predicate Answers(a: Asset, kind: AssetKind, token: Option<Address>, id: Option<int>) {
    a.Kind() == kind && SameToken(a, token) && (a.ERC721Asset? && id.Some? ==> id.value in a.tokenIds)
  }

  function HasAsset(kind: AssetKind, token: Option<Address>, id: Option<int>): Shard -> bool {
    (s: Shard) => exists k | 0 <= k < |s.assets| :: Answers(s.assets[k], kind, token, id)
  }

  function UnspentFor(v: View, kind: AssetKind, token: Option<Address>, id: Option<int>): View {
    Filter(Unspent(v), HasAsset(kind, token, id))
  }

  /** What one asset contributes to the displayed balance. Without a token every asset of the type counts. */
  function Counted(kind: AssetKind, token: Option<Address>): Asset -> int {
    (a: Asset) =>
      if a.Kind() == kind && (token.None? || SameToken(a, token))
      then if a.ERC721Asset? then |a.tokenIds| else a.balance
      else 0
  }

  function ShardBalance(kind: AssetKind, token: Option<Address>): Shard -> int {
    (s: Shard) => SumBy(s.assets, Counted(kind, token))
  }

  /** `getBalanceForAsset`. */
  function Displayed(v: View, kind: AssetKind, token: Option<Address>): int {
    SumBy(UnspentFor(v, kind, token, None), ShardBalance(kind, token))
  }

  datatype NftRef = NftRef(shard: Address, token: Address, id: int)

  /** The entries of one asset. */
  function TokensOf(shard: Address, a: Asset): seq<NftRef> {
    if a.ERC721Asset?
    then seq(|a.tokenIds|, k requires 0 <= k < |a.tokenIds| => NftRef(shard, a.token, a.tokenIds[k]))
    else []
  }

  function NftsOf(s: Shard, assets: seq<Asset>): seq<NftRef> {
    if assets == [] then [] else TokensOf(s.address, assets[0]) + NftsOf(s, assets[1..])
  }

  function NftList(v: View): seq<NftRef> {
    if v == [] then [] else NftsOf(v[0], v[0].assets) + NftList(v[1..])
  }

  // Elements of filtered lists

  lemma {:induction false} FilterElements(v: View, p: Shard -> bool, s: Shard)
    ensures s in Filter(v, p) <==> s in v && p(s)
  {
    if v != [] {
      FilterElements(v[1..], p, s);
      assert s in v <==> s == v[0] || s in v[1..];
    }
  }

  lemma {:induction false} FilterKeepsUnique(v: View, p: Shard -> bool)
    requires UniqueAddresses(v)
    ensures UniqueAddresses(Filter(v, p))
  {
    if v != [] {
      FilterKeepsUnique(v[1..], p);
      var rest := Filter(v[1..], p);
      forall k | 0 <= k < |rest| ensures rest[k].address != v[0].address {
        FilterElements(v[1..], p, rest[k]);
        var j :| 0 <= j < |v| - 1 && v[1..][j] == rest[k];
        assert v[j + 1] == rest[k];
      }
    }
  }

  lemma {:induction false} FilterAppend(a: View, b: View, p: Shard -> bool)
    ensures Filter(a + b, p) == Filter(a, p) + Filter(b, p)
  {
    if a == [] {
      assert a + b == b;
    } else {
      assert (a + b)[1..] == a[1..] + b;
      FilterAppend(a[1..], b, p);
      var head := if p(a[0]) then [a[0]] else [];
      ConcatAssociates(head, Filter(a[1..], p), Filter(b, p));
    }
  }

  lemma {:induction false} FilterKeepsAll(v: View, p: Shard -> bool)
    requires forall s | s in v :: p(s)
    ensures Filter(v, p) == v
  {
    if v != [] {
      assert v[0] in v;
      forall s | s in v[1..] ensures s in v {}
      FilterKeepsAll(v[1..], p);
    }
  }

  // Lists of NFTs, built from the front and read from the back

  lemma {:induction false} NftsOfAppend(s: Shard, a: seq<Asset>, b: seq<Asset>)
    ensures NftsOf(s, a + b) == NftsOf(s, a) + NftsOf(s, b)
  {
    if a == [] {
      assert a + b == b;
    } else {
      assert (a + b)[1..] == a[1..] + b;
      NftsOfAppend(s, a[1..], b);
      ConcatAssociates(TokensOf(s.address, a[0]), NftsOf(s, a[1..]), NftsOf(s, b));
    }
  }

  lemma NftsOfStep(s: Shard, assets: seq<Asset>, k: nat)
    requires k < |assets|
    ensures NftsOf(s, assets[..k + 1]) == NftsOf(s, assets[..k]) + TokensOf(s.address, assets[k])
  {
    assert assets[..k + 1] == assets[..k] + [assets[k]];
    NftsOfAppend(s, assets[..k], [assets[k]]);
    assert [assets[k]][1..] == [];
  }

  lemma {:induction false} NftListAppend(a: View, b: View)
    ensures NftList(a + b) == NftList(a) + NftList(b)
  {
    if a == [] {
      assert a + b == b;
    } else {
      assert (a + b)[1..] == a[1..] + b;
      NftListAppend(a[1..], b);
      ConcatAssociates(NftsOf(a[0], a[0].assets), NftList(a[1..]), NftList(b));
    }
  }

  lemma NftListStep(v: View, i: nat)
    requires i < |v|
    ensures NftList(v[..i + 1]) == NftList(v[..i]) + NftsOf(v[i], v[i].assets)
  {
    assert v[..i + 1] == v[..i] + [v[i]];
    NftListAppend(v[..i], [v[i]]);
    assert [v[i]][1..] == [];
  }

  lemma {:induction false} NftsOfElements(s: Shard, assets: seq<Asset>, r: NftRef)
    ensures r in NftsOf(s, assets) <==>
      r.shard == s.address && exists k | 0 <= k < |assets| :: Answers(assets[k], ERC721, Some(r.token), Some(r.id))
  {
    if assets != [] {
      NftsOfElements(s, assets[1..], r);
      var a := assets[0];
      if Answers(a, ERC721, Some(r.token), Some(r.id)) && r.shard == s.address {
        var k :| 0 <= k < |a.tokenIds| && a.tokenIds[k] == r.id;
        assert NftsOf(s, assets)[k] == r;
      }
      if r in NftsOf(s, assets[1..]) {
        var k :| 0 <= k < |assets| - 1 && Answers(assets[1..][k], ERC721, Some(r.token), Some(r.id));
        assert assets[k + 1] == assets[1..][k];
      }
      if k :| 0 < k < |assets| && Answers(assets[k], ERC721, Some(r.token), Some(r.id)) {
        assert assets[1..][k - 1] == assets[k];
      }
    }
  }

  /** The shard holds the NFT of the entry. */
  predicate Lists(s: Shard, r: NftRef) {
    s.address == r.shard && HasAsset(ERC721, Some(r.token), Some(r.id))(s)
  }

  lemma ListedIn(s: Shard, r: NftRef)
    ensures r in NftsOf(s, s.assets) <==> Lists(s, r)
  {
    NftsOfElements(s, s.assets, r);
  }

  lemma {:induction false} NftListElements(v: View, r: NftRef)
    ensures r in NftList(v) <==> exists s | s in v :: Lists(s, r)
  {
    hide NftsOf, Lists;
    if v != [] {
      NftListElements(v[1..], r);
      ListedIn(v[0], r);
      assert forall s | s in v :: s == v[0] || s in v[1..];
    }
  }

  lemma NftListOfUnspent(v: View)
    ensures forall r :: r in NftList(Unspent(v)) <==> exists s | s in v :: IsUnspent(s) && Lists(s, r)
  {
    hide Lists;
    forall r ensures r in NftList(Unspent(v)) <==> exists s | s in v :: IsUnspent(s) && Lists(s, r) {
      NftListElements(Unspent(v), r);
      forall s ensures s in Unspent(v) <==> s in v && IsUnspent(s) { FilterElements(v, IsUnspent, s); }
    }
  }
}
