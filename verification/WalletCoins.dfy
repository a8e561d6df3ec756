/** The wallet's lists and balances by coin, and against the ledger once they are verified. */
module WalletCoins {
  import opened Seqs
  import opened Protocol
  import opened Ledger
  import opened StoreSpec
  import opened WalletTransfer
  import opened BalanceVerification
  import opened Multicall
  import opened SyncSpec
  import opened ChainTruth

  // Fungible assets

  predicate IsCoin(a: Asset, coin: Coin) {
    match a
    case NativeAsset(_) => coin == Ether
    case ERC20Asset(token, _) => coin == Token(token)
    case ERC721Asset(_, _, _) => false
  }

  function InCoin(coin: Coin): Asset -> int {
    (a: Asset) => if IsCoin(a, coin) then a.balance else 0
  }

  predicate HoldsCoin(s: Shard, coin: Coin) {
    exists k | 0 <= k < |s.assets| :: IsCoin(s.assets[k], coin)
  }

  /** What an unspent shard records of the coin. */
  function Recorded(coin: Coin): Shard -> int {
    (s: Shard) => if s.spent || s.pending then 0 else SumBy(s.assets, InCoin(coin))
  }

  lemma {:induction false} CountedByCoin(assets: seq<Asset>, kind: AssetKind, token: Address)
    requires kind != ERC721
    ensures SumBy(assets, Counted(kind, TokenOf(kind, token))) == SumBy(assets, InCoin(CoinOf(kind, token)))
  {
    if assets != [] { CountedByCoin(assets[1..], kind, token); }
  }

  /** The displayed balance of ether or of a token is what the unspent shards record of that coin and of no other. */
  lemma DisplayedIsTheCoin(v: View, kind: AssetKind, token: Address)
    requires kind != ERC721
    ensures Displayed(v, kind, TokenOf(kind, token)) == SumBy(v, Recorded(CoinOf(kind, token)))
  {
    hide SumBy, Displayed;
    var t, coin := TokenOf(kind, token), CoinOf(kind, token);
    DisplayedAsSum(v, kind, t);
    forall s | s in v ensures Live(kind, t)(s) == Recorded(coin)(s) {
      CountedByCoin(s.assets, kind, token);
      assert ShardBalance(kind, t)(s) == SumBy(s.assets, Counted(kind, t));
    }
    SumBySame(v, Live(kind, t), Recorded(coin));
  }

  /** The shards offered for a coin are the unspent ones that record it. */
  lemma OfferedForTheCoin(v: View, kind: AssetKind, token: Address, s: Shard)
    requires kind != ERC721
    ensures s in UnspentFor(v, kind, TokenOf(kind, token), None)
       <==> s in v && !s.spent && !s.pending && HoldsCoin(s, CoinOf(kind, token))
  {
    var t := TokenOf(kind, token);
    FilterElements(Unspent(v), HasAsset(kind, t, None), s);
    FilterElements(v, IsUnspent, s);
    forall k | 0 <= k < |s.assets| ensures StoreSpec.Answers(s.assets[k], kind, t, None) <==> IsCoin(s.assets[k], CoinOf(kind, token)) {}
  }

  // Against the ledger

  ghost predicate AtMostOnce(assets: seq<Asset>, coin: Coin) {
    forall j, k | 0 <= j < k < |assets| :: !(IsCoin(assets[j], coin) && IsCoin(assets[k], coin))
  }

  /** What the ledger says a shard holds of a coin it records. */
  function Truly(l: Books, coin: Coin): Shard -> int {
    (s: Shard) => if HoldsCoin(s, coin) then Funds(l, coin, s.address) else 0
  }

  ghost predicate AllTrue(l: Books, owner: Address, before: seq<Asset>, after: seq<Asset>) {
    |after| == |before| && forall k | 0 <= k < |before| :: IsTrue(l, owner, before[k], after[k])
  }

  lemma {:induction false} NoCoin(l: Books, owner: Address, before: seq<Asset>, after: seq<Asset>, coin: Coin)
    requires AllTrue(l, owner, before, after) && forall k | 0 <= k < |before| :: !IsCoin(before[k], coin)
    ensures SumBy(after, InCoin(coin)) == 0
  {
    if before != [] {
      assert IsTrue(l, owner, before[0], after[0]);
      NoCoin(l, owner, before[1..], after[1..], coin);
    }
  }

  lemma {:induction false} OneCoin(l: Books, owner: Address, before: seq<Asset>, after: seq<Asset>, coin: Coin)
    requires AllTrue(l, owner, before, after) && AtMostOnce(before, coin)
    ensures SumBy(after, InCoin(coin))
         == if exists k | 0 <= k < |before| :: IsCoin(before[k], coin) then Funds(l, coin, owner) else 0
  {
    if before != [] {
      assert IsTrue(l, owner, before[0], after[0]);
      forall k | 0 < k < |before| ensures before[1..][k - 1] == before[k] && after[1..][k - 1] == after[k] {}
      assert AllTrue(l, owner, before[1..], after[1..]);
      if IsCoin(before[0], coin) {
        NoCoin(l, owner, before[1..], after[1..], coin);
      } else {
        OneCoin(l, owner, before[1..], after[1..], coin);
        assert (exists k | 0 <= k < |before| :: IsCoin(before[k], coin))
          <==> exists k | 0 <= k < |before| - 1 :: IsCoin(before[1..][k], coin);
      }
    }
  }

  lemma {:induction false} RecordedOfUnspent(v: View, coin: Coin)
    ensures SumBy(v, Recorded(coin)) == SumBy(Unspent(v), Recorded(coin))
  {
    if v != [] {
      RecordedOfUnspent(v[1..], coin);
      if IsUnspent(v[0]) {
        assert Unspent(v)[1..] == Unspent(v[1..]);
      } else {
        assert Unspent(v) == Unspent(v[1..]);
      }
    }
  }

  lemma {:induction false} SumByColumns(a: View, b: View, f: Shard -> int, g: Shard -> int)
    requires |a| == |b| && forall k | 0 <= k < |a| :: f(a[k]) == g(b[k])
    ensures SumBy(a, f) == SumBy(b, g)
  {
    if a != [] { SumByColumns(a[1..], b[1..], f, g); }
  }

  /**
   After a verification in which every chunk arrives and the chain answers honestly, the displayed balance of a coin is what the
   unspent shards that record it hold on the ledger, provided no shard records it twice.
  */
  lemma VerifiedDisplayIsTrue(v: View, l: Books, answers: Answers, heard: set<Slot>, kind: AssetKind, token: Address)
    requires kind != ERC721
    requires var inv := Assets(Unspent(v)); Honest(l, Addresses(Unspent(v)), inv, answers) && AllHeard(inv, heard)
    requires forall s | s in v && IsUnspent(s) :: AtMostOnce(s.assets, CoinOf(kind, token))
    ensures Displayed(Reconciled(v, answers, heard), kind, TokenOf(kind, token)) == SumBy(Unspent(v), Truly(l, CoinOf(kind, token)))
  {
    hide SumBy, Displayed, Reconciled, Honest, AllHeard, AtMostOnce, IsTrue;
    var coin, w := CoinOf(kind, token), Reconciled(v, answers, heard);
    DisplayedIsTheCoin(w, kind, token);
    RecordedOfUnspent(w, coin);
    VerifiedStoreIsTrue(v, l, answers, heard);
    var before, after := Unspent(v), Unspent(w);
    forall k | 0 <= k < |before| ensures Recorded(coin)(after[k]) == Truly(l, coin)(before[k]) {
      FilterElements(v, IsUnspent, before[k]);
      OneCoin(l, before[k].address, before[k].assets, after[k].assets, coin);
    }
    SumByColumns(after, before, Recorded(coin), Truly(l, coin));
  }

  // Token ids

  /** One for each entry of the token, or of any token. */
  function OfToken(token: Option<Address>): NftRef -> int {
    (r: NftRef) => if token.None? || token == Some(r.token) then 1 else 0
  }

  lemma {:induction false} IdsOfAsset(shard: Address, token: Option<Address>, a: Asset)
    ensures SumBy(TokensOf(shard, a), OfToken(token)) == Counted(ERC721, token)(a)
    decreases if a.ERC721Asset? then |a.tokenIds| else 0
  {
    if a.ERC721Asset? && a.tokenIds != [] {
      var rest := a.(tokenIds := a.tokenIds[1..]);
      IdsOfAsset(shard, token, rest);
      assert TokensOf(shard, a)[1..] == TokensOf(shard, rest);
    }
  }

  lemma {:induction false} IdsOfShard(s: Shard, assets: seq<Asset>, token: Option<Address>)
    ensures SumBy(NftsOf(s, assets), OfToken(token)) == SumBy(assets, Counted(ERC721, token))
  {
    if assets != [] {
      IdsOfAsset(s.address, token, assets[0]);
      IdsOfShard(s, assets[1..], token);
      SumByAppend(TokensOf(s.address, assets[0]), NftsOf(s, assets[1..]), OfToken(token));
    }
  }

  lemma {:induction false} NothingCounted(assets: seq<Asset>, token: Address)
    requires forall k | 0 <= k < |assets| :: !StoreSpec.Answers(assets[k], ERC721, Some(token), None)
    ensures SumBy(assets, Counted(ERC721, Some(token))) == 0
  {
    if assets != [] {
      assert !StoreSpec.Answers(assets[0], ERC721, Some(token), None);
      forall k | 0 <= k < |assets| - 1 ensures !StoreSpec.Answers(assets[1..][k], ERC721, Some(token), None) { assert assets[k + 1] == assets[1..][k]; }
      NothingCounted(assets[1..], token);
    }
  }

  lemma {:induction false} IdsOfShards(shards: View, token: Address)
    ensures SumBy(Filter(shards, HasAsset(ERC721, Some(token), None)), ShardBalance(ERC721, Some(token)))
         == SumBy(NftList(shards), OfToken(Some(token)))
  {
    if shards != [] {
      var s, p := shards[0], HasAsset(ERC721, Some(token), None);
      IdsOfShards(shards[1..], token);
      IdsOfShard(s, s.assets, Some(token));
      SumByAppend(NftsOf(s, s.assets), NftList(shards[1..]), OfToken(Some(token)));
      assert ShardBalance(ERC721, Some(token))(s) == SumBy(s.assets, Counted(ERC721, Some(token)));
      if p(s) {
        assert Filter(shards, p)[1..] == Filter(shards[1..], p);
      } else {
        assert Filter(shards, p) == Filter(shards[1..], p);
        NothingCounted(s.assets, token);
      }
    }
  }

  /** The displayed number of NFTs of a token is the number of its entries in the list of NFTs. */
  lemma DisplayedNftsAreListed(v: View, token: Address)
    ensures Displayed(v, ERC721, Some(token)) == SumBy(NftList(Unspent(v)), OfToken(Some(token)))
  {
    IdsOfShards(Unspent(v), token);
  }

  /** Asked for a token type without a token, the wallet shows nothing. */
  lemma WithoutTokenNothingIsShown(v: View, kind: AssetKind)
    requires kind != Native
    ensures Displayed(v, kind, None) == 0
  {
    var shards := UnspentFor(v, kind, None, None);
    if shards != [] {
      FilterElements(Unspent(v), HasAsset(kind, None, None), shards[0]);
    }
  }
}
