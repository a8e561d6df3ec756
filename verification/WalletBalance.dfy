/** The displayed balance against what can be selected, and across a prepared transfer. */
module WalletBalance {
  import opened Seqs
  import opened Protocol
  import opened Randomness
  import opened CoinSelection
  import opened SelectionProperties
  import EndToEnd
  import opened StoreSpec
  import opened StoreProperties

  // Pools

  predicate Matches(a: Asset, kind: AssetKind, token: Option<Address>) {
    a.Kind() == kind && SameToken(a, token)
  }

  /** The balance of the first matching asset, 0 without one. */
  function FirstMatch(assets: seq<Asset>, kind: AssetKind, token: Option<Address>): int {
    if assets == [] then 0
    else if Matches(assets[0], kind, token) then assets[0].balance
    else FirstMatch(assets[1..], kind, token)
  }

  /** `withBalance`: the shards whose first matching asset holds something. */
  function Pool(shards: seq<Shard>, kind: AssetKind, token: Option<Address>): (pool: seq<PoolItem>)
    ensures forall x | x in pool :: x.balance > 0 && x.shard in shards && x.balance == FirstMatch(x.shard.assets, kind, token)
  {
    if shards == [] then []
    else
      var balance := FirstMatch(shards[0].assets, kind, token);
      (if balance > 0 then [PoolItem(shards[0], balance)] else []) + Pool(shards[1..], kind, token)
  }

  /** `selectNative` and `selectERC20` on a list of shards. */
  function Select(shards: seq<Shard>, kind: AssetKind, token: Option<Address>, amount: int, maxSplits: int, dust: int, d: EngineDraws)
    : Result<Selection, string>
  {
    Engine(Shuffle(Pool(shards, kind, token), d.swap), amount, maxSplits, dust, d)
  }

  method SelectFungible(shards: seq<Shard>, kind: AssetKind, token: Option<Address>, amount: int, maxSplits: int, dust: int, d: EngineDraws)
    returns (r: Result<Selection, string>)
    ensures r == Select(shards, kind, token, amount, maxSplits, dust, d)
  {
    var pool := Pool(shards, kind, token);
    var withBalance := new PoolItem[|pool|](k requires 0 <= k < |pool| => pool[k]);
    assert withBalance[..] == pool;
    r := RunSelectionEngine(withBalance, amount, maxSplits, dust, d);
  }

  // Displayed against spendable

  /** What a shard displays beyond its first matching asset. */
  function Hidden(kind: AssetKind, token: Option<Address>): Shard -> int {
    (s: Shard) =>
      var first := FirstMatch(s.assets, kind, token);
      ShardBalance(kind, token)(s) - if first > 0 then first else 0
  }

  function Spendable(v: View, kind: AssetKind, token: Option<Address>): int {
    SumBy(Pool(UnspentFor(v, kind, token, None), kind, token), ItemBalance)
  }

  lemma {:induction false} PoolSum(shards: seq<Shard>, kind: AssetKind, token: Option<Address>)
    ensures SumBy(Pool(shards, kind, token), ItemBalance) + SumBy(shards, Hidden(kind, token))
         == SumBy(shards, ShardBalance(kind, token))
  {
    if shards != [] {
      PoolSum(shards[1..], kind, token);
      var balance := FirstMatch(shards[0].assets, kind, token);
      var rest := Pool(shards[1..], kind, token);
      if balance > 0 {
        assert Pool(shards, kind, token)[1..] == rest;
      } else {
        assert Pool(shards, kind, token) == rest;
      }
    }
  }

  /** Balances of every asset are non-negative, as chain balances and announced amounts are. */
  ghost predicate NonNegative(v: View) {
    forall s, a | s in v && a in s.assets :: a.balance >= 0
  }

  /** No asset after the first match adds anything: what a caller can check on a store. */
  ghost predicate OnlyFirstCounts(assets: seq<Asset>, kind: AssetKind, token: Option<Address>) {
    forall j, k | 0 <= j < k < |assets| && Matches(assets[j], kind, token) && Matches(assets[k], kind, token) ::
      assets[k].balance == 0
  }

  lemma {:induction false} CountedIsNonNegative(assets: seq<Asset>, kind: AssetKind, token: Option<Address>)
    requires kind != ERC721 && (kind == ERC20 ==> token.Some?)
    requires forall a | a in assets :: a.balance >= 0
    ensures SumBy(assets, Counted(kind, token)) >= 0
    ensures SumBy(assets, Counted(kind, token)) == 0 <==> forall a | a in assets && Matches(a, kind, token) :: a.balance == 0
  {
    if assets != [] {
      assert assets[0] in assets;
      assert forall a | a in assets :: a == assets[0] || a in assets[1..];
      CountedIsNonNegative(assets[1..], kind, token);
      assert Counted(kind, token)(assets[0]) == if Matches(assets[0], kind, token) then assets[0].balance else 0;
    }
  }

  /** After a first match, only zero balances may follow. */
  lemma OnlyFirstAfterMatch(assets: seq<Asset>, kind: AssetKind, token: Option<Address>)
    requires assets != [] && Matches(assets[0], kind, token)
    ensures OnlyFirstCounts(assets, kind, token) <==> forall a | a in assets[1..] && Matches(a, kind, token) :: a.balance == 0
  {
    var rest := assets[1..];
    if OnlyFirstCounts(assets, kind, token) {
      forall a | a in rest && Matches(a, kind, token) ensures a.balance == 0 {
        var k :| 0 <= k < |rest| && rest[k] == a;
        assert assets[k + 1] == a;
      }
    }
    if forall a | a in rest && Matches(a, kind, token) :: a.balance == 0 {
      forall j, k | 0 <= j < k < |assets| && Matches(assets[j], kind, token) && Matches(assets[k], kind, token)
        ensures assets[k].balance == 0
      {
        assert rest[k - 1] == assets[k];
      }
    }
  }

  lemma OnlyFirstWithoutMatch(assets: seq<Asset>, kind: AssetKind, token: Option<Address>)
    requires assets != [] && !Matches(assets[0], kind, token)
    ensures OnlyFirstCounts(assets, kind, token) <==> OnlyFirstCounts(assets[1..], kind, token)
  {
    var rest := assets[1..];
    forall k | 0 < k < |assets| ensures rest[k - 1] == assets[k] {}
    if OnlyFirstCounts(assets, kind, token) {
      forall j, k | 0 <= j < k < |rest| && Matches(rest[j], kind, token) && Matches(rest[k], kind, token)
        ensures rest[k].balance == 0
      {
        assert assets[j + 1] == rest[j] && assets[k + 1] == rest[k];
      }
    }
  }

  lemma {:induction false} HiddenIsRest(assets: seq<Asset>, kind: AssetKind, token: Option<Address>)
    requires kind != ERC721 && (kind == ERC20 ==> token.Some?)
    requires forall a | a in assets :: a.balance >= 0
    ensures SumBy(assets, Counted(kind, token)) >= FirstMatch(assets, kind, token) >= 0
    ensures SumBy(assets, Counted(kind, token)) == FirstMatch(assets, kind, token) <==> OnlyFirstCounts(assets, kind, token)
  {
    if assets == [] {
      assert OnlyFirstCounts(assets, kind, token);
    } else {
      hide OnlyFirstCounts;
      assert assets[0] in assets;
      assert forall a | a in assets[1..] :: a in assets;
      assert Counted(kind, token)(assets[0]) == if Matches(assets[0], kind, token) then assets[0].balance else 0;
      if Matches(assets[0], kind, token) {
        CountedIsNonNegative(assets[1..], kind, token);
        OnlyFirstAfterMatch(assets, kind, token);
      } else {
        HiddenIsRest(assets[1..], kind, token);
        OnlyFirstWithoutMatch(assets, kind, token);
      }
    }
  }

  lemma {:induction false} HiddenSum(v: View, kind: AssetKind, token: Option<Address>)
    requires kind != ERC721 && (kind == ERC20 ==> token.Some?) && NonNegative(v)
    ensures SumBy(v, Hidden(kind, token)) >= 0
    ensures SumBy(v, Hidden(kind, token)) == 0 <==> forall s | s in v :: OnlyFirstCounts(s.assets, kind, token)
  {
    if v != [] {
      assert v[0] in v;
      assert forall s | s in v :: s == v[0] || s in v[1..];
      HiddenSum(v[1..], kind, token);
      HiddenIsRest(v[0].assets, kind, token);
      assert ShardBalance(kind, token)(v[0]) == SumBy(v[0].assets, Counted(kind, token));
      assert Hidden(kind, token)(v[0]) == SumBy(v[0].assets, Counted(kind, token)) - FirstMatch(v[0].assets, kind, token);
    }
  }

  lemma UnspentForElements(v: View, kind: AssetKind, token: Option<Address>, id: Option<int>, s: Shard)
    ensures s in UnspentFor(v, kind, token, id) <==> s in v && IsUnspent(s) && HasAsset(kind, token, id)(s)
  {
    FilterElements(Unspent(v), HasAsset(kind, token, id), s);
    FilterElements(v, IsUnspent, s);
  }

  /** A shard without a matching asset has nothing to count twice. */
  lemma NoMatchOnlyFirst(s: Shard, kind: AssetKind, token: Option<Address>)
    requires !HasAsset(kind, token, None)(s)
    ensures OnlyFirstCounts(s.assets, kind, token)
  {
    forall k | 0 <= k < |s.assets| ensures !Matches(s.assets[k], kind, token) {
      assert !Answers(s.assets[k], kind, token, None);
    }
  }

  /**
   The displayed balance is never less than what can be spent, and equals it exactly when in every unspent
   shard no asset after the first match of the token holds anything.
  */
  lemma DisplayedIsSpendable(v: View, kind: AssetKind, token: Option<Address>)
    requires kind != ERC721 && (kind == ERC20 ==> token.Some?) && NonNegative(v)
    ensures Spendable(v, kind, token) <= Displayed(v, kind, token)
    ensures Spendable(v, kind, token) == Displayed(v, kind, token)
       <==> forall s | s in v && IsUnspent(s) :: OnlyFirstCounts(s.assets, kind, token)
  {
    hide SumBy, Hidden, ShardBalance, Pool, OnlyFirstCounts;
    var shards := UnspentFor(v, kind, token, None);
    forall s ensures s in shards <==> s in v && IsUnspent(s) && HasAsset(kind, token, None)(s) {
      UnspentForElements(v, kind, token, None, s);
    }
    forall s | s in v && !HasAsset(kind, token, None)(s) ensures OnlyFirstCounts(s.assets, kind, token) {
      NoMatchOnlyFirst(s, kind, token);
    }
    PoolSum(shards, kind, token);
    HiddenSum(shards, kind, token);
  }

  lemma PoolIsRequest(shards: seq<Shard>, kind: AssetKind, token: Option<Address>, amount: int, dust: int)
    requires amount >= 0 && dust >= 0
    ensures Request(Pool(shards, kind, token), amount, dust)
  {
    var pool := Pool(shards, kind, token);
    forall k | 0 <= k < |pool| ensures Balances(pool)[k] > 0 { assert pool[k] in pool; }
  }

  /**
   When no unspent shard hides a second balance, a transfer is refused exactly when it exceeds the displayed
   balance, for every order of the pool and every draw.
  */
  lemma RefusedExactlyAboveDisplayed(v: View, kind: AssetKind, token: Option<Address>, amount: int, maxSplits: int, dust: int, d: EngineDraws)
    requires kind != ERC721 && (kind == ERC20 ==> token.Some?) && NonNegative(v)
    requires forall s | s in v && IsUnspent(s) :: OnlyFirstCounts(s.assets, kind, token)
    requires amount >= 0 && dust >= 0
    ensures Select(UnspentFor(v, kind, token, None), kind, token, amount, maxSplits, dust, d).Err?
       <==> amount > Displayed(v, kind, token)
  {
    hide SumBy, Engine, Shuffle, OnlyFirstCounts;
    DisplayedIsSpendable(v, kind, token);
    var pool := Pool(UnspentFor(v, kind, token, None), kind, token);
    PoolIsRequest(UnspentFor(v, kind, token, None), kind, token, amount, dust);
    InsufficientExactlyWhenTooSmall(pool, amount, maxSplits, dust, d);
  }

  /** The pool without its first shard, and with it when that holds something. */
  lemma PoolHead(shards: seq<Shard>, kind: AssetKind, token: Option<Address>)
    requires shards != []
    ensures var rest := Pool(shards[1..], kind, token);
      EndToEnd.Inputs(Pool(shards, kind, token)) == EndToEnd.Inputs(rest)
      || EndToEnd.Inputs(Pool(shards, kind, token)) == [shards[0].address] + EndToEnd.Inputs(rest)
  {
    var rest := Pool(shards[1..], kind, token);
    var balance := FirstMatch(shards[0].assets, kind, token);
    if balance > 0 {
      var head := PoolItem(shards[0], balance);
      assert Pool(shards, kind, token) == [head] + rest;
      assert EndToEnd.Inputs([head] + rest) == [shards[0].address] + EndToEnd.Inputs(rest);
    } else {
      assert Pool(shards, kind, token) == rest;
    }
  }

  lemma {:induction false} PoolIsDistinct(shards: seq<Shard>, kind: AssetKind, token: Option<Address>)
    requires UniqueAddresses(shards)
    ensures Distinct(EndToEnd.Inputs(Pool(shards, kind, token)))
  {
    hide Pool;
    if shards == [] {
      NoPool(kind, token);
    } else {
      assert UniqueAddresses(shards[1..]);
      PoolIsDistinct(shards[1..], kind, token);
      PoolHead(shards, kind, token);
      var rest := Pool(shards[1..], kind, token);
      forall j | 0 <= j < |rest| ensures EndToEnd.Inputs(rest)[j] != shards[0].address {
        assert rest[j] in rest;
        var k :| 0 <= k < |shards| - 1 && shards[1..][k] == rest[j].shard;
        assert shards[k + 1] == shards[1..][k];
      }
    }
  }

  lemma NoPool(kind: AssetKind, token: Option<Address>)
    ensures Pool([], kind, token) == []
  {}

  /** Every selected item is an unspent shard of the store, with its first matching balance, and none is taken twice. */
  lemma SelectionComesFromStore(v: View, kind: AssetKind, token: Option<Address>, amount: int, maxSplits: int, dust: int, d: EngineDraws)
    requires UniqueAddresses(v)
    requires Select(UnspentFor(v, kind, token, None), kind, token, amount, maxSplits, dust, d).Ok?
    ensures var items := Select(UnspentFor(v, kind, token, None), kind, token, amount, maxSplits, dust, d).value.items;
      && Distinct(EndToEnd.Inputs(items))
      && forall x | x in items ::
           x.shard in v && IsUnspent(x.shard) && x.balance == FirstMatch(x.shard.assets, kind, token) > 0
           && HasAsset(kind, token, None)(x.shard)
  {
    var shards := UnspentFor(v, kind, token, None);
    FilterKeepsUnique(v, IsUnspent);
    FilterKeepsUnique(Unspent(v), HasAsset(kind, token, None));
    var pool := Pool(shards, kind, token);
    PoolIsDistinct(shards, kind, token);
    EndToEnd.SelectedInputsAreDistinct(pool, amount, d);
    var shuffled := Shuffle(pool, d.swap);
    ShuffleKeepsElements(pool, d.swap);
    EndToEnd.EngineItems(shuffled, amount, maxSplits, dust, d);
    var items := Selected(shuffled, amount, d);
    forall x | x in items
      ensures x.shard in v && IsUnspent(x.shard) && HasAsset(kind, token, None)(x.shard) && x in pool
    {
      assert x in shuffled;
      assert x in multiset(pool);
      UnspentForElements(v, kind, token, None, x.shard);
    }
  }
}
