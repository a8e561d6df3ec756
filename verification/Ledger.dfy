/** Asset ledger and the three transfers of GhostShard.sol, for tokens that move what they are asked to move. */
module Ledger {
  import opened Seqs
  import opened Protocol
  import opened Fusion
  import opened PlanProperties

  /** A fungible asset: native ether or one ERC20 token. */
  datatype Coin = Ether | Token(token: Address)

  datatype Books = Books(funds: map<(Coin, Address), nat>, owners: map<(Address, int), Address>)

  function CoinOf(kind: AssetKind, token: Address): Coin {
    if kind == Native then Ether else Token(token)
  }

  function Funds(l: Books, coin: Coin, a: Address): nat {
    if (coin, a) in l.funds then l.funds[(coin, a)] else 0
  }

  function Credit(l: Books, coin: Coin, a: Address, amount: nat): Books {
    l.(funds := l.funds[(coin, a) := Funds(l, coin, a) + amount])
  }

  function Debit(l: Books, coin: Coin, a: Address, amount: nat): Books
    requires amount <= Funds(l, coin, a)
  {
    l.(funds := l.funds[(coin, a) := Funds(l, coin, a) - amount])
  }

  /** One transfer out of a shard, or None when it reverts. */
  function Transfer(l: Books, c: Command): Option<Books> {
    if c.value < 0 then None
    else if c.kind == ERC721 then
      if (c.token, c.value) in l.owners && l.owners[(c.token, c.value)] == c.shard
      then Some(l.(owners := l.owners[(c.token, c.value) := c.to]))
      else None
    else if Funds(l, CoinOf(c.kind, c.token), c.shard) < c.value then None
    else Some(Credit(Debit(l, CoinOf(c.kind, c.token), c.shard, c.value), CoinOf(c.kind, c.token), c.to, c.value))
  }

  function TransferAll(l: Books, cmds: seq<Command>): Option<Books>
    decreases |cmds|
  {
    if cmds == [] then Some(l)
    else match Transfer(l, cmds[0])
      case None => None
      case Some(l') => TransferAll(l', cmds[1..])
  }

  function OwnerOf(l: Books, token: Address, id: int): Option<Address> {
    if (token, id) in l.owners then Some(l.owners[(token, id)]) else None
  }

  /** The two ledgers agree on every balance. */
  ghost predicate SameFunds(l: Books, l': Books) { forall coin, a :: Funds(l', coin, a) == Funds(l, coin, a) }

  /** The two ledgers agree on every token id but one. */
  ghost predicate SameOwnersBut(l: Books, l': Books, token: Address, id: int) {
    forall t: Address, i: int | (t, i) != (token, id) :: OwnerOf(l', t, i) == OwnerOf(l, t, i)
  }

  /** A token id goes from the shard that owns it to the recipient, and nothing else moves; for any other shard the transfer reverts. */
  lemma NftTransferExactly(l: Books, c: Command)
    requires c.kind == ERC721
    ensures Transfer(l, c).Some? <==> c.value >= 0 && OwnerOf(l, c.token, c.value) == Some(c.shard)
    ensures Transfer(l, c).Some? ==>
      var l' := Transfer(l, c).value;
      OwnerOf(l', c.token, c.value) == Some(c.to) && SameOwnersBut(l, l', c.token, c.value) && SameFunds(l, l')
  {}

  /** Ether or a token goes through exactly when the shard holds it; other accounts, other coins and all token ids stay. */
  lemma FungibleTransferExactly(l: Books, c: Command)
    requires c.kind != ERC721
    ensures var coin := if c.kind == Native then Ether else Token(c.token);
      Transfer(l, c).Some? <==> 0 <= c.value <= Funds(l, coin, c.shard)
    ensures Transfer(l, c).Some? ==>
      var l' := Transfer(l, c).value; var coin := if c.kind == Native then Ether else Token(c.token);
      && l'.owners == l.owners
      && (forall a :: Funds(l', coin, a) == Funds(l, coin, a) - (if a == c.shard then c.value else 0) + (if a == c.to then c.value else 0))
      && (forall other, a | other != coin :: Funds(l', other, a) == Funds(l, other, a))
  {}

  /** Whatever list of one coin's commands goes through, it leaves other coins and all token ids alone. */
  lemma {:induction false} TransfersTouchOneCoin(l: Books, cmds: seq<Command>, coin: Coin)
    requires OneWay(cmds, coin) && TransferAll(l, cmds).Some?
    ensures var l' := TransferAll(l, cmds).value;
      l'.owners == l.owners && forall other, a | other != coin :: Funds(l', other, a) == Funds(l, other, a)
    decreases |cmds|
  {
    hide Transfer;
    if cmds != [] {
      assert cmds[0] in cmds;
      FungibleTransferExactly(l, cmds[0]);
      OneWayTail(cmds, coin);
      TransfersTouchOneCoin(Transfer(l, cmds[0]).value, cmds[1..], coin);
    }
  }

  /** Fungible commands of one coin whose sources never receive anything from them. */
  ghost predicate OneWay(cmds: seq<Command>, coin: Coin) {
    && (forall c | c in cmds :: c.kind != ERC721 && CoinOf(c.kind, c.token) == coin && c.value >= 0)
    && (forall c, c' | c in cmds && c' in cmds :: c.to != c'.shard)
  }

  lemma OneWayTail(cmds: seq<Command>, coin: Coin)
    requires OneWay(cmds, coin) && cmds != []
    ensures OneWay(cmds[1..], coin)
  {
    forall c | c in cmds[1..] ensures c in cmds {}
  }

  lemma {:induction false} FlowNonNegative(cmds: seq<Command>, coin: Coin, p: Key -> bool)
    requires OneWay(cmds, coin)
    ensures Flow(cmds, p) >= 0
  {
    if cmds != [] {
      OneWayTail(cmds, coin);
      assert cmds[0] in cmds;
      FlowNonNegative(cmds[1..], coin, p);
    }
  }

  lemma {:induction false} NoFlowIntoSource(cmds: seq<Command>, coin: Coin, s: Address)
    requires OneWay(cmds, coin)
    requires forall c | c in cmds :: c.to != s
    ensures Flow(cmds, Into(s)) == 0
  {
    if cmds != [] {
      OneWayTail(cmds, coin);
      forall c | c in cmds[1..] ensures c.to != s { assert c in cmds; }
      assert cmds[0] in cmds;
      FlowHead(cmds, Into(s));
      FlowOne(cmds[0], s);
      NoFlowIntoSource(cmds[1..], coin, s);
    }
  }

  lemma FlowHead(cmds: seq<Command>, p: Key -> bool)
    requires cmds != []
    ensures Flow(cmds, p) == Flow([cmds[0]], p) + Flow(cmds[1..], p)
  {
    SumBySingle(cmds[0], Weight(p));
  }

  /** Account a changed by the net flow of the commands. */
  predicate NetOf(l: Books, l': Books, coin: Coin, a: Address, cmds: seq<Command>) {
    Funds(l', coin, a) == Funds(l, coin, a) - Flow(cmds, From(a)) + Flow(cmds, Into(a))
  }

  lemma FlowOne(c: Command, a: Address)
    requires c.kind != ERC721
    ensures Flow([c], From(a)) == if c.shard == a then c.value else 0
    ensures Flow([c], Into(a)) == if c.to == a then c.value else 0
  {
    SumBySingle(c, Weight(From(a)));
    SumBySingle(c, Weight(Into(a)));
    assert From(a)(KeyOf(c)) <==> c.shard == a;
    assert Into(a)(KeyOf(c)) <==> c.to == a;
  }

  /** Every source holds at least what flows out of it. */
  ghost predicate Covered(l: Books, cmds: seq<Command>, coin: Coin) {
    forall c | c in cmds :: Flow(cmds, From(c.shard)) <= Funds(l, coin, c.shard)
  }

  lemma CoveredStep(l: Books, cmds: seq<Command>, coin: Coin)
    requires OneWay(cmds, coin) && Covered(l, cmds, coin) && cmds != []
    ensures Transfer(l, cmds[0]).Some?
    ensures OneWay(cmds[1..], coin) && Covered(Transfer(l, cmds[0]).value, cmds[1..], coin)
    ensures forall a :: NetOf(l, Transfer(l, cmds[0]).value, coin, a, [cmds[0]])
  {
    hide SumBy, Weight, From, Into;
    var c := cmds[0];
    assert c in cmds;
    OneWayTail(cmds, coin);
    FlowHead(cmds, From(c.shard));
    FlowOne(c, c.shard);
    FlowNonNegative(cmds[1..], coin, From(c.shard));
    var l' := Transfer(l, c).value;
    forall a ensures NetOf(l, l', coin, a, [c]) {
      FlowOne(c, a);
    }
    forall x | x in cmds[1..] ensures Flow(cmds[1..], From(x.shard)) <= Funds(l', coin, x.shard) {
      assert x in cmds;
      FlowHead(cmds, From(x.shard));
      FlowOne(c, x.shard);
      assert NetOf(l, l', coin, x.shard, [c]);
    }
  }

  /** When every source is covered, the commands go through and each account changes by its net flow. */
  lemma {:induction false} TransfersSettle(l: Books, cmds: seq<Command>, coin: Coin)
    requires OneWay(cmds, coin) && Covered(l, cmds, coin)
    ensures TransferAll(l, cmds).Some?
    ensures forall a :: NetOf(l, TransferAll(l, cmds).value, coin, a, cmds)
    decreases |cmds|
  {
    hide SumBy, Weight, From, Into;
    if cmds == [] {
      forall a ensures NetOf(l, l, coin, a, cmds) {
        SumByEmpty(cmds, Weight(From(a)));
        SumByEmpty(cmds, Weight(Into(a)));
      }
    } else {
      CoveredStep(l, cmds, coin);
      var l' := Transfer(l, cmds[0]).value;
      TransfersSettle(l', cmds[1..], coin);
      forall a ensures NetOf(l, TransferAll(l, cmds).value, coin, a, cmds) {
        assert NetOf(l, l', coin, a, [cmds[0]]) && NetOf(l', TransferAll(l, cmds).value, coin, a, cmds[1..]);
        FlowHead(cmds, From(a));
        FlowHead(cmds, Into(a));
      }
    }
  }

  /** Conversely, commands that go through were covered. */
  lemma {:induction false} SettledIsCovered(l: Books, cmds: seq<Command>, coin: Coin)
    requires OneWay(cmds, coin) && TransferAll(l, cmds).Some?
    ensures forall a :: Flow(cmds, From(a)) <= Funds(l, coin, a) + Flow(cmds, Into(a))
    decreases |cmds|
  {
    hide SumBy, Weight, From, Into;
    if cmds == [] {
      forall a ensures Flow(cmds, From(a)) == 0 && Flow(cmds, Into(a)) == 0 {
        SumByEmpty(cmds, Weight(From(a)));
        SumByEmpty(cmds, Weight(Into(a)));
      }
    } else {
      assert cmds[0] in cmds;
      OneWayTail(cmds, coin);
      var l' := Transfer(l, cmds[0]).value;
      SettledIsCovered(l', cmds[1..], coin);
      forall a ensures Flow(cmds, From(a)) <= Funds(l, coin, a) + Flow(cmds, Into(a)) {
        FlowHead(cmds, From(a));
        FlowHead(cmds, Into(a));
        FlowOne(cmds[0], a);
        assert Flow(cmds[1..], From(a)) <= Funds(l', coin, a) + Flow(cmds[1..], Into(a));
      }
    }
  }

  /** What a set of accounts holds together. */
  function PoolFunds(l: Books, coin: Coin, pool: seq<Address>): int {
    if pool == [] then 0 else Funds(l, coin, pool[0]) + PoolFunds(l, coin, pool[1..])
  }

  lemma {:induction false} FlowIntoFirst(cmds: seq<Command>, pool: seq<Address>)
    requires pool != [] && Distinct(pool)
    ensures Flow(cmds, IntoAny(pool)) == Flow(cmds, Into(pool[0])) + Flow(cmds, IntoAny(pool[1..]))
  {
    if cmds != [] {
      FlowIntoFirst(cmds[1..], pool);
      var c := cmds[0];
      assert c.to in pool <==> c.to == pool[0] || c.to in pool[1..];
      assert c.to == pool[0] ==> c.to !in pool[1..];
    }
  }

  lemma {:induction false} NoFlowIntoNowhere(cmds: seq<Command>)
    ensures Flow(cmds, IntoAny([])) == 0
  {
    if cmds != [] { NoFlowIntoNowhere(cmds[1..]); }
  }

  /** A pool of distinct accounts that send nothing gains exactly what flows into it. */
  lemma {:induction false} PoolGains(l: Books, l': Books, cmds: seq<Command>, coin: Coin, pool: seq<Address>)
    requires Distinct(pool)
    requires forall a | a in pool :: Funds(l', coin, a) == Funds(l, coin, a) + Flow(cmds, Into(a))
    ensures PoolFunds(l', coin, pool) == PoolFunds(l, coin, pool) + Flow(cmds, IntoAny(pool))
    decreases |pool|
  {
    hide SumBy;
    if pool == [] {
      NoFlowIntoNowhere(cmds);
    } else {
      assert pool[0] in pool;
      forall a | a in pool[1..] ensures a in pool {}
      PoolGains(l, l', cmds, coin, pool[1..]);
      FlowIntoFirst(cmds, pool);
    }
  }
}
