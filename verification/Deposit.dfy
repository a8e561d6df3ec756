/** A deposit batch: transfers to fresh stealth addresses, each with its announcement (`preparePrivateDeposit`). */
module Deposit {
  import opened Seqs
  import opened Protocol
  import opened Randomness
  import opened Splitting
  import opened Plan

  datatype Call =
    | Transfer(kind: AssetKind, token: Address, out: Out)
    | NftTransfer(token: Address, sender: Address, out: Out)
    | Announce(kind: AssetKind, token: Address, out: Out)

  datatype DepositDraws = DepositDraws(split: SplitDraws, transfers: nat -> Draw, announces: nat -> Draw)

  datatype Request = Request(kind: AssetKind, token: Option<Address>, sender: Address, amount: int, tokenId: Option<int>)

  datatype Batch = Batch(calls: seq<Call>, stealthAddresses: seq<Address>)

  function DustFor(kind: AssetKind): int { if kind == Native then 10_000 else 1 }

  function TokenTarget(r: Request): Address { if r.token.Some? then r.token.value else ZERO_ADDRESS }

  /** Which split goes to which fresh address. */
  function Outs(pool: seq<Address>, splits: seq<int>): (outs: seq<Out>)
    requires |splits| <= |pool|
    ensures |outs| == |splits|
  {
    seq(|splits|, i requires 0 <= i < |splits| => Out(pool[i], splits[i]))
  }

  function Transfers(r: Request, outs: seq<Out>): (calls: seq<Call>)
    ensures |calls| == |outs|
  {
    seq(|outs|, i requires 0 <= i < |outs| => Transfer(r.kind, TokenTarget(r), outs[i]))
  }

  function Announces(r: Request, outs: seq<Out>): (calls: seq<Call>)
    ensures |calls| == |outs|
  {
    seq(|outs|, i requires 0 <= i < |outs| => Announce(r.kind, TokenTarget(r), outs[i]))
  }

  /** Moving values and then wrapping them is wrapping and then moving. */
  lemma {:induction false} TransfersShuffle(r: Request, outs: seq<Out>, i: nat, draw: nat -> Draw)
    requires outs == [] ==> i == 0
    requires outs != [] ==> i < |outs|
    ensures Shuffled(Transfers(r, outs), i, draw) == Transfers(r, Shuffled(outs, i, draw))
    ensures Shuffled(Announces(r, outs), i, draw) == Announces(r, Shuffled(outs, i, draw))
    decreases i
  {
    if i > 0 {
      var j := Pick(draw(i), i + 1);
      var moved := outs[i := outs[j]][j := outs[i]];
      var t, a := Transfers(r, outs), Announces(r, outs);
      assert t[i := t[j]][j := t[i]] == Transfers(r, moved);
      assert a[i := a[j]][j := a[i]] == Announces(r, moved);
      TransfersShuffle(r, moved, i - 1, draw);
    }
  }

  /** The loop over the splits. */
  method BuildCalls(r: Request, pool: seq<Address>, splits: seq<int>)
    returns (transferCalls: seq<Call>, announceCalls: seq<Call>, addresses: seq<Address>)
    requires 0 < |pool| && |splits| <= |pool| && forall x | x in splits :: x > 0
    ensures transferCalls == Transfers(r, Outs(pool, splits)) && announceCalls == Announces(r, Outs(pool, splits))
    ensures addresses == pool[..|splits|]
  {
    transferCalls, announceCalls, addresses := [], [], [];
    ghost var outs := Outs(pool, splits);
    for i := 0 to |splits|
      invariant transferCalls == Transfers(r, outs[..i]) && announceCalls == Announces(r, outs[..i])
      invariant addresses == pool[..i]
    {
      var amount := splits[i];
      assert amount in splits;
      if amount <= 0 { continue; }
      assert i % |pool| == i;
      var out := Out(pool[i % |pool|], amount);
      assert outs[..i + 1] == outs[..i] + [out];
      addresses := addresses + [out.to];
      transferCalls := transferCalls + [Transfer(r.kind, TokenTarget(r), out)];
      announceCalls := announceCalls + [Announce(r.kind, TokenTarget(r), out)];
    }
    assert outs[..|splits|] == outs;
  }

  method ShuffleCalls(calls: seq<Call>, draw: nat -> Draw) returns (shuffled: seq<Call>)
    ensures shuffled == Shuffle(calls, draw)
  {
    if |calls| == 0 { return []; }
    var a := new Call[|calls|](k requires 0 <= k < |calls| => calls[k]);
    assert a[..] == calls;
    ShuffleInPlace(a, draw);
    shuffled := a[..];
  }

  /** Transfer, announcement, transfer, announcement, ... */
  method Interleave(transferCalls: seq<Call>, announceCalls: seq<Call>) returns (calls: seq<Call>)
    requires |transferCalls| == |announceCalls|
    ensures |calls| == 2 * |transferCalls|
    ensures forall k | 0 <= k < |transferCalls| :: calls[2 * k] == transferCalls[k] && calls[2 * k + 1] == announceCalls[k]
  {
    calls := [];
    for i := 0 to |transferCalls|
      invariant |calls| == 2 * i
      invariant forall k | 0 <= k < i :: calls[2 * k] == transferCalls[k] && calls[2 * k + 1] == announceCalls[k]
    {
      calls := calls + [transferCalls[i]];
      if i < |announceCalls| { calls := calls + [announceCalls[i]]; }
    }
  }

  /** The batch for the splits of a fungible deposit. */
  method BatchFor(r: Request, pool: seq<Address>, splits: seq<int>, d: DepositDraws) returns (b: Batch)
    requires 0 < |pool| && |splits| <= |pool| && forall x | x in splits :: x > 0
    requires Sum(splits) == if r.amount > 0 then r.amount else 0
    ensures Faithful(r, pool, b) && PaysSplits(r, pool, splits, b)
    ensures forall c | c in b.calls :: NamesAsset(c, r)
  {
    hide Sum, Faithful, Shuffled, Alternates;
    var transferCalls, announceCalls, addresses := BuildCalls(r, pool, splits);
    ghost var outs := Outs(pool, splits);
    transferCalls := ShuffleCalls(transferCalls, d.transfers);
    announceCalls := ShuffleCalls(announceCalls, d.announces);
    ghost var last := if outs == [] then 0 else |outs| - 1;
    TransfersShuffle(r, outs, last, d.transfers);
    TransfersShuffle(r, outs, last, d.announces);
    var calls := Interleave(transferCalls, announceCalls);
    b := Batch(calls, addresses);
    ghost var paid, told := Shuffle(outs, d.transfers), Shuffle(outs, d.announces);
    assert Alternates(r, b.calls, paid, told) by { Alternating(r, b.calls, paid, told); }
    BatchIsFaithful(r, pool, splits, paid, told, d, b);
    ShuffleKeepsElements(outs, d.transfers);
    AlternatingNames(r, b.calls, paid, told);
  }

  lemma AlternatingNames(r: Request, calls: seq<Call>, paid: seq<Out>, told: seq<Out>)
    requires Alternates(r, calls, paid, told)
    ensures forall c | c in calls :: NamesAsset(c, r)
  {
    forall k | 0 <= k < |calls| ensures NamesAsset(calls[k], r) {
      var j := k / 2;
      if k == 2 * j {
        assert calls[2 * j] == Transfer(r.kind, TokenTarget(r), paid[j]);
      } else {
        assert calls[2 * j + 1] == Announce(r.kind, TokenTarget(r), told[j]);
      }
    }
  }

  lemma Alternating(r: Request, calls: seq<Call>, paid: seq<Out>, told: seq<Out>)
    requires |paid| == |told| && |calls| == 2 * |paid|
    requires forall k | 0 <= k < |paid| :: calls[2 * k] == Transfers(r, paid)[k] && calls[2 * k + 1] == Announces(r, told)[k]
    ensures Alternates(r, calls, paid, told)
  {}

  /** `preparePrivateDeposit` with the pool of generated stealth addresses. */
  method PrepareDeposit(r: Request, pool: seq<Address>, d: DepositDraws) returns (b: Result<Batch, string>)
    requires |pool| > 0
    ensures b.Err? <==> r.token.None? && (r.kind == ERC721 || (r.kind == ERC20 && r.amount > 0))
    ensures b.Ok? && r.kind == ERC721 ==>
      var id := if r.tokenId.Some? then r.tokenId.value else 0;
      b.value == Batch([NftTransfer(r.token.value, r.sender, Out(pool[0], id)), Announce(ERC721, r.token.value, Out(pool[0], id))],
                       [pool[0]])
    ensures b.Ok? && r.kind != ERC721 ==> Faithful(r, pool, b.value)
    ensures b.Ok? && r.kind != ERC721 ==>
      PaysSplits(r, pool, Splits(r.amount, |pool|, if r.kind == Native then 10_000 else 1, d.split), b.value)
      && forall c | c in b.value.calls :: NamesAsset(c, r)
  {
    hide Faithful, PaysSplits, WordSplits;
    if r.kind == ERC721 {
      if r.token.None? { return Err("Token contract address coordinate required for ERC721"); }
      var id := if r.tokenId.Some? then r.tokenId.value else 0;
      return Ok(Batch([NftTransfer(r.token.value, r.sender, Out(pool[0], id)), Announce(ERC721, r.token.value, Out(pool[0], id))],
                      [pool[0]]));
    }
    var splits := GenerateSplitsForShard(r.amount, |pool|, DustFor(r.kind), d.split.count, d.split.percent);
    SplitsConserve(r.amount, |pool|, DustFor(r.kind), d.split);
    SplitsAboveDust(r.amount, |pool|, DustFor(r.kind), d.split);
    SomethingIsPositive(splits, r.amount);
    if r.kind == ERC20 && r.token.None? && |splits| > 0 {
      return Err("Token contract address coordinate required for ERC20");
    }
    var batch := BatchFor(r, pool, splits, d);
    b := Ok(batch);
  }

  lemma SomethingIsPositive(splits: seq<int>, amount: int)
    requires Sum(splits) == if amount > 0 then amount else 0
    requires forall x | x in splits :: x > 0
    ensures splits != [] <==> amount > 0
  {
    if splits != [] {
      assert splits[0] in splits;
      forall i | 0 <= i < |splits| ensures splits[i] > 0 { assert splits[i] in splits; }
      SumNonNegative(splits);
    }
  }

  /** The outputs behind the calls at even and at odd positions. */
  ghost predicate Alternates(r: Request, calls: seq<Call>, paid: seq<Out>, told: seq<Out>) {
    && |paid| == |told| && |calls| == 2 * |paid|
    && forall k | 0 <= k < |paid| ::
         calls[2 * k] == Transfer(r.kind, TokenTarget(r), paid[k])
         && calls[2 * k + 1] == Announce(r.kind, TokenTarget(r), told[k])
  }

  /** Exactly the announced outputs are paid, to different fresh addresses, and they add up to the amount. */
  ghost predicate Faithful(r: Request, pool: seq<Address>, b: Batch) {
    exists paid, told :: Matched(r, pool, b, paid, told)
  }

  ghost predicate Matched(r: Request, pool: seq<Address>, b: Batch, paid: seq<Out>, told: seq<Out>) {
    && Alternates(r, b.calls, paid, told)
    && multiset(paid) == multiset(told)
    && |b.stealthAddresses| == |paid| <= |pool| && b.stealthAddresses <= pool
    && (forall a :: a in b.stealthAddresses <==> PaysTo(paid, a))
    && (forall o | o in paid :: o.amount > 0)
    && (Distinct(pool) ==> DistinctTargets(paid))
    && SumBy(paid, Amount) == if r.amount > 0 then r.amount else 0
  }

  /** The call moves or announces the asset of the request, at the zero address when no token is given. */
  predicate NamesAsset(c: Call, r: Request) {
    !c.NftTransfer? && c.kind == r.kind && match r.token case Some(t) => c.token == t case None => c.token == ZERO_ADDRESS
  }

  /** What is paid is the amount as it was cut, split i to fresh address i. */
  ghost predicate PaysSplits(r: Request, pool: seq<Address>, splits: seq<int>, b: Batch) {
    |splits| <= |pool| && exists paid, told | multiset(paid) == multiset(Outs(pool, splits)) :: Alternates(r, b.calls, paid, told)
  }

  ghost predicate DistinctTargets(outs: seq<Out>) {
    forall i, j | 0 <= i < j < |outs| :: outs[i].to != outs[j].to
  }

  ghost predicate PaysTo(outs: seq<Out>, a: Address) { exists k | 0 <= k < |outs| :: outs[k].to == a }

  lemma {:induction false} OutsTotal(pool: seq<Address>, splits: seq<int>)
    requires |splits| <= |pool|
    ensures SumBy(Outs(pool, splits), Amount) == Sum(splits)
  {
    if splits != [] {
      OutsTotal(pool[1..], splits[1..]);
      assert Outs(pool, splits)[1..] == Outs(pool[1..], splits[1..]);
    }
  }

  lemma PermutedAddresses(pool: seq<Address>, splits: seq<int>, paid: seq<Out>)
    requires |splits| <= |pool| && multiset(paid) == multiset(Outs(pool, splits))
    ensures |paid| == |splits|
    ensures forall a :: a in pool[..|splits|] <==> PaysTo(paid, a)
    ensures forall o | o in paid :: o in Outs(pool, splits)
  {
    var outs := Outs(pool, splits);
    assert |paid| == |multiset(paid)| == |multiset(outs)| == |outs|;
    forall o ensures o in paid <==> o in outs {
      assert o in paid <==> o in multiset(paid);
      assert o in outs <==> o in multiset(outs);
    }
    forall a ensures a in pool[..|splits|] <==> PaysTo(paid, a) {
      if a in pool[..|splits|] {
        var k :| 0 <= k < |splits| && pool[k] == a;
        assert outs[k] in paid;
      }
      if PaysTo(paid, a) {
        var k :| 0 <= k < |paid| && paid[k].to == a;
        assert paid[k] in outs;
        var j :| 0 <= j < |outs| && outs[j] == paid[k];
        assert pool[..|splits|][j] == a;
      }
    }
  }

  lemma {:induction false} DistinctAfterShuffle(outs: seq<Out>, i: nat, draw: nat -> Draw)
    requires outs == [] ==> i == 0
    requires outs != [] ==> i < |outs|
    requires DistinctTargets(outs)
    ensures DistinctTargets(Shuffled(outs, i, draw))
    decreases i
  {
    if i > 0 {
      var j := Pick(draw(i), i + 1);
      DistinctAfterShuffle(outs[i := outs[j]][j := outs[i]], i - 1, draw);
    }
  }

  lemma BatchIsFaithful(r: Request, pool: seq<Address>, splits: seq<int>, paid: seq<Out>, told: seq<Out>, d: DepositDraws, b: Batch)
    requires |splits| <= |pool| && (forall x | x in splits :: x > 0)
    requires Sum(splits) == if r.amount > 0 then r.amount else 0
    requires paid == Shuffle(Outs(pool, splits), d.transfers) && told == Shuffle(Outs(pool, splits), d.announces)
    requires Alternates(r, b.calls, paid, told) && b.stealthAddresses == pool[..|splits|]
    ensures Faithful(r, pool, b)
  {
    hide SumBy, Sum, Outs, Shuffled, Alternates, PaysTo;
    var outs := Outs(pool, splits);
    ShuffleKeepsElements(outs, d.transfers);
    ShuffleKeepsElements(outs, d.announces);
    PermutedAddresses(pool, splits, paid);
    SumByPermutation(paid, outs, Amount);
    OutsTotal(pool, splits);
    OutsArePositive(pool, splits);
    if Distinct(pool) {
      OutsAreDistinct(pool, splits);
      DistinctAfterShuffle(outs, if outs == [] then 0 else |outs| - 1, d.transfers);
    }
    assert Matched(r, pool, b, paid, told);
  }

  lemma OutsArePositive(pool: seq<Address>, splits: seq<int>)
    requires |splits| <= |pool| && forall x | x in splits :: x > 0
    ensures forall o | o in Outs(pool, splits) :: o.amount > 0
  {
    forall k | 0 <= k < |splits| ensures Outs(pool, splits)[k].amount > 0 { assert splits[k] in splits; }
  }

  lemma OutsAreDistinct(pool: seq<Address>, splits: seq<int>)
    requires |splits| <= |pool| && Distinct(pool)
    ensures DistinctTargets(Outs(pool, splits))
  {}
}
