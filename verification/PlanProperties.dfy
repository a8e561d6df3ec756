/** What a prepared plan moves, announces and records. */
module PlanProperties {
  import opened Seqs
  import opened Protocol
  import opened Randomness
  import opened Fusion
  import opened Plan

  function PositivePart(x: int): int { if x > 0 then x else 0 }

  /** Sum of the splits that are actually sent. */
  function Sent(row: seq<int>): int {
    SumBy(row, PositivePart)
  }

  function Value(c: Command): int { c.value }

  lemma {:induction false} SentIsSum(row: seq<int>)
    requires forall x | x in row :: x >= 0
    ensures Sent(row) == Sum(row)
  {
    if row != [] {
      assert row[0] in row;
      forall x | x in row[1..] ensures x >= 0 { assert x in row; }
      SentIsSum(row[1..]);
    }
  }

  lemma SentSnoc(row: seq<int>, n: nat)
    requires n < |row|
    ensures Sent(row[..n + 1]) == Sent(row[..n]) + PositivePart(row[n])
  {
    assert row[..n + 1] == row[..n] + [row[n]];
    SumByAppend(row[..n], [row[n]], PositivePart);
    SumBySingle(row[n], PositivePart);
  }

  function Recipients(job: Job): seq<Address> {
    match job.mode case Public(to) => [to] case Private(pool) => pool
  }

  lemma PayTargetIsRecipient(job: Job, i: nat, j: nat)
    requires job.Valid()
    ensures PayTarget(job, i, j) in Recipients(job)
  {}

  lemma {:induction false} PayOutsSum(job: Job, i: nat, n: nat)
    requires job.Valid() && i < |job.shards| && n <= |job.pay[i]| && job.kind != ERC721
    ensures SumBy(PayOuts(job, i, n), Amount) == Sent(job.pay[i][..n])
    ensures forall o | o in PayOuts(job, i, n) :: o.amount > 0 && o.to in Recipients(job)
  {
    hide SumBy;
    if n == 0 {
      SumByEmpty(PayOuts(job, i, n), Amount);
      SumByEmpty(job.pay[i][..n], PositivePart);
    } else {
      PayOutsSum(job, i, n - 1);
      SentSnoc(job.pay[i], n - 1);
      var amount := job.pay[i][n - 1];
      if amount > 0 {
        var o := Out(PayTarget(job, i, n - 1), amount);
        PayTargetIsRecipient(job, i, n - 1);
        SumByAppend(PayOuts(job, i, n - 1), [o], Amount);
        SumBySingle(o, Amount);
      } else {
        assert PayOuts(job, i, n - 1) + [] == PayOuts(job, i, n - 1);
      }
    }
  }

  lemma {:induction false} ChangeOutsSum(job: Job, i: nat, n: nat)
    requires job.Valid() && i < |job.shards| && n <= |job.change[i]|
    ensures SumBy(ChangeOuts(job, i, n), Amount) == Sent(job.change[i][..n])
    ensures forall o | o in ChangeOuts(job, i, n) :: o.amount > 0 && o.to in job.changePool
  {
    hide SumBy;
    if n == 0 {
      SumByEmpty(ChangeOuts(job, i, n), Amount);
      SumByEmpty(job.change[i][..n], PositivePart);
    } else {
      ChangeOutsSum(job, i, n - 1);
      SentSnoc(job.change[i], n - 1);
      var amount := job.change[i][n - 1];
      if amount > 0 {
        var o := Out(PickFrom(job.changePool, job.d.change(i)(n - 1)), amount);
        SumByAppend(ChangeOuts(job, i, n - 1), [o], Amount);
        SumBySingle(o, Amount);
      } else {
        assert ChangeOuts(job, i, n - 1) + [] == ChangeOuts(job, i, n - 1);
      }
    }
  }

  /** Flow of one row's outputs when p treats them all alike. */
  lemma {:induction false} UniformFlow(job: Job, i: nat, outs: seq<Out>, p: Key -> bool, b: bool)
    requires i < |job.shards| && job.kind != ERC721
    requires forall o | o in outs :: p(KeyOf(ToCommand(job, i, o))) == b
    ensures Flow(ToCommands(job, i, outs), p) == if b then SumBy(outs, Amount) else 0
  {
    if outs != [] {
      assert ToCommands(job, i, outs)[1..] == ToCommands(job, i, outs[1..]);
      assert outs[0] in outs;
      UniformFlow(job, i, outs[1..], p, b);
    }
  }

  /** p selects all of row i's payments or none, and all of its change or none. */
  ghost predicate Uniform(job: Job, i: nat, p: Key -> bool, pays: bool, changes: bool)
    requires job.Valid() && i < |job.shards|
  {
    && (forall a | a in Recipients(job) :: p(Key(job.shards[i], job.kind, job.token, a)) == pays)
    && (forall a | a in job.changePool :: p(Key(job.shards[i], job.kind, job.token, a)) == changes)
  }

  lemma RowFlow(job: Job, i: nat, p: Key -> bool, pays: bool, changes: bool)
    requires job.Valid() && i < |job.shards| && job.kind != ERC721
    requires Uniform(job, i, p, pays, changes)
    ensures Flow(RowCommands(job, i), p)
         == (if pays then Sent(job.pay[i]) else 0) + (if changes then Sent(job.change[i]) else 0)
  {
    hide SumBy;
    var pay, change := RowPay(job, i), RowChange(job, i);
    PayOutsSum(job, i, |job.pay[i]|);
    ChangeOutsSum(job, i, |job.change[i]|);
    assert job.pay[i][..|job.pay[i]|] == job.pay[i] && job.change[i][..|job.change[i]|] == job.change[i];
    UniformFlow(job, i, pay, p, pays);
    UniformFlow(job, i, change, p, changes);
    assert ToCommands(job, i, pay + change) == ToCommands(job, i, pay) + ToCommands(job, i, change);
    SumByAppend(ToCommands(job, i, pay), ToCommands(job, i, change), Weight(p));
    ShuffleKeepsElements(ToCommands(job, i, pay + change), job.d.order(i));
    SumByPermutation(RowCommands(job, i), ToCommands(job, i, pay + change), Weight(p));
  }

  function From(s: Address): Key -> bool {
    (k: Key) => k.shard == s
  }

  function Into(s: Address): Key -> bool {
    (k: Key) => k.to == s
  }

  function IntoAny(pool: seq<Address>): Key -> bool {
    (k: Key) => k.to in pool
  }

  lemma FlowStep(job: Job, n: nat, p: Key -> bool)
    requires job.Valid() && n < |job.shards|
    ensures Flow(CommandsUpTo(job, n + 1), p) == Flow(CommandsUpTo(job, n), p) + Flow(RowCommands(job, n), p)
  {
    hide SumBy;
    SumByAppend(CommandsUpTo(job, n), RowCommands(job, n), Weight(p));
  }

  /** What one row adds to the outflow of a shard: its two sums, or nothing when it is another shard's row. */
  lemma FlowFromStep(job: Job, n: nat, at: nat)
    requires job.Valid() && n < |job.shards| && at < |job.shards| && job.kind != ERC721 && Distinct(job.shards)
    ensures Flow(CommandsUpTo(job, n + 1), From(job.shards[at]))
         == Flow(CommandsUpTo(job, n), From(job.shards[at])) + if n == at then Sent(job.pay[at]) + Sent(job.change[at]) else 0
  {
    hide Flow, RowCommands, Sent, CommandsUpTo, Recipients;
    FlowStep(job, n, From(job.shards[at]));
    assert job.shards[n] == job.shards[at] <==> n == at;
    RowFlow(job, n, From(job.shards[at]), n == at, n == at);
  }

  lemma {:induction false} FlowFrom(job: Job, n: nat, s: Address, at: nat)
    requires job.Valid() && n <= |job.shards| && job.kind != ERC721
    requires at < |job.shards| && job.shards[at] == s
    requires Distinct(job.shards)
    ensures Flow(CommandsUpTo(job, n), From(s)) == if at < n then Sent(job.pay[at]) + Sent(job.change[at]) else 0
  {
    hide Flow, RowCommands, Sent, CommandsUpTo, Distinct;
    if n == 0 {
      NoFlowYet(job, From(s));
    } else {
      FlowFrom(job, n - 1, s, at);
      FlowFromStep(job, n - 1, at);
    }
  }

  lemma NoFlowYet(job: Job, p: Key -> bool)
    requires job.Valid()
    ensures Flow(CommandsUpTo(job, 0), p) == 0
  {}

  /** What all rows together send as payment, or as change. */
  function SentPay(job: Job, n: nat): int
    requires job.Valid() && n <= |job.shards|
  {
    if n == 0 then 0 else SentPay(job, n - 1) + Sent(job.pay[n - 1])
  }

  function SentChange(job: Job, n: nat): int
    requires job.Valid() && n <= |job.shards|
  {
    if n == 0 then 0 else SentChange(job, n - 1) + Sent(job.change[n - 1])
  }

  ghost predicate Disjoint(a: seq<Address>, b: seq<Address>) {
    forall x | x in a :: x !in b
  }

  lemma {:induction false} FlowIntoPools(job: Job, n: nat)
    requires job.Valid() && n <= |job.shards| && job.kind != ERC721
    requires Disjoint(Recipients(job), job.changePool)
    ensures Flow(CommandsUpTo(job, n), IntoAny(Recipients(job))) == SentPay(job, n)
    ensures Flow(CommandsUpTo(job, n), IntoAny(job.changePool)) == SentChange(job, n)
  {
    hide Flow, RowCommands, Sent, CommandsUpTo, Recipients;
    if n == 0 {
      NoFlowYet(job, IntoAny(Recipients(job)));
      NoFlowYet(job, IntoAny(job.changePool));
    } else {
      FlowIntoPools(job, n - 1);
      RowFlow(job, n - 1, IntoAny(Recipients(job)), true, false);
      RowFlow(job, n - 1, IntoAny(job.changePool), false, true);
      FlowStep(job, n - 1, IntoAny(Recipients(job)));
      FlowStep(job, n - 1, IntoAny(job.changePool));
    }
  }

  /** Sums over rows of non-negative splits. */
  lemma {:induction false} SentTotals(job: Job, n: nat)
    requires job.Valid() && n <= |job.shards|
    requires forall i, x | 0 <= i < n && x in job.pay[i] :: x >= 0
    requires forall i, x | 0 <= i < n && x in job.change[i] :: x >= 0
    ensures SentPay(job, n) == Sum2(job.pay[..n])
    ensures SentChange(job, n) == Sum2(job.change[..n])
  {
    if n == 0 {
      assert job.pay[..0] == [] && job.change[..0] == [];
    } else {
      SentTotals(job, n - 1);
      SentIsSum(job.pay[n - 1]);
      SentIsSum(job.change[n - 1]);
      Sum2Snoc(job.pay, n - 1);
      Sum2Snoc(job.change, n - 1);
    }
  }

  lemma {:induction false} Sum2Snoc(rows: seq<seq<int>>, n: nat)
    requires n < |rows|
    ensures Sum2(rows[..n + 1]) == Sum2(rows[..n]) + Sum(rows[n])
  {
    if n == 0 {
      assert rows[..1] == [rows[0]] && rows[..0] == [];
      assert Sum2([rows[0]]) == Sum(rows[0]) + Sum2([rows[0]][1..]);
    } else {
      assert rows[..n + 1][1..] == rows[1..][..n] && rows[..n][1..] == rows[1..][..n - 1];
      Sum2Snoc(rows[1..], n - 1);
    }
  }

  lemma {:induction false} ChangeRecordsSum(job: Job, n: nat)
    requires job.Valid() && n <= |job.shards|
    ensures SumBy(ChangeUpTo(job, n), Amount) == SentChange(job, n)
  {
    hide SumBy;
    if n == 0 {
      SumByEmpty(ChangeUpTo(job, n), Amount);
    } else {
      ChangeRecordsSum(job, n - 1);
      SumByAppend(ChangeUpTo(job, n - 1), RowChange(job, n - 1), Amount);
      ChangeOutsSum(job, n - 1, |job.change[n - 1]|);
      assert job.change[n - 1][..|job.change[n - 1]|] == job.change[n - 1];
    }
  }

  /** `changeAmount` is exactly the value the fused commands carry into the change pool. */
  lemma ChangeAmountIsChangeFlow(job: Job)
    requires job.Valid() && job.kind != ERC721
    requires Disjoint(Recipients(job), job.changePool)
    ensures PreparedPlan(job).changeAmount == Flow(PreparedPlan(job).commands, IntoAny(job.changePool))
  {
    var n := |job.shards|;
    ChangeRecordsSum(job, n);
    FlowIntoPools(job, n);
    FusionPreservesFlow(CommandsUpTo(job, n), IntoAny(job.changePool));
  }

  // Announcements

  predicate Reached(outs: seq<Out>, a: Address) {
    exists k | 0 <= k < |outs| :: outs[k].to == a
  }

  ghost predicate AnnouncedOnce(anns: seq<Announcement>) {
    forall i, j | 0 <= i < j < |anns| :: anns[i].stealth != anns[j].stealth
  }

  lemma {:induction false} AnnounceAllFacts(job: Job, outs: seq<Out>)
    ensures AnnouncedOnce(AnnounceAll(job, [], outs))
    ensures forall a :: Announced(AnnounceAll(job, [], outs), a) <==> Reached(outs, a)
  {
    if outs != [] {
      var n := |outs| - 1;
      AnnounceAllFacts(job, outs[..n]);
      var before := AnnounceAll(job, [], outs[..n]);
      var after := AnnounceAll(job, [], outs);
      forall a ensures Announced(after, a) <==> Reached(outs, a) {
        assert Announced(after, a) <==> Announced(before, a) || outs[n].to == a by {
          if !Announced(before, outs[n].to) {
            assert after == before + [Announcement(outs[n].to, job.kind, job.token, outs[n].amount)];
            assert after[|before|].stealth == outs[n].to;
            forall k | 0 <= k < |before| ensures after[k] == before[k] {}
          }
        }
        assert Reached(outs, a) <==> Reached(outs[..n], a) || outs[n].to == a by {
          forall k | 0 <= k < n ensures outs[..n][k] == outs[k] {}
        }
      }
      if !Announced(before, outs[n].to) {
        forall k | 0 <= k < |before| ensures before[k].stealth != outs[n].to {}
      }
    }
  }

  predicate Destination(cmds: seq<Command>, a: Address) {
    exists k | 0 <= k < |cmds| :: cmds[k].to == a
  }

  lemma DestinationIn(cmds: seq<Command>, a: Address)
    ensures Destination(cmds, a) <==> exists c | c in cmds :: c.to == a
  {
    if Destination(cmds, a) {
      var k :| 0 <= k < |cmds| && cmds[k].to == a;
      assert cmds[k] in cmds;
    }
  }

  lemma DestinationPermutation(a: seq<Command>, b: seq<Command>, x: Address)
    requires multiset(a) == multiset(b)
    ensures Destination(a, x) ==> Destination(b, x)
  {
    if Destination(a, x) {
      var k :| 0 <= k < |a| && a[k].to == x;
      assert a[k] in multiset(b);
      DestinationIn(b, x);
    }
  }

  lemma DestinationAppend(a: seq<Command>, b: seq<Command>, x: Address)
    ensures Destination(a + b, x) <==> Destination(a, x) || Destination(b, x)
  {
    if Destination(a, x) {
      var k :| 0 <= k < |a| && a[k].to == x;
      assert (a + b)[k].to == x;
    }
    if Destination(b, x) {
      var k :| 0 <= k < |b| && b[k].to == x;
      assert (a + b)[|a| + k].to == x;
    }
  }

  lemma ReachedAppend(a: seq<Out>, b: seq<Out>, x: Address)
    ensures Reached(a + b, x) <==> Reached(a, x) || Reached(b, x)
  {
    if Reached(a, x) {
      var k :| 0 <= k < |a| && a[k].to == x;
      assert (a + b)[k].to == x;
    }
    if Reached(b, x) {
      var k :| 0 <= k < |b| && b[k].to == x;
      assert (a + b)[|a| + k].to == x;
    }
  }

  lemma OutsDestinations(job: Job, i: nat, outs: seq<Out>, a: Address)
    requires i < |job.shards|
    ensures Destination(ToCommands(job, i, outs), a) <==> Reached(outs, a)
  {
    var local := ToCommands(job, i, outs);
    forall k | 0 <= k < |outs| ensures local[k].to == outs[k].to {}
  }

  lemma RowDestinations(job: Job, i: nat, a: Address)
    requires job.Valid() && i < |job.shards|
    ensures Destination(RowCommands(job, i), a) <==> Reached(RowPay(job, i), a) || Reached(RowChange(job, i), a)
  {
    var outs := RowPay(job, i) + RowChange(job, i);
    var local := ToCommands(job, i, outs);
    ShuffleKeepsElements(local, job.d.order(i));
    DestinationPermutation(local, RowCommands(job, i), a);
    DestinationPermutation(RowCommands(job, i), local, a);
    OutsDestinations(job, i, outs, a);
    ReachedAppend(RowPay(job, i), RowChange(job, i), a);
  }

  lemma PrivateDestinationsStep(job: Job, n: nat, a: Address)
    requires job.Valid() && n < |job.shards| && job.mode.Private?
    ensures Destination(CommandsUpTo(job, n + 1), a)
       <==> Destination(CommandsUpTo(job, n), a) || Reached(RowPay(job, n), a) || Reached(RowChange(job, n), a)
    ensures Reached(AnnouncedOuts(job, n + 1), a)
       <==> Reached(AnnouncedOuts(job, n), a) || Reached(RowPay(job, n), a) || Reached(RowChange(job, n), a)
  {
    hide Destination, Reached, RowPay, RowChange, RowCommands;
    RowDestinations(job, n, a);
    DestinationAppend(CommandsUpTo(job, n), RowCommands(job, n), a);
    ReachedAppend(AnnouncedOuts(job, n), RowPay(job, n), a);
    ReachedAppend(AnnouncedOuts(job, n) + RowPay(job, n), RowChange(job, n), a);
  }

  lemma NothingReachedYet(job: Job, a: Address)
    requires job.Valid()
    ensures !Destination(CommandsUpTo(job, 0), a) && !Reached(AnnouncedOuts(job, 0), a)
  {}

  lemma {:induction false} PrivateDestinations(job: Job, n: nat, a: Address)
    requires job.Valid() && n <= |job.shards| && job.mode.Private?
    ensures Destination(CommandsUpTo(job, n), a) <==> Reached(AnnouncedOuts(job, n), a)
  {
    hide *;
    if n == 0 {
      NothingReachedYet(job, a);
    } else {
      PrivateDestinations(job, n - 1, a);
      PrivateDestinationsStep(job, n - 1, a);
    }
  }

  lemma {:induction false} NftsAre(cmds: seq<Command>, c: Command)
    ensures c in Nfts(cmds) <==> c in cmds && c.kind == ERC721
  {
    if cmds != [] {
      var n := |cmds| - 1;
      NftsAre(cmds[..n], c);
      assert cmds == cmds[..n] + [cmds[n]];
    }
  }

  lemma FusedDestinations(cmds: seq<Command>, a: Address)
    ensures Destination(Fused(cmds), a) <==> Destination(cmds, a)
  {
    var fused, nfts, keys := Fused(cmds), Nfts(cmds), FirstUses(cmds);
    FusedIsOneCommandPerKey(cmds);
    if Destination(fused, a) {
      var k :| 0 <= k < |fused| && fused[k].to == a;
      if k < |nfts| {
        assert fused[..|nfts|][k] == nfts[k];
        NftsAre(cmds, nfts[k]);
        DestinationIn(cmds, a);
      } else {
        var key := keys[k - |nfts|];
        FirstUsesAreTheKeys(cmds, key);
        var i :| 0 <= i < |cmds| && KeysOf(cmds)[i] == key;
        assert fused[|nfts| + (k - |nfts|)].to == key.to == cmds[i].to;
      }
    }
    if Destination(cmds, a) {
      var i :| 0 <= i < |cmds| && cmds[i].to == a;
      if cmds[i].kind == ERC721 {
        NftsAre(cmds, cmds[i]);
        assert cmds[i] in fused;
        DestinationIn(fused, a);
      } else {
        var key := KeyOf(cmds[i]);
        assert KeysOf(cmds)[i] == key;
        FirstUsesAreTheKeys(cmds, key);
        var j :| 0 <= j < |keys| && keys[j] == key;
        assert fused[|nfts| + j].to == a;
      }
    }
  }

  /** A private plan announces exactly the addresses it pays, each once. */
  lemma PrivatePlanAnnouncesItsOutputs(job: Job)
    requires job.Valid() && job.mode.Private?
    ensures var p := PreparedPlan(job);
      && AnnouncedOnce(p.announcements)
      && (forall a :: Announced(p.announcements, a) <==> Destination(p.commands, a))
  {
    var n := |job.shards|;
    var p := PreparedPlan(job);
    AnnounceAllFacts(job, AnnouncedOuts(job, n));
    forall a ensures Announced(p.announcements, a) <==> Destination(p.commands, a) {
      PrivateDestinations(job, n, a);
      FusedDestinations(CommandsUpTo(job, n), a);
    }
  }

  // ERC721

  /** The matrices selection returns for a token id. */
  predicate NftJob(job: Job, tokenId: int) {
    job.Valid() && job.kind == ERC721 && |job.shards| == 1 && job.pay == [[tokenId]] && job.change == [[]]
  }

  lemma NftOuts(job: Job, tokenId: int)
    requires NftJob(job, tokenId)
    ensures RowPay(job, 0) + RowChange(job, 0)
         == if job.mode.Public? && tokenId <= 0 then [] else [Out(PayTarget(job, 0, 0), tokenId)]
  {
    assert job.pay[0] == [tokenId] && job.change[0] == [];
    assert PayOuts(job, 0, 0) == [] && ChangeOuts(job, 0, 0) == [];
    assert RowPay(job, 0) == PayOuts(job, 0, 0) + if SkipsPayment(job, tokenId) then [] else [Out(PayTarget(job, 0, 0), tokenId)];
    assert RowChange(job, 0) == [];
  }

  lemma OneNft(c: Command)
    requires c.kind == ERC721
    ensures Fused([c]) == [c]
  {
    assert [c][..0] == [];
    assert Nfts([]) == [] && Nfts([c]) == [] + [c] == [c];
    assert Merge([]) == [] && Merge([c]) == Merge([]);
  }

  /** A token id is sent by exactly one command, except that the public mode drops ids that are not positive. */
  lemma NftPlan(job: Job, tokenId: int)
    requires NftJob(job, tokenId)
    ensures var p := PreparedPlan(job);
      if job.mode.Public? && tokenId <= 0 then p.commands == []
      else p.commands == [Command(job.shards[0], ERC721, job.token, PayTarget(job, 0, 0), tokenId)]
  {
    hide PayOuts, RowPay, RowChange, Fused, PayTarget;
    NftOuts(job, tokenId);
    var outs := RowPay(job, 0) + RowChange(job, 0);
    assert CommandsUpTo(job, 0) == [];
    assert CommandsUpTo(job, 1) == [] + RowCommands(job, 0) == RowCommands(job, 0);
    if job.mode.Public? && tokenId <= 0 {
      assert ToCommands(job, 0, outs) == [];
      NothingFused();
    } else {
      var c := Command(job.shards[0], ERC721, job.token, PayTarget(job, 0, 0), tokenId);
      assert ToCommands(job, 0, outs) == [c];
      OneNft(c);
    }
  }

  lemma NothingFused()
    ensures Fused([]) == []
  {}

}
