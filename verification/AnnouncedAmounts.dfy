/** What an announcement says an address gets against what the plan sends there. */
module AnnouncedAmounts {
  import opened Seqs
  import opened Protocol
  import opened Randomness
  import opened Fusion
  import opened Plan
  import opened PlanProperties

  function SentTo(a: Address): Out -> int {
    (o: Out) => if o.to == a then o.amount else 0
  }

  /** The amount of the first output to an address. */
  function FirstTo(outs: seq<Out>, a: Address): int {
    if outs == [] then 0
    else
      var n := |outs| - 1;
      if Reached(outs[..n], a) then FirstTo(outs[..n], a) else if outs[n].to == a then outs[n].amount else 0
  }

  function Hits(a: Address): Out -> int {
    (o: Out) => if o.to == a then 1 else 0
  }

  /** How many outputs go to the address. */
  function Times(outs: seq<Out>, a: Address): int { SumBy(outs, Hits(a)) }

  /** All outputs of the first n rows, announced or not. */
  function AllOuts(job: Job, n: nat): seq<Out>
    requires job.Valid() && n <= |job.shards|
  {
    if n == 0 then [] else AllOuts(job, n - 1) + (RowPay(job, n - 1) + RowChange(job, n - 1))
  }

  /** The payments to a known recipient, who needs no announcement. */
  function UnannouncedOuts(job: Job, n: nat): seq<Out>
    requires job.Valid() && n <= |job.shards|
  {
    if n == 0 then [] else UnannouncedOuts(job, n - 1) + if job.mode.Private? then [] else RowPay(job, n - 1)
  }

  lemma {:induction false} AnnouncesTheFirst(job: Job, outs: seq<Out>)
    ensures forall ann | ann in AnnounceAll(job, [], outs) :: ann.identifier == FirstTo(outs, ann.stealth)
  {
    if outs != [] {
      var n := |outs| - 1;
      var before, after := AnnounceAll(job, [], outs[..n]), AnnounceAll(job, [], outs);
      AnnouncesTheFirst(job, outs[..n]);
      AnnounceAllFacts(job, outs[..n]);
      forall ann | ann in after ensures ann.identifier == FirstTo(outs, ann.stealth) {
        if ann in before {
          assert Announced(before, ann.stealth);
        } else {
          assert !Announced(before, outs[n].to) && ann == Announcement(outs[n].to, job.kind, job.token, outs[n].amount);
        }
      }
    }
  }

  lemma SumSnoc(outs: seq<Out>, f: Out -> int)
    requires outs != []
    ensures SumBy(outs, f) == SumBy(outs[..|outs| - 1], f) + f(outs[|outs| - 1])
  {
    var n := |outs| - 1;
    assert outs == outs[..n] + [outs[n]];
    SumByAppend(outs[..n], [outs[n]], f);
    SumBySingle(outs[n], f);
  }

  /** Something is sent to an address exactly when an output goes there. */
  lemma {:induction false} SentIffHit(outs: seq<Out>, a: Address)
    requires forall o | o in outs :: o.amount > 0
    ensures SumBy(outs, SentTo(a)) >= 0 && Times(outs, a) >= 0
    ensures (SumBy(outs, SentTo(a)) == 0 <==> Times(outs, a) == 0) && (Times(outs, a) > 0 <==> Reached(outs, a))
  {
    if outs != [] {
      assert outs[0] in outs;
      forall o | o in outs[1..] ensures o in outs {}
      SentIffHit(outs[1..], a);
      ReachedAppend([outs[0]], outs[1..], a);
      assert outs == [outs[0]] + outs[1..];
      assert Reached([outs[0]], a) <==> outs[0].to == a;
    }
  }

  lemma {:induction false} FirstAgainstAll(outs: seq<Out>, a: Address)
    requires forall o | o in outs :: o.amount > 0
    requires Reached(outs, a)
    ensures 0 < FirstTo(outs, a) <= SumBy(outs, SentTo(a))
    ensures FirstTo(outs, a) == SumBy(outs, SentTo(a)) <==> Times(outs, a) == 1
  {
    hide SumBy;
    var n := |outs| - 1;
    SumSnoc(outs, SentTo(a));
    SumSnoc(outs, Hits(a));
    assert outs[n] in outs;
    forall o | o in outs[..n] ensures o in outs {}
    SentIffHit(outs[..n], a);
    if Reached(outs[..n], a) {
      FirstAgainstAll(outs[..n], a);
    } else {
      assert outs == outs[..n] + [outs[n]];
      ReachedAppend(outs[..n], [outs[n]], a);
    }
  }

  lemma {:induction false} OutsFlow(job: Job, i: nat, outs: seq<Out>, a: Address)
    requires i < |job.shards| && job.kind != ERC721
    ensures Flow(ToCommands(job, i, outs), Into(a)) == SumBy(outs, SentTo(a))
  {
    if outs != [] {
      assert ToCommands(job, i, outs)[1..] == ToCommands(job, i, outs[1..]);
      OutsFlow(job, i, outs[1..], a);
      assert Into(a)(KeyOf(ToCommand(job, i, outs[0]))) <==> outs[0].to == a;
      assert Weight(Into(a))(ToCommand(job, i, outs[0])) == SentTo(a)(outs[0]);
    }
  }

  lemma RowSends(job: Job, i: nat, a: Address)
    requires job.Valid() && i < |job.shards| && job.kind != ERC721
    ensures Flow(RowCommands(job, i), Into(a)) == SumBy(RowPay(job, i) + RowChange(job, i), SentTo(a))
  {
    hide SumBy;
    var outs := RowPay(job, i) + RowChange(job, i);
    ShuffleKeepsElements(ToCommands(job, i, outs), job.d.order(i));
    SumByPermutation(RowCommands(job, i), ToCommands(job, i, outs), Weight(Into(a)));
    OutsFlow(job, i, outs, a);
  }

  lemma {:induction false} PlanSends(job: Job, n: nat, a: Address)
    requires job.Valid() && n <= |job.shards| && job.kind != ERC721
    ensures Flow(CommandsUpTo(job, n), Into(a)) == SumBy(AllOuts(job, n), SentTo(a))
  {
    hide SumBy, Flow, RowPay, RowChange, CommandsUpTo;
    if n > 0 {
      PlanSends(job, n - 1, a);
      FlowStep(job, n - 1, Into(a));
      RowSends(job, n - 1, a);
      SumByAppend(AllOuts(job, n - 1), RowPay(job, n - 1) + RowChange(job, n - 1), SentTo(a));
    } else {
      NoCommands(job, a);
    }
  }

  lemma NoCommands(job: Job, a: Address)
    requires job.Valid()
    ensures Flow(CommandsUpTo(job, 0), Into(a)) == 0 == SumBy(AllOuts(job, 0), SentTo(a))
  {}

  /** Every output is announced or goes to a known recipient. */
  lemma {:induction false} OutsAreSplit(job: Job, n: nat, f: Out -> int)
    requires job.Valid() && n <= |job.shards|
    ensures SumBy(AllOuts(job, n), f) == SumBy(AnnouncedOuts(job, n), f) + SumBy(UnannouncedOuts(job, n), f)
  {
    hide SumBy, RowPay, RowChange;
    if n > 0 {
      OutsAreSplit(job, n - 1, f);
      var pay, change := RowPay(job, n - 1), RowChange(job, n - 1);
      var told, untold := if job.mode.Private? then pay else [], if job.mode.Private? then [] else pay;
      SumByAppend(AllOuts(job, n - 1), pay + change, f);
      SumByAppend(pay, change, f);
      ConcatAssociates(AnnouncedOuts(job, n - 1), told, change);
      SumByAppend(AnnouncedOuts(job, n - 1), told + change, f);
      SumByAppend(told, change, f);
      SumByAppend(UnannouncedOuts(job, n - 1), untold, f);
      NoneSum(f);
    } else {
      NoneSum(f);
    }
  }

  lemma NoneSum(f: Out -> int)
    ensures SumBy([], f) == 0
  {}

  lemma {:induction false} OutsArePositive(job: Job, n: nat)
    requires job.Valid() && n <= |job.shards| && job.kind != ERC721
    ensures forall o | o in AnnouncedOuts(job, n) || o in UnannouncedOuts(job, n) :: o.amount > 0
  {
    if n > 0 {
      OutsArePositive(job, n - 1);
      PayOutsSum(job, n - 1, |job.pay[n - 1]|);
      ChangeOutsSum(job, n - 1, |job.change[n - 1]|);
    }
  }

  /**
   In both modes an announcement never overstates what its address receives from the fused commands, and states it
   exactly when one output of the plan goes there and no other.
  */
  lemma AnnouncedAmountAgainstReceived(job: Job, ann: Announcement)
    requires job.Valid() && job.kind != ERC721
    requires ann in PreparedPlan(job).announcements
    ensures var received := Flow(PreparedPlan(job).commands, Into(ann.stealth));
      && 0 < ann.identifier <= received
      && (ann.identifier == received <==> Times(AllOuts(job, |job.shards|), ann.stealth) == 1)
  {
    hide SumBy, AnnouncedOuts, UnannouncedOuts, AllOuts, CommandsUpTo;
    var n, a := |job.shards|, ann.stealth;
    var outs := AnnouncedOuts(job, n);
    PlanSends(job, n, a);
    OutsAreSplit(job, n, SentTo(a));
    OutsAreSplit(job, n, Hits(a));
    OutsArePositive(job, n);
    SentIffHit(UnannouncedOuts(job, n), a);
    FusionPreservesFlow(CommandsUpTo(job, n), Into(a));
    AnnouncesTheFirst(job, outs);
    AnnounceAllFacts(job, outs);
    assert Announced(AnnounceAll(job, [], outs), a);
    SentIffHit(outs, a);
    FirstAgainstAll(outs, a);
  }

  /** A public plan announces exactly its change addresses, each once; the known recipient is told nothing. */
  lemma PublicPlanAnnouncesItsChange(job: Job)
    requires job.Valid() && job.mode.Public?
    ensures var p := PreparedPlan(job);
      && AnnouncedOnce(p.announcements)
      && (forall a :: Announced(p.announcements, a) <==> Reached(p.changeShards, a))
      && (job.mode.to !in job.changePool ==> !Announced(p.announcements, job.mode.to))
  {
    var n := |job.shards|;
    PublicAnnouncesChange(job, n);
    AnnounceAllFacts(job, AnnouncedOuts(job, n));
    ChangeGoesToPool(job, n);
  }

  lemma {:induction false} PublicAnnouncesChange(job: Job, n: nat)
    requires job.Valid() && job.mode.Public? && n <= |job.shards|
    ensures AnnouncedOuts(job, n) == ChangeUpTo(job, n)
  {
    if n > 0 {
      PublicAnnouncesChange(job, n - 1);
      assert AnnouncedOuts(job, n - 1) + [] == AnnouncedOuts(job, n - 1);
    }
  }

  lemma {:induction false} ChangeGoesToPool(job: Job, n: nat)
    requires job.Valid() && n <= |job.shards|
    ensures forall o | o in ChangeUpTo(job, n) :: o.amount > 0 && o.to in job.changePool
  {
    if n > 0 {
      ChangeGoesToPool(job, n - 1);
      ChangeOutsSum(job, n - 1, |job.change[n - 1]|);
    }
  }

  // Change records by address

  lemma {:induction false} NothingSentTo(outs: seq<Out>, a: Address)
    requires forall o | o in outs :: o.to != a
    ensures SumBy(outs, SentTo(a)) == 0
  {
    if outs != [] {
      assert outs[0] in outs;
      forall o | o in outs[1..] ensures o in outs {}
      NothingSentTo(outs[1..], a);
    }
  }

  lemma {:induction false} ChangeByAddress(job: Job, n: nat, a: Address)
    requires job.Valid() && n <= |job.shards| && job.kind != ERC721 && a !in Recipients(job)
    ensures SumBy(ChangeUpTo(job, n), SentTo(a)) == SumBy(AllOuts(job, n), SentTo(a))
  {
    hide SumBy, RowPay, RowChange;
    if n > 0 {
      ChangeByAddress(job, n - 1, a);
      var pay, change := RowPay(job, n - 1), RowChange(job, n - 1);
      SumByAppend(ChangeUpTo(job, n - 1), change, SentTo(a));
      SumByAppend(AllOuts(job, n - 1), pay + change, SentTo(a));
      SumByAppend(pay, change, SentTo(a));
      PaysRecipients(job, n - 1);
      NothingSentTo(pay, a);
    }
  }

  lemma PaysRecipients(job: Job, i: nat)
    requires job.Valid() && i < |job.shards| && job.kind != ERC721
    ensures forall o | o in RowPay(job, i) :: o.to in Recipients(job)
  {
    PayOutsSum(job, i, |job.pay[i]|);
  }

  /** The records of a change address add up to what the fused commands carry there. */
  lemma ChangeRecordsAreFlows(job: Job, a: Address)
    requires job.Valid() && job.kind != ERC721 && a !in Recipients(job)
    ensures SumBy(PreparedPlan(job).changeShards, SentTo(a)) == Flow(PreparedPlan(job).commands, Into(a))
  {
    hide SumBy, Flow;
    var n := |job.shards|;
    ChangeByAddress(job, n, a);
    PlanSends(job, n, a);
    FusionPreservesFlow(CommandsUpTo(job, n), Into(a));
  }

  /** One record states what its address receives if and only if no other change output goes there. */
  lemma ChangeRecordAgainstReceived(job: Job, k: nat)
    requires job.Valid() && job.kind != ERC721 && k < |PreparedPlan(job).changeShards|
    requires PreparedPlan(job).changeShards[k].to !in Recipients(job)
    ensures var p := PreparedPlan(job); var o := p.changeShards[k];
      && 0 < o.amount <= Flow(p.commands, Into(o.to))
      && (o.amount == Flow(p.commands, Into(o.to)) <==> Times(p.changeShards, o.to) == 1)
  {
    hide Flow, CommandsUpTo;
    var outs := PreparedPlan(job).changeShards;
    var o, rest := outs[k], Without(outs, k);
    ChangeRecordsAreFlows(job, o.to);
    ChangeGoesToPool(job, |job.shards|);
    WithoutSum(outs, k, SentTo(o.to));
    WithoutSum(outs, k, Hits(o.to));
    forall x | x in rest ensures x in outs {}
    assert o in outs;
    SentIffHit(rest, o.to);
  }

  // Nothing about a plan's choices is fixed

  /** Every recipient of the pool can be drawn for every payment, and every change address for every change. */
  lemma EveryTargetIsDrawn(job: Job, i: nat, j: nat, k: nat, c: nat) returns (d: PlanDraws)
    requires job.Valid() && job.mode.Private? && k < |job.mode.pool| <= MAX_WORD && c < |job.changePool| <= MAX_WORD
    ensures PayTarget(job.(d := d), i, j) == job.mode.pool[k]
    ensures i < |job.shards| && j < |job.change[i]| && job.change[i][j] > 0 ==>
      var outs := ChangeOuts(job.(d := d), i, j + 1); outs != [] && outs[|outs| - 1] == Out(job.changePool[c], job.change[i][j])
  {
    var w := EveryAddressIsDrawn(job.mode.pool, k);
    var x := EveryAddressIsDrawn(job.changePool, c);
    d := job.d.(recipient := (_: nat) => (_: nat) => w, change := (_: nat) => (_: nat) => x);
  }

  /** The commands of a row can come in every order. */
  lemma EveryRowOrderIsDrawn(job: Job, i: nat, p: seq<Command>) returns (order: nat -> Draw)
    requires job.Valid() && i < |job.shards|
    requires multiset(p) == multiset(ToCommands(job, i, RowPay(job, i) + RowChange(job, i))) && |p| <= MAX_WORD
    ensures RowCommands(job.(d := job.d.(order := _ => order)), i) == p
  {
    var cmds := ToCommands(job, i, RowPay(job, i) + RowChange(job, i));
    assert |p| == |multiset(p)| == |cmds|;
    order := EveryOrderIsDrawn(cmds, p);
    var other := job.(d := job.d.(order := _ => order));
    SameOuts(job, other, i, |job.pay[i]|, |job.change[i]|);
    assert ToCommands(other, i, RowPay(other, i) + RowChange(other, i)) == cmds;
  }

  lemma {:induction false} SameOuts(job: Job, other: Job, i: nat, n: nat, c: nat)
    requires job.Valid() && i < |job.shards| && n <= |job.pay[i]| && c <= |job.change[i]|
    requires other == job.(d := other.d) && other.d.recipient == job.d.recipient && other.d.change == job.d.change
    ensures PayOuts(job, i, n) == PayOuts(other, i, n) && ChangeOuts(job, i, c) == ChangeOuts(other, i, c)
    decreases n + c
  {
    if n > 0 { SameOuts(job, other, i, n - 1, c); }
    if c > 0 { SameOuts(job, other, i, n, c - 1); }
  }
}
