/**
 How much of the payment each selected shard carries (the allocation loop of
 `runSelectionEngine`): the rolling look-ahead of the early shards and the joint phase of the last two.
*/
module Allocation {
  import opened Arithmetic
  import opened Seqs
  import opened Randomness
  import opened Splitting

  /** The least an early shard has to pay, given what later shards can still cover. */
  function FloorConstraint(needed: int, future: int, dust: int): int {
    if needed > future then needed - future else dust
  }

  function EarlyContribution(balance: int, needed: int, future: int, dust: int, draw: Draw): int {
    var floor := FloorConstraint(needed, future, dust);
    var most := balance - dust;
    var contribution :=
      if floor > most then balance
      else if most > floor then floor + (most - floor) * Pick(draw, 100) / 100
      else floor;
    if contribution > needed then needed else contribution
  }

  function JointSplit(needed: int, draw: Draw): int {
    TruncDiv(needed * (Pick(draw, 40) + 30), 100)
  }

  /** The guard of the safety valve in the joint phase. */
  predicate Valve(needed: int, b0: int, b1: int, dust: int, draw: Draw) {
    var c := JointSplit(needed, draw);
    c > b0 - dust || needed - c > b1 - dust
  }

  /** Contributions of the last two shards; Err is the inner "Insufficient" error. */
  function Joint(needed: int, b0: int, b1: int, dust: int, draw: Draw): Result<(int, int), string> {
    var c := JointSplit(needed, draw);
    if !Valve(needed, b0, b1, dust, draw) then Ok((c, needed - c))
    else if needed > b0 + b1 then Err("Insufficient")
    else if needed == b0 + b1 then Ok((b0, b1))
    else if needed > b0 then Ok((b0, needed - b0))
    else Ok((needed - b1, b1))
  }

  /** Targets for the shards with these balances; i is the position of the first of them. */
  function Targets(balances: seq<int>, needed: int, dust: int, draw: nat -> Draw, i: nat): (r: Result<seq<int>, string>)
    ensures r.Ok? ==> |r.value| == |balances|
    decreases |balances|
  {
    if balances == [] then Ok([])
    else if |balances| == 2 then
      match Joint(needed, balances[0], balances[1], dust, draw(i))
      case Err(e) => Err(e)
      case Ok(pair) => Ok([pair.0, pair.1])
    else
      var c := EarlyContribution(balances[0], needed, Sum(balances[1..]), dust, draw(i));
      match Targets(balances[1..], needed - c, dust, draw, i + 1)
      case Err(e) => Err(e)
      case Ok(rest) => Ok([c] + rest)
  }

  /** What is still needed when the joint phase begins (or after the only shard). */
  function JointNeed(balances: seq<int>, needed: int, dust: int, draw: nat -> Draw, i: nat): int
    decreases |balances|
  {
    if |balances| <= 2 then needed
    else JointNeed(balances[1..], needed - EarlyContribution(balances[0], needed, Sum(balances[1..]), dust, draw(i)),
                   dust, draw, i + 1)
  }

  /**
   The last branch of the valve takes `needed - b1` from the first shard. It is meant for a need that
   exceeds b1; when the need is below both balances, the contribution is negative.
  */
  predicate Misallocates(needed: int, b0: int, b1: int, dust: int, draw: Draw) {
    Valve(needed, b0, b1, dust, draw) && needed <= b0 && needed < b1
  }

  ghost predicate Positive(balances: seq<int>) {
    forall k | 0 <= k < |balances| :: balances[k] > 0
  }

  ghost predicate Within(targets: seq<int>, balances: seq<int>) {
    |targets| == |balances| && forall k | 0 <= k < |targets| :: 0 <= targets[k] <= balances[k]
  }

  /** The call can be made: there is enough, and the amount and the threshold are not negative. */
  ghost predicate Payable(balances: seq<int>, needed: int, dust: int) {
    Positive(balances) && 0 <= needed <= Sum(balances) && dust >= 0
  }

  lemma EarlyContributionBounds(balance: int, needed: int, future: int, dust: int, draw: Draw)
    requires balance > 0 && future >= 0 && dust >= 0
    requires 0 <= needed <= balance + future
    ensures var c := EarlyContribution(balance, needed, future, dust, draw);
      0 <= c <= balance && c <= needed && needed - c <= future
  {
    var floor := FloorConstraint(needed, future, dust);
    var most := balance - dust;
    if floor <= most {
      var range := most - floor;
      var p := Pick(draw, 100);
      assert range * p <= range * 100 by { MulLe(p, 100, range); }
      assert 0 <= range * p / 100 <= range;
    }
  }

  lemma JointSplitBounds(needed: int, draw: Draw)
    requires needed >= 0
    ensures 0 <= JointSplit(needed, draw) <= needed
    ensures needed * 30 <= JointSplit(needed, draw) * 100 + 99
    ensures JointSplit(needed, draw) * 100 <= needed * 69
  {
    var w := Pick(draw, 40) + 30;
    assert needed * 30 <= needed * w <= needed * 69 by { MulLe(30, w, needed); MulLe(w, 69, needed); }
  }

  /** The joint phase never throws, always pays what is needed, and stays in range unless it misallocates. */
  lemma JointFacts(needed: int, b0: int, b1: int, dust: int, draw: Draw)
    requires b0 > 0 && b1 > 0 && dust >= 0 && 0 <= needed <= b0 + b1
    ensures Joint(needed, b0, b1, dust, draw).Ok?
    ensures var p := Joint(needed, b0, b1, dust, draw).value; p.0 + p.1 == needed
    ensures var p := Joint(needed, b0, b1, dust, draw).value;
      (0 <= p.0 <= b0 && 0 <= p.1 <= b1) <==> !Misallocates(needed, b0, b1, dust, draw)
  {
    JointSplitBounds(needed, draw);
  }

  lemma TailPayable(balances: seq<int>, needed: int, dust: int, draw: Draw)
    requires Payable(balances, needed, dust) && balances != []
    ensures var c := EarlyContribution(balances[0], needed, Sum(balances[1..]), dust, draw);
      Payable(balances[1..], needed - c, dust) && 0 <= c <= balances[0] && c <= needed
  {
    SumNonNegative(balances[1..]);
    EarlyContributionBounds(balances[0], needed, Sum(balances[1..]), dust, draw);
  }

  /** For every pool and every draw: the inner throw is unreachable and the targets add up to the amount. */
  lemma {:induction false} TargetsPayTheAmount(balances: seq<int>, needed: int, dust: int, draw: nat -> Draw, i: nat)
    requires Payable(balances, needed, dust)
    ensures Targets(balances, needed, dust, draw, i).Ok?
    ensures var t := Targets(balances, needed, dust, draw, i).value; |t| == |balances| && Sum(t) == needed
    decreases |balances|
  {
    if |balances| == 2 {
      SumPair(balances);
      JointFacts(needed, balances[0], balances[1], dust, draw(i));
      SumPair(Targets(balances, needed, dust, draw, i).value);
    } else if balances != [] {
      var c := EarlyContribution(balances[0], needed, Sum(balances[1..]), dust, draw(i));
      TailPayable(balances, needed, dust, draw(i));
      TargetsPayTheAmount(balances[1..], needed - c, dust, draw, i + 1);
      SumCons(c, Targets(balances[1..], needed - c, dust, draw, i + 1).value);
    }
  }

  /** When the joint phase misallocates: its guard, on the need that reaches it. */
  predicate PoolMisallocates(balances: seq<int>, needed: int, dust: int, draw: nat -> Draw, i: nat) {
    var n := |balances|;
    n >= 2 && Misallocates(JointNeed(balances, needed, dust, draw, i), balances[n - 2], balances[n - 1], dust, draw(i + n - 2))
  }

  lemma WithinCons(c: int, rest: seq<int>, balances: seq<int>)
    requires |balances| == |rest| + 1 && 0 <= c <= balances[0]
    ensures Within([c] + rest, balances) <==> Within(rest, balances[1..])
  {
    if Within([c] + rest, balances) {
      forall k | 0 <= k < |rest| ensures 0 <= rest[k] <= balances[1..][k] {
        assert ([c] + rest)[k + 1] == rest[k];
      }
    }
  }

  /** The early phase hands its need on: the guard is the same one step later. */
  lemma MisallocationOfTail(balances: seq<int>, needed: int, dust: int, draw: nat -> Draw, i: nat)
    requires |balances| != 2 && balances != []
    ensures PoolMisallocates(balances, needed, dust, draw, i)
       <==> PoolMisallocates(balances[1..], needed - EarlyContribution(balances[0], needed, Sum(balances[1..]), dust, draw(i)),
                             dust, draw, i + 1)
  {
    var n := |balances|;
    if n >= 3 {
      assert balances[1..][n - 3] == balances[n - 2] && balances[1..][n - 2] == balances[n - 1];
      assert i + 1 + (n - 1) - 2 == i + n - 2;
    }
  }

  /** Every target lies between 0 and its shard's balance exactly when the joint phase does not misallocate. */
  lemma {:induction false} TargetsWithinBalances(balances: seq<int>, needed: int, dust: int, draw: nat -> Draw, i: nat)
    requires Payable(balances, needed, dust)
    ensures Targets(balances, needed, dust, draw, i).Ok?
    ensures Within(Targets(balances, needed, dust, draw, i).value, balances)
       <==> !PoolMisallocates(balances, needed, dust, draw, i)
    decreases |balances|
  {
    TargetsPayTheAmount(balances, needed, dust, draw, i);
    if |balances| == 2 {
      SumPair(balances);
      JointFacts(needed, balances[0], balances[1], dust, draw(i));
      var t := Targets(balances, needed, dust, draw, i).value;
      assert Within(t, balances) <==> (0 <= t[0] <= balances[0] && 0 <= t[1] <= balances[1]);
    } else if balances != [] {
      var c := EarlyContribution(balances[0], needed, Sum(balances[1..]), dust, draw(i));
      TailPayable(balances, needed, dust, draw(i));
      TargetsWithinBalances(balances[1..], needed - c, dust, draw, i + 1);
      WithinCons(c, Targets(balances[1..], needed - c, dust, draw, i + 1).value, balances);
      MisallocationOfTail(balances, needed, dust, draw, i);
    }
  }

  /** Exactly when the joint phase is safe for every draw, in terms of the need and the two balances alone. */
  lemma JointSafeForEveryDraw(needed: int, b0: int, b1: int, dust: int)
    requires b0 > 0 && b1 > 0 && dust >= 0 && 0 <= needed <= b0 + b1
    ensures (forall draw: Draw :: !Misallocates(needed, b0, b1, dust, draw))
       <==> needed > b0 || needed >= b1 || (needed * 69 / 100 <= b0 - dust && needed - needed * 30 / 100 <= b1 - dust)
  {
    if needed * 69 / 100 <= b0 - dust && needed - needed * 30 / 100 <= b1 - dust {
      forall draw: Draw ensures !Misallocates(needed, b0, b1, dust, draw) {
        var w := Pick(draw, 40) + 30;
        assert needed * 30 <= needed * w <= needed * 69 by { MulLe(30, w, needed); MulLe(w, 69, needed); }
      }
    } else if needed <= b0 && needed < b1 {
      var low := EveryValueIsDrawn(0, 40);
      var high := EveryValueIsDrawn(39, 40);
      assert JointSplit(needed, low) == needed * 30 / 100;
      assert JointSplit(needed, high) == needed * 69 / 100;
      assert Misallocates(needed, b0, b1, dust, low) || Misallocates(needed, b0, b1, dust, high);
    }
  }

  /** A check on the pool alone that rules misallocation out: both last balances at least 10/3 of the dust. */
  lemma LargeLastBalancesAreSafe(balances: seq<int>, needed: int, dust: int, draw: nat -> Draw, i: nat)
    requires Payable(balances, needed, dust)
    requires forall k | 0 <= k < |balances| && k >= |balances| - 2 :: 3 * balances[k] >= 10 * dust
    ensures !PoolMisallocates(balances, needed, dust, draw, i)
  {
    var n := |balances|;
    if n >= 2 {
      JointNeedNonNegative(balances, needed, dust, draw, i);
      var r := JointNeed(balances, needed, dust, draw, i);
      JointSplitBounds(r, draw(i + n - 2));
      assert 3 * balances[n - 2] >= 10 * dust && 3 * balances[n - 1] >= 10 * dust;
    }
  }

  /** When all shards but the last cannot cover the need, what reaches the joint phase exceeds its first balance. */
  lemma {:induction false} NeedStaysLarge(balances: seq<int>, needed: int, dust: int, draw: nat -> Draw, i: nat)
    requires Payable(balances, needed, dust) && |balances| >= 2 && needed > Sum(balances[..|balances| - 1])
    ensures JointNeed(balances, needed, dust, draw, i) > balances[|balances| - 2]
    decreases |balances|
  {
    var n := |balances|;
    if n == 2 {
      assert balances[..1] == [balances[0]] && [balances[0]][1..] == [];
    } else {
      TailPayable(balances, needed, dust, draw(i));
      assert balances[..n - 1][1..] == balances[1..][..n - 2];
      NeedStaysLarge(balances[1..],
        needed - EarlyContribution(balances[0], needed, Sum(balances[1..]), dust, draw(i)), dust, draw, i + 1);
    }
  }

  /** The shortest selection is always safe, whatever the dust threshold: only swept shards make the need small. */
  lemma ShortestSelectionIsSafe(balances: seq<int>, needed: int, dust: int, draw: nat -> Draw, i: nat)
    requires Payable(balances, needed, dust) && (balances != [] ==> needed > Sum(balances[..|balances| - 1]))
    ensures !PoolMisallocates(balances, needed, dust, draw, i)
  {
    if |balances| >= 2 { NeedStaysLarge(balances, needed, dust, draw, i); }
  }

  lemma {:induction false} JointNeedNonNegative(balances: seq<int>, needed: int, dust: int, draw: nat -> Draw, i: nat)
    requires Payable(balances, needed, dust)
    ensures JointNeed(balances, needed, dust, draw, i) >= 0
    decreases |balances|
  {
    if |balances| > 2 {
      TailPayable(balances, needed, dust, draw(i));
      JointNeedNonNegative(balances[1..],
        needed - EarlyContribution(balances[0], needed, Sum(balances[1..]), dust, draw(i)), dust, draw, i + 1);
    }
  }

  /** The loop on a concrete input: 50 is needed from balances 100 and 1000000, and the first target is negative. */
  lemma TinyBalanceMisallocates(draw: nat -> Draw)
    ensures Payable([100, 1_000_000], 50, 10_000)
    ensures Targets([100, 1_000_000], 50, 10_000, draw, 0) == Ok([-999_950, 1_000_000])
  {
    assert [100, 1_000_000][1..] == [1_000_000];
    JointSplitBounds(50, draw(0));
  }

  // What each shard pays, read off the targets

  /**
   An early shard pays all that is still needed, or its whole balance, or leaves itself change of at least the threshold.
   What it has to pay is what the later shards cannot, or the threshold: when it cannot pay that and keep the threshold too, it
   pays the smaller of balance and need.
  */
  ghost predicate EarlyRule(paid: int, balance: int, needed: int, future: int, dust: int) {
    var duty := if needed > future then needed - future else dust;
    && 0 <= paid <= needed && paid <= balance
    && (paid == needed || paid == balance || balance - paid >= dust)
    && (duty > balance - dust ==> paid == if balance < needed then balance else needed)
    && (duty <= balance - dust ==> (if needed < duty then needed else duty) <= paid <= balance - dust)
  }

  /**
   The last two shards either share the need, 30 to 69 per cent for the first, and both keep the threshold, or one hands
   over its whole balance: the first when the need exceeds it, else the last. They share whenever every share leaves both the threshold.
  */
  ghost predicate JointRule(p0: int, p1: int, b0: int, b1: int, needed: int, dust: int) {
    && p0 + p1 == needed
    && (Shared(p0, p1, b0, b1, needed, dust) || (if needed > b0 then p0 == b0 else p1 == b1))
    && (needed * 69 / 100 <= b0 - dust && needed - needed * 30 / 100 <= b1 - dust ==> Shared(p0, p1, b0, b1, needed, dust))
  }

  predicate Shared(p0: int, p1: int, b0: int, b1: int, needed: int, dust: int) {
    needed * 30 / 100 <= p0 <= needed * 69 / 100 && p0 <= b0 - dust && p1 <= b1 - dust
  }

  lemma EarlyFollowsRule(balance: int, needed: int, future: int, dust: int, draw: Draw)
    requires balance > 0 && future >= 0 && dust >= 0 && 0 <= needed <= balance + future
    ensures EarlyRule(EarlyContribution(balance, needed, future, dust, draw), balance, needed, future, dust)
  {
    var floor := FloorConstraint(needed, future, dust);
    var most := balance - dust;
    if floor <= most {
      var range := most - floor;
      var p := Pick(draw, 100);
      assert range * p <= range * 100 by { MulLe(p, 100, range); }
      assert 0 <= range * p / 100 <= range;
    }
  }

  lemma JointFollowsRule(needed: int, b0: int, b1: int, dust: int, draw: Draw)
    requires b0 > 0 && b1 > 0 && dust >= 0 && 0 <= needed <= b0 + b1
    ensures Joint(needed, b0, b1, dust, draw).Ok?
    ensures var p := Joint(needed, b0, b1, dust, draw).value; JointRule(p.0, p.1, b0, b1, needed, dust)
  {
    var w := Pick(draw, 40) + 30;
    assert needed * 30 <= needed * w <= needed * 69 by { MulLe(30, w, needed); MulLe(w, 69, needed); }
  }

  /** What is needed of shard k and what the later ones hold. */
  function NeedAt(t: seq<int>, needed: int, k: nat): int
    requires k <= |t|
  {
    needed - Sum(t[..k])
  }

  /** Position k is before the joint phase. */
  predicate IsEarly(n: nat, k: nat) { k + 2 < n || (k == 0 && n == 1) }

  ghost predicate EveryRule(t: seq<int>, balances: seq<int>, needed: int, dust: int) {
    && |t| == |balances|
    && (forall k: nat | IsEarly(|t|, k) :: EarlyRule(t[k], balances[k], NeedAt(t, needed, k), Sum(balances[k + 1..]), dust))
    && (|t| >= 2 ==> var k := |t| - 2; JointRule(t[k], t[k + 1], balances[k], balances[k + 1], NeedAt(t, needed, k), dust))
  }

  lemma RuleCons(c: int, rest: seq<int>, balances: seq<int>, needed: int, dust: int)
    requires |balances| == |rest| + 1 != 2 && EveryRule(rest, balances[1..], needed - c, dust)
    requires EarlyRule(c, balances[0], needed, Sum(balances[1..]), dust)
    ensures EveryRule([c] + rest, balances, needed, dust)
  {
    hide EarlyRule, JointRule;
    var t := [c] + rest;
    forall k | 1 <= k <= |rest|
      ensures t[k] == rest[k - 1] && balances[k] == balances[1..][k - 1] && balances[k + 1..] == balances[1..][k..]
      ensures NeedAt(t, needed, k) == NeedAt(rest, needed - c, k - 1)
    {
      assert t[..k] == [c] + rest[..k - 1];
      SumCons(c, rest[..k - 1]);
    }
    assert t[..0] == [];
    forall k: nat | IsEarly(|t|, k)
      ensures EarlyRule(t[k], balances[k], NeedAt(t, needed, k), Sum(balances[k + 1..]), dust)
    {
      if k > 0 { assert IsEarly(|rest|, k - 1); }
    }
  }

  /** Every target follows its rule, for all draws. */
  lemma {:induction false} TargetsFollowTheRules(balances: seq<int>, needed: int, dust: int, draw: nat -> Draw, i: nat)
    requires Payable(balances, needed, dust)
    ensures Targets(balances, needed, dust, draw, i).Ok?
    ensures EveryRule(Targets(balances, needed, dust, draw, i).value, balances, needed, dust)
    decreases |balances|
  {
    hide EarlyContribution, EarlyRule, JointRule, Joint;
    TargetsPayTheAmount(balances, needed, dust, draw, i);
    var t := Targets(balances, needed, dust, draw, i).value;
    if |balances| == 2 {
      SumPair(balances);
      JointFollowsRule(needed, balances[0], balances[1], dust, draw(i));
      assert t[..0] == [];
    } else if balances != [] {
      var c := EarlyContribution(balances[0], needed, Sum(balances[1..]), dust, draw(i));
      TailPayable(balances, needed, dust, draw(i));
      SumNonNegative(balances[1..]);
      EarlyFollowsRule(balances[0], needed, Sum(balances[1..]), dust, draw(i));
      TargetsFollowTheRules(balances[1..], needed - c, dust, draw, i + 1);
      RuleCons(c, Targets(balances[1..], needed - c, dust, draw, i + 1).value, balances, needed, dust);
    }
  }

  /** An early shard that is free to choose pays any percentage of its range for some draw. */
  lemma EveryEarlyShareIsDrawn(balance: int, needed: int, future: int, dust: int, share: nat) returns (draw: Draw)
    requires share < 100 && 0 <= dust && future >= 0 && needed >= balance - dust
    requires var duty := if needed > future then needed - future else dust; 0 <= duty <= balance - dust
    ensures var duty := if needed > future then needed - future else dust;
      EarlyContribution(balance, needed, future, dust, draw) == duty + (balance - dust - duty) * share / 100
  {
    draw := EveryValueIsDrawn(share, 100);
    var range := balance - dust - if needed > future then needed - future else dust;
    assert range * share <= range * 100 by { MulLe(share, 100, range); }
  }

  /** Every percentage from 30 to 69 is drawn for the first of the last two shards. */
  lemma EveryJointShareIsDrawn(needed: int, b0: int, b1: int, dust: int, share: nat) returns (draw: Draw)
    requires needed >= 0 && 30 <= share < 70
    requires needed * share / 100 <= b0 - dust && needed - needed * share / 100 <= b1 - dust
    ensures Joint(needed, b0, b1, dust, draw) == Ok((needed * share / 100, needed - needed * share / 100))
  {
    draw := EveryValueIsDrawn(share - 30, 40);
    assert Pick(draw, 40) + 30 == share;
    assert needed * share >= 0 by { MulLe(0, share, needed); }
  }

  /** The joint phase leaves both shards a payment and a change. */
  predicate PairLeavesBoth(needed: int, b0: int, b1: int, dust: int, draw: Draw) {
    !Valve(needed, b0, b1, dust, draw) && needed * (Pick(draw, 40) + 30) >= 100
  }

  /**
   Whether every branch taken leaves a shard a payment and a change. The file header promises this
   for every spent shard; the valves that hand over a whole balance break it.
  */
  predicate LeavesBoth(balances: seq<int>, needed: int, dust: int, draw: nat -> Draw, i: nat)
    decreases |balances|
  {
    if balances == [] then true
    else if |balances| == 2 then PairLeavesBoth(needed, balances[0], balances[1], dust, draw(i))
    else
      var future := Sum(balances[1..]);
      var c := EarlyContribution(balances[0], needed, future, dust, draw(i));
      && needed > 0
      && (FloorConstraint(needed, future, dust) <= balances[0] - dust || needed < balances[0])
      && LeavesBoth(balances[1..], needed - c, dust, draw, i + 1)
  }

  /** Every spent shard has a non-zero payment and a non-zero change exactly when the guards say so. */
  lemma {:induction false} EveryShardPaysAndKeepsChange(balances: seq<int>, needed: int, dust: int, draw: nat -> Draw, i: nat)
    requires Payable(balances, needed, dust) && dust > 0
    ensures Targets(balances, needed, dust, draw, i).Ok?
    ensures var t := Targets(balances, needed, dust, draw, i).value;
      |t| == |balances| && (BothPositive(t, balances) <==> LeavesBoth(balances, needed, dust, draw, i))
    decreases |balances|
  {
    hide EarlyContribution, Joint, PairLeavesBoth, FloorConstraint, BothPositive;
    TargetsPayTheAmount(balances, needed, dust, draw, i);
    var t := Targets(balances, needed, dust, draw, i).value;
    if |balances| == 2 {
      SumPair(balances);
      JointPaysAndKeepsChange(needed, balances[0], balances[1], dust, draw(i));
      BothPositivePair(t, balances);
    } else if balances != [] {
      var future := Sum(balances[1..]);
      var c := EarlyContribution(balances[0], needed, future, dust, draw(i));
      TailPayable(balances, needed, dust, draw(i));
      EarlyPaysAndKeepsChange(balances[0], needed, future, dust, draw(i));
      EveryShardPaysAndKeepsChange(balances[1..], needed - c, dust, draw, i + 1);
      BothPositiveCons(c, Targets(balances[1..], needed - c, dust, draw, i + 1).value, balances);
    } else {
      NothingToLeave(t, balances);
    }
  }

  /** Every target is positive and below its balance. */
  ghost predicate BothPositive(t: seq<int>, balances: seq<int>) {
    |t| == |balances| && forall k | 0 <= k < |t| :: 0 < t[k] < balances[k]
  }

  lemma NothingToLeave(t: seq<int>, balances: seq<int>)
    requires t == [] == balances
    ensures BothPositive(t, balances)
  {}

  lemma BothPositivePair(t: seq<int>, balances: seq<int>)
    requires |t| == 2 == |balances|
    ensures BothPositive(t, balances) <==> 0 < t[0] < balances[0] && 0 < t[1] < balances[1]
  {}

  lemma BothPositiveCons(c: int, rest: seq<int>, balances: seq<int>)
    requires |balances| == |rest| + 1
    ensures BothPositive([c] + rest, balances) <==> 0 < c < balances[0] && BothPositive(rest, balances[1..])
  {
    var t := [c] + rest;
    if BothPositive(t, balances) {
      assert 0 < t[0] < balances[0];
      forall k | 0 <= k < |rest| ensures 0 < rest[k] < balances[1..][k] { assert t[k + 1] == rest[k]; }
    }
  }

  lemma JointPaysAndKeepsChange(needed: int, b0: int, b1: int, dust: int, draw: Draw)
    requires b0 > 0 && b1 > 0 && dust > 0 && 0 <= needed <= b0 + b1
    ensures Joint(needed, b0, b1, dust, draw).Ok?
    ensures var p := Joint(needed, b0, b1, dust, draw).value;
      (0 < p.0 < b0 && 0 < p.1 < b1) <==> PairLeavesBoth(needed, b0, b1, dust, draw)
  {
    JointSplitBounds(needed, draw);
  }

  lemma EarlyPaysAndKeepsChange(balance: int, needed: int, future: int, dust: int, draw: Draw)
    requires balance > 0 && future >= 0 && dust > 0 && 0 <= needed <= balance + future
    ensures var c := EarlyContribution(balance, needed, future, dust, draw);
      0 < c < balance <==> (needed > 0 && (FloorConstraint(needed, future, dust) <= balance - dust || needed < balance))
  {
    EarlyContributionBounds(balance, needed, future, dust, draw);
    var floor := FloorConstraint(needed, future, dust);
    var most := balance - dust;
    if floor <= most {
      var range := most - floor;
      var p := Pick(draw, 100);
      assert range * p <= range * 100 by { MulLe(p, 100, range); }
      assert 0 <= range * p / 100 <= range;
    }
  }

  /** One shard leaves both exactly when the amount is positive and below the balance, whatever the draw. */
  lemma OneShardPaysAndKeepsChange(balance: int, needed: int, dust: int, draw: nat -> Draw)
    requires Payable([balance], needed, dust) && dust > 0
    ensures LeavesBoth([balance], needed, dust, draw, 0) <==> 0 < needed < balance
  {
    assert [balance][1..] == [];
  }

  /**
   Two shards leave both for every draw exactly when the two extreme splits, 30 and 69 per cent, keep the dust threshold
   and 30 per cent of the amount is not zero.
  */
  lemma TwoShardsPayAndKeepChangeForEveryDraw(b0: int, b1: int, needed: int, dust: int)
    requires Payable([b0, b1], needed, dust) && dust > 0
    ensures (forall draw: Draw :: PairLeavesBoth(needed, b0, b1, dust, draw))
       <==> needed >= 4 && needed * 69 / 100 <= b0 - dust && needed - needed * 30 / 100 <= b1 - dust
    ensures forall draw: nat -> Draw :: LeavesBoth([b0, b1], needed, dust, draw, 0) <==> PairLeavesBoth(needed, b0, b1, dust, draw(0))
  {
    if needed >= 4 && needed * 69 / 100 <= b0 - dust && needed - needed * 30 / 100 <= b1 - dust {
      forall draw: Draw ensures PairLeavesBoth(needed, b0, b1, dust, draw) {
        var w := Pick(draw, 40) + 30;
        assert needed * 30 <= needed * w <= needed * 69 by { MulLe(30, w, needed); MulLe(w, 69, needed); }
      }
    } else {
      var low := EveryValueIsDrawn(0, 40);
      var high := EveryValueIsDrawn(39, 40);
      assert JointSplit(needed, low) == needed * 30 / 100;
      assert JointSplit(needed, high) == needed * 69 / 100;
      assert !PairLeavesBoth(needed, b0, b1, dust, low) || !PairLeavesBoth(needed, b0, b1, dust, high);
    }
  }
}
