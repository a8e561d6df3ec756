/**
 The relayer's check of a paymaster's deposit (relayer/service.ts) against the queue's debt (queue.ts), with what
 happens on chain meanwhile: broadcast transactions are mined at some time, with or without a watcher, and are charged then.
*/
module Escrow {
  import opened Arithmetic
  import opened Seqs
  import opened Protocol
  import opened QueueSpec
  import opened QueueProperties
  import RouterSpec

  /** The check before a relay is enqueued: the deposit less the cached debt covers the worst case. */
  predicate Admits(s: State, p: Address, cost: int, deposit: int) {
    deposit - DebtOf(s, p) >= cost
  }

  /** The queue, the relays broadcast but neither mined nor dropped, and the deposits on chain. */
  datatype World = World(queue: State, unmined: set<nat>, deposits: map<Address, nat>)

  datatype WorldEvent =
    | Local(event: Event)
    | Mined(id: nat, charge: nat)
    | Deposited(paymaster: Address, amount: nat)
    | Withdrawn(paymaster: Address, amount: nat)

  function DepositOf(w: World, p: Address): nat {
    if p in w.deposits then w.deposits[p] else 0
  }

  function Pays(w: World, p: Address, amount: nat): World {
    var d := DepositOf(w, p);
    w.(deposits := w.deposits[p := if amount <= d then d - amount else 0])
  }

  /** A dropped transaction is one mined at no charge. */
  ghost function WorldStep(w: World, e: WorldEvent): World
    requires InBounds(w.queue)
  {
    match e
    case Local(event) =>
      var sent := if event.Broadcast? && w.queue.current.Some? then {w.queue.current.value} else {};
      w.(queue := Step(w.queue, event), unmined := w.unmined + sent)
    case Mined(id, charge) =>
      if id !in w.unmined || id >= |w.queue.relays| then w
      else Pays(w, w.queue.relays[id].paymaster, charge).(unmined := w.unmined - {id})
    case Deposited(p, amount) => w.(deposits := w.deposits[p := DepositOf(w, p) + amount])
    case Withdrawn(p, amount) => Pays(w, p, amount)
  }

  /** Deposits move by what is charged, put in and taken out, and never below zero. */
  lemma DepositsMoveByTheEvent(w: World, e: WorldEvent, p: Address)
    requires InBounds(w.queue)
    ensures var before, after := DepositOf(w, p), DepositOf(WorldStep(w, e), p);
      match e
      case Local(_) => after == before
      case Mined(id, charge) =>
        var charged := if id in w.unmined && id < |w.queue.relays| && w.queue.relays[id].paymaster == p then charge else 0;
        after == if charged <= before then before - charged else 0
      case Deposited(q, amount) => after == before + if q == p then amount else 0
      case Withdrawn(q, amount) => var taken := if q == p then amount else 0; after == if taken <= before then before - taken else 0
  {
    hide Step;
  }

  // What is owed, by position of the relay

  function SumTo(n: nat, f: nat -> int): int {
    if n == 0 then 0 else SumTo(n - 1, f) + f(n - 1)
  }

  predicate Waits(r: Relay) { r.status == Pending || r.status == Submitting }

  function CostIf(s: State, p: Address, chosen: nat -> bool): nat -> int {
    (k: nat) => if k < |s.relays| && s.relays[k].paymaster == p && chosen(k) then s.relays[k].cost else 0
  }

  function IsWaiting(s: State): nat -> bool { (k: nat) => k < |s.relays| && Waits(s.relays[k]) }

  function IsCommitted(w: World): nat -> bool {
    (k: nat) => k < |w.queue.relays| && (Waits(w.queue.relays[k]) || k in w.unmined)
  }

  function IsLocked(s: State): nat -> bool { (k: nat) => k < |s.relays| && s.relays[k].status == Submitted }

  function IsForgotten(w: World): nat -> bool {
    (k: nat) => k < |w.queue.relays| && k in w.unmined && w.queue.relays[k].status != Submitted
  }

  function IsLanded(w: World): nat -> bool {
    (k: nat) => k < |w.queue.relays| && k !in w.unmined && w.queue.relays[k].status == Submitted
  }

  function Cost(s: State, p: Address, chosen: nat -> bool): int { SumTo(|s.relays|, CostIf(s, p, chosen)) }

  /** Everything of the paymaster that can still be charged: enqueued, or broadcast and not mined. */
  function Committed(w: World, p: Address): int { Cost(w.queue, p, IsCommitted(w)) }

  /** Enqueued and not yet broadcast. */
  function Waiting(w: World, p: Address): int { Cost(w.queue, p, IsWaiting(w.queue)) }

  /** Not mined, but its watcher gave up and its lock is gone. */
  function Forgotten(w: World, p: Address): int { Cost(w.queue, p, IsForgotten(w)) }

  /** Mined, but its lock is still held because the watcher has not seen the receipt. */
  function Landed(w: World, p: Address): int { Cost(w.queue, p, IsLanded(w)) }

  lemma {:induction false} SumToSame(n: nat, f: nat -> int, g: nat -> int)
    requires forall k: nat | k < n :: f(k) == g(k)
    ensures SumTo(n, f) == SumTo(n, g)
  {
    if n > 0 { SumToSame(n - 1, f, g); }
  }

  lemma {:induction false} SumToBelow(n: nat, f: nat -> int, g: nat -> int)
    requires forall k: nat | k < n :: f(k) <= g(k)
    ensures SumTo(n, f) <= SumTo(n, g)
  {
    if n > 0 { SumToBelow(n - 1, f, g); }
  }

  /** One term of a sum of terms that are not negative. */
  lemma {:induction false} SumToTerm(n: nat, f: nat -> int, k: nat)
    requires k < n && forall j: nat | j < n :: f(j) >= 0
    ensures f(k) <= SumTo(n, f)
  {
    SumToNonNegative(n - 1, f);
    if k < n - 1 { SumToTerm(n - 1, f, k); }
  }

  lemma {:induction false} SumToNonNegative(n: nat, f: nat -> int)
    requires forall j: nat | j < n :: f(j) >= 0
    ensures SumTo(n, f) >= 0
  {
    if n > 0 { SumToNonNegative(n - 1, f); }
  }

  lemma {:induction false} SumToSplit(n: nat, a: nat -> int, b: nat -> int, c: nat -> int, d: nat -> int, e: nat -> int)
    requires forall k: nat | k < n :: a(k) + b(k) == c(k) + d(k) + e(k)
    ensures SumTo(n, a) + SumTo(n, b) == SumTo(n, c) + SumTo(n, d) + SumTo(n, e)
  {
    if n > 0 { SumToSplit(n - 1, a, b, c, d, e); }
  }

  lemma {:induction false} DebtByPosition(s: State, n: nat, p: Address)
    requires n <= |s.relays|
    ensures SubmittedDebt(s.relays[..n], p) == SumTo(n, CostIf(s, p, IsLocked(s)))
  {
    if n > 0 {
      DebtByPosition(s, n - 1, p);
      assert s.relays[..n] == s.relays[..n - 1] + [s.relays[n - 1]];
      SumByAppend(s.relays[..n - 1], [s.relays[n - 1]], Owed(p));
      SumBySingle(s.relays[n - 1], Owed(p));
    }
  }

  // The invariant of the world

  ghost predicate Tracked(w: World) {
    && Sound(w.queue)
    && (forall k | 0 <= k < |w.queue.relays| :: w.queue.relays[k].cost >= 0)
    && (forall k | k in w.unmined :: k < |w.queue.relays| && w.queue.relays[k].status in {Submitted, Confirmed})
  }

  lemma DebtIsLocked(w: World, p: Address)
    requires Sound(w.queue)
    ensures DebtOf(w.queue, p) == Cost(w.queue, p, IsLocked(w.queue))
  {
    assert CacheAgrees(w.queue) && DebtFits(w.queue);
    DebtByPosition(w.queue, |w.queue.relays|, p);
    assert w.queue.relays[..|w.queue.relays|] == w.queue.relays;
  }

  /** What can still be charged, against what the check sees. */
  lemma CommittedAgainstDebt(w: World, p: Address)
    requires Tracked(w)
    ensures Committed(w, p) + Landed(w, p) == DebtOf(w.queue, p) + Waiting(w, p) + Forgotten(w, p)
  {
    DebtIsLocked(w, p);
    var s := w.queue;
    SumToSplit(|s.relays|, CostIf(s, p, IsCommitted(w)), CostIf(s, p, IsLanded(w)),
               CostIf(s, p, IsLocked(s)), CostIf(s, p, IsWaiting(s)), CostIf(s, p, IsForgotten(w)));
  }

  /**
   Every relay the check admits stays within the deposit if and only if the relays that wait and those the watchers
   forgot cost no more than the locks of relays that are mined already.
  */
  lemma CheckSufficesExactly(w: World, p: Address)
    requires Tracked(w)
    ensures (forall cost, deposit :: Admits(w.queue, p, cost, deposit) ==> Committed(w, p) + cost <= deposit)
       <==> Waiting(w, p) + Forgotten(w, p) <= Landed(w, p)
  {
    CommittedAgainstDebt(w, p);
    assert Admits(w.queue, p, 0, DebtOf(w.queue, p));
  }

  /** In particular, when the receipts of all mined relays were seen: if and only if nothing waits and nothing is forgotten. */
  lemma CheckSufficesExactlyWhenNothingIsUnseen(w: World, p: Address)
    requires Tracked(w) && Landed(w, p) == 0
    ensures (forall cost, deposit :: Admits(w.queue, p, cost, deposit) ==> Committed(w, p) + cost <= deposit)
       <==> Waiting(w, p) == 0 && Forgotten(w, p) == 0
  {
    CheckSufficesExactly(w, p);
    var s := w.queue;
    SumToNonNegative(|s.relays|, CostIf(s, p, IsWaiting(s)));
    SumToNonNegative(|s.relays|, CostIf(s, p, IsForgotten(w)));
  }

  // Steps

  /** The life of a relay: the statuses one event can lead to. */
  predicate Follows(before: Status, after: Status) {
    match before
    case Pending => after in {Pending, Submitting}
    case Submitting => after in {Submitting, Submitted, Failed}
    case Submitted => after in {Submitted, Confirmed}
    case Confirmed => after == Confirmed
    case Failed => after == Failed
  }

  lemma StartNextFollows(s: State, k: nat)
    requires forall id | id in s.queue :: id < |s.relays| && s.relays[id].status == Pending
    requires k < |s.relays|
    ensures |StartNext(s).relays| == |s.relays|
    ensures var r := StartNext(s).relays[k];
      r.cost == s.relays[k].cost && r.paymaster == s.relays[k].paymaster
      && (r.status == s.relays[k].status || (s.relays[k].status == Pending && r.status == Submitting))
  {
    if s.queue != [] { assert s.queue[0] in s.queue; }
  }

  /** What an event of the queue does to relay k. Only a broadcast makes a relay submitted. */
  lemma EventFollows(s: State, e: Event, k: nat)
    requires Ordered(s) && InBounds(s) && k < |s.relays|
    ensures |s.relays| <= |Step(s, e).relays|
    ensures var r := Step(s, e).relays[k];
      && r.cost == s.relays[k].cost && r.paymaster == s.relays[k].paymaster && Follows(s.relays[k].status, r.status)
      && (s.relays[k].status == Submitting && r.status == Submitted ==> e.Broadcast? && s.current == Some(k))
    ensures !e.Enqueue? ==> |Step(s, e).relays| == |s.relays|
  {
    hide StartNext;
    QueuedArePending(s);
    InBoundsOf(s);
    match e
    case Enqueue(p, cost) =>
      if !s.processing {
        var pushed := s.(relays := s.relays + [Relay(p, cost, Pending, 0)], queue := s.queue + [|s.relays|]);
        StartNextFollows(pushed.(processing := true), k);
      }
    case Broadcast(h) =>
      if s.current.Some? {
        var id := s.current.value;
        var relay := s.relays[id].(status := Submitted, hash := h);
        StartNextFollows(Register(s.(relays := s.relays[id := relay]), h, relay.paymaster, relay.cost)
                           .(settled := s.settled + [id]), k);
      }
    case BroadcastFails =>
      if s.current.Some? {
        var id := s.current.value;
        StartNextFollows(s.(relays := SetStatus(s.relays, id, Failed), settled := s.settled + [id]), k);
      }
    case Receipt(_) =>
    case TimesOut(_) =>
  }

  /** The relay an enqueue adds waits. */
  lemma EnqueueAdds(s: State, p: Address, cost: int)
    requires Ordered(s) && InBounds(s)
    ensures var t := Step(s, Enqueue(p, cost));
      |t.relays| == |s.relays| + 1 && t.relays[|s.relays|].(status := Pending) == Relay(p, cost, Pending, 0) && Waits(t.relays[|s.relays|])
  {
    QueuedArePending(s);
  }

  /** What the chain and the relayer's price allow: see the README for the withdrawals and the gas price. */
  ghost predicate Possible(w: World, e: WorldEvent) {
    match e
    case Local(event) => FreshHash(w.queue, event) && (event.Enqueue? ==> event.cost >= 0) && (event.Receipt? ==> event.id !in w.unmined)
    case Mined(id, charge) => id in w.unmined && id < |w.queue.relays| && charge <= w.queue.relays[id].cost
    case Deposited(_, _) => true
    case Withdrawn(p, amount) => amount <= DepositOf(w, p)
  }

  lemma TrackedStep(w: World, e: WorldEvent)
    requires Tracked(w) && Possible(w, e)
    ensures InBounds(w.queue) && Tracked(WorldStep(w, e))
  {
    hide Step, Sound;
    SoundIsOrdered(w.queue);
    if e.Local? {
      StepIsSound(w.queue, e.event);
      var s, t := w.queue, Step(w.queue, e.event);
      forall k: nat | k < |s.relays|
        ensures k < |t.relays| && t.relays[k].cost == s.relays[k].cost && Follows(s.relays[k].status, t.relays[k].status)
      {
        EventFollows(s, e.event, k);
      }
      if e.event.Enqueue? {
        EnqueueAdds(s, e.event.paymaster, e.event.cost);
      } else if s.relays != [] {
        EventFollows(s, e.event, 0);
      } else {
        NoRelays(s, e.event);
      }
      if e.event.Broadcast? && s.current.Some? { BroadcastSubmits(s, e.event.hash); }
    }
  }

  lemma SoundIsOrdered(s: State)
    requires Sound(s)
    ensures Ordered(s) && InBounds(s)
  {
    InBoundsOf(s);
  }

  lemma NoRelays(s: State, e: Event)
    requires Ordered(s) && InBounds(s) && s.relays == [] && !e.Enqueue?
    ensures Step(s, e).relays == []
  {
    FifoFacts(s);
  }

  lemma BroadcastSubmits(s: State, h: Hash)
    requires Ordered(s) && InBounds(s) && s.current.Some?
    ensures s.current.value < |Step(s, Broadcast(h)).relays| && Step(s, Broadcast(h)).relays[s.current.value].status == Submitted
  {
    InBoundsOf(s);
    QueuedArePending(s);
  }

  /** Of the queue's events only an enqueue raises what can still be charged, and only by its cost. */
  lemma LocalCommits(w: World, event: Event, p: Address)
    requires Tracked(w) && Possible(w, Local(event))
    ensures InBounds(w.queue)
    ensures Committed(WorldStep(w, Local(event)), p)
         <= Committed(w, p) + if event.Enqueue? && event.paymaster == p then event.cost else 0
  {
    hide Step, Sound, StartNext;
    SoundIsOrdered(w.queue);
    var s, t, w' := w.queue, Step(w.queue, event), WorldStep(w, Local(event));
    var f, g := CostIf(s, p, IsCommitted(w)), CostIf(t, p, IsCommitted(w'));
    var n := |s.relays|;
    forall k: nat | k < n ensures g(k) <= f(k) {
      EventFollows(s, event, k);
      if s.current == Some(k) { InBoundsOf(s); }
    }
    SumToBelow(n, g, f);
    if event.Enqueue? {
      EnqueueAdds(s, event.paymaster, event.cost);
    } else if n > 0 {
      EventFollows(s, event, 0);
    } else {
      NoRelays(s, event);
    }
  }

  /** Being mined ends a relay's commitment. */
  lemma MinedFrees(w: World, id: nat, charge: nat, p: Address)
    requires Tracked(w) && Possible(w, Mined(id, charge))
    ensures InBounds(w.queue)
    ensures var w' := WorldStep(w, Mined(id, charge)); var q := w.queue.relays[id].paymaster;
      Committed(w', p) <= Committed(w, p) - if p == q then w.queue.relays[id].cost else 0
  {
    hide Sound;
    SoundIsOrdered(w.queue);
    var s, w' := w.queue, WorldStep(w, Mined(id, charge));
    var f, g := CostIf(s, p, IsCommitted(w)), CostIf(s, p, IsCommitted(w'));
    SumToDropped(|s.relays|, f, g, id);
  }

  lemma {:induction false} SumToDropped(n: nat, f: nat -> int, g: nat -> int, k: nat)
    requires k < n && g(k) == 0 && forall j: nat | j < n && j != k :: g(j) == f(j)
    ensures SumTo(n, g) == SumTo(n, f) - f(k)
  {
    if k == n - 1 { SumToSame(n - 1, f, g); } else { SumToDropped(n - 1, f, g, k); }
  }

  // Runs

  /**
   A careful relayer and paymaster: a relay is enqueued only when admitted and nothing of the paymaster waits or is
   forgotten, and a paymaster leaves in its deposit what is committed.
  */
  ghost predicate Careful(w: World, e: WorldEvent) {
    match e
    case Local(event) =>
      event.Enqueue? ==>
        var p := event.paymaster;
        Admits(w.queue, p, event.cost, DepositOf(w, p)) && Waiting(w, p) == 0 && Forgotten(w, p) == 0
    case Withdrawn(p, amount) => amount + Committed(w, p) <= DepositOf(w, p)
    case _ => true
  }

  ghost predicate Covered(w: World) {
    Tracked(w) && forall p :: Committed(w, p) <= DepositOf(w, p)
  }

  lemma CarefulStepIsCovered(w: World, e: WorldEvent)
    requires Covered(w) && Possible(w, e) && Careful(w, e)
    ensures InBounds(w.queue) && Covered(WorldStep(w, e))
  {
    hide Step, Sound, StartNext, Cost, Tracked;
    TrackedStep(w, e);
    var w' := WorldStep(w, e);
    forall p ensures Committed(w', p) <= DepositOf(w', p) {
      match e
      case Local(event) =>
        LocalCommits(w, event, p);
        if event.Enqueue? && event.paymaster == p {
          CommittedAgainstDebt(w, p);
          LandedIsNonNegative(w, p);
        }
      case Mined(id, charge) => MinedFrees(w, id, charge, p);
      case Deposited(_, _) => SameQueue(w, w', p);
      case Withdrawn(_, _) => SameQueue(w, w', p);
    }
  }

  lemma LandedIsNonNegative(w: World, p: Address)
    requires Tracked(w)
    ensures Landed(w, p) >= 0
  {
    SumToNonNegative(|w.queue.relays|, CostIf(w.queue, p, IsLanded(w)));
  }

  lemma SameQueue(w: World, w': World, p: Address)
    requires w'.queue == w.queue && w'.unmined == w.unmined
    ensures Committed(w', p) == Committed(w, p)
  {
    SumToSame(|w.queue.relays|, CostIf(w.queue, p, IsCommitted(w)), CostIf(w.queue, p, IsCommitted(w')));
  }

  ghost predicate CarefulRun(w: World, es: seq<WorldEvent>)
    decreases |es|
  {
    es == [] || (InBounds(w.queue) && Possible(w, es[0]) && Careful(w, es[0]) && CarefulRun(WorldStep(w, es[0]), es[1..]))
  }

  ghost function RunWorld(w: World, es: seq<WorldEvent>): World
    requires CarefulRun(w, es)
    decreases |es|
  {
    if es == [] then w else RunWorld(WorldStep(w, es[0]), es[1..])
  }

  lemma {:induction false} CarefulRunFrom(w: World, es: seq<WorldEvent>)
    requires Covered(w) && CarefulRun(w, es)
    ensures Covered(RunWorld(w, es))
    decreases |es|
  {
    hide Covered, Careful, Possible, WorldStep;
    if es != [] {
      CarefulStepIsCovered(w, es[0]);
      CarefulRunFrom(WorldStep(w, es[0]), es[1..]);
    }
  }

  function Fresh(deposits: map<Address, nat>): World { World(EMPTY, {}, deposits) }

  /**
   Over every careful run no deposit is over-committed, and every transaction that is still to be mined finds its
   whole worst case in the deposit.
  */
  lemma EveryCarefulRunIsCovered(deposits: map<Address, nat>, es: seq<WorldEvent>)
    requires CarefulRun(Fresh(deposits), es)
    ensures var w := RunWorld(Fresh(deposits), es);
      && (forall p :: Committed(w, p) <= DepositOf(w, p))
      && (forall id | id in w.unmined :: id < |w.queue.relays| && w.queue.relays[id].cost <= DepositOf(w, w.queue.relays[id].paymaster))
  {
    hide Tracked, Committed, RunWorld, CarefulRun, Cost;
    NothingIsCommitted(deposits);
    CarefulRunFrom(Fresh(deposits), es);
    var w := RunWorld(Fresh(deposits), es);
    forall id | id in w.unmined
      ensures id < |w.queue.relays| && w.queue.relays[id].cost <= DepositOf(w, w.queue.relays[id].paymaster)
    {
      UnminedIsCommitted(w, id);
      assert Committed(w, w.queue.relays[id].paymaster) <= DepositOf(w, w.queue.relays[id].paymaster);
    }
  }

  lemma NothingIsCommitted(deposits: map<Address, nat>)
    ensures Covered(Fresh(deposits))
  {
    hide Sound;
    EmptyIsSound();
  }

  /** A transaction that is not mined is committed with its whole cost. */
  lemma UnminedIsCommitted(w: World, id: nat)
    requires Tracked(w) && id in w.unmined
    ensures id < |w.queue.relays| && w.queue.relays[id].cost <= Committed(w, w.queue.relays[id].paymaster)
  {
    hide Sound;
    SumToTerm(|w.queue.relays|, CostIf(w.queue, w.queue.relays[id].paymaster, IsCommitted(w)), id);
  }

  lemma EmptyIsSound()
    ensures Sound(EMPTY)
  {
    assert Reachable(EMPTY, []);
    EveryRunIsSound(EMPTY, []);
  }

  // Two inputs at which the check lets a deposit be over-committed

  /** The state after one broadcast under a fresh hash, for the relay behind it too. */
  lemma BroadcastOf(s: State, h: Hash)
    requires Sound(s) && s.current.Some? && h !in s.locks
    ensures InBounds(s) && s.current.value < |s.relays|
    ensures var id := s.current.value; var t := Step(s, Broadcast(h));
      && Sound(t) && InBounds(t) && t.locks.Keys == s.locks.Keys + {h}
      && t.relays == (var sent := s.relays[id := s.relays[id].(status := Submitted, hash := h)];
                      if s.queue == [] then sent
                      else (assert s.queue[0] in s.queue; sent[s.queue[0] := sent[s.queue[0]].(status := Submitting)]))
      && t.current == (if s.queue == [] then None else Some(s.queue[0]))
      && t.queue == (if s.queue == [] then [] else s.queue[1..])
  {
    hide Sound;
    SoundIsOrdered(s);
    StepIsSound(s, Broadcast(h));
    SoundIsOrdered(Step(s, Broadcast(h)));
  }

  lemma OneEnqueued(p: Address, cost: nat)
    ensures InBounds(EMPTY) && DebtOf(EMPTY, p) == 0
    ensures var s := Step(EMPTY, Enqueue(p, cost));
      && Sound(s) && InBounds(s) && s.locks == map[] && DebtOf(s, p) == 0 && s.processing
      && s.relays == [Relay(p, cost, Submitting, 0)] && s.queue == [] && s.current == Some(0)
  {
    hide Sound;
    EmptyIsSound();
    StepIsSound(EMPTY, Enqueue(p, cost));
    SoundIsOrdered(Step(EMPTY, Enqueue(p, cost)));
  }

  lemma TwoEnqueued(p: Address, cost: nat)
    ensures InBounds(EMPTY) && InBounds(Step(EMPTY, Enqueue(p, cost)))
    ensures var s := Step(Step(EMPTY, Enqueue(p, cost)), Enqueue(p, cost));
      && Sound(s) && InBounds(s) && s.locks == map[]
      && s.relays == [Relay(p, cost, Submitting, 0), Relay(p, cost, Pending, 0)] && s.queue == [1] && s.current == Some(0)
  {
    hide Sound;
    OneEnqueued(p, cost);
    var s1 := Step(EMPTY, Enqueue(p, cost));
    StepIsSound(s1, Enqueue(p, cost));
    SoundIsOrdered(Step(s1, Enqueue(p, cost)));
  }

  /** The claim that deposits are never over-committed fails while a relay waits: two of 60 pass against 100. */
  lemma TwoAdmittedRelaysOverCommit(p: Address, h: Hash, g: Hash)
    requires h != g
    ensures var s1 := Step(EMPTY, Enqueue(p, 60));
      && Admits(EMPTY, p, 60, 100) && InBounds(s1) && Admits(s1, p, 60, 100)
      && (var s2 := Step(s1, Enqueue(p, 60));
          InBounds(s2)
          && (var s3 := Step(s2, Broadcast(h));
              InBounds(s3) && DebtOf(Step(s3, Broadcast(g)), p) == 120))
  {
    hide Step, Sound, InBounds;
    OneEnqueued(p, 60);
    TwoEnqueued(p, 60);
    var s2 := Step(Step(EMPTY, Enqueue(p, 60)), Enqueue(p, 60));
    BroadcastOf(s2, h);
    BroadcastOf(Step(s2, Broadcast(h)), g);
    var s4 := Step(Step(s2, Broadcast(h)), Broadcast(g));
    assert s4.relays == [Relay(p, 60, Submitted, h), Relay(p, 60, Submitted, g)];
    DebtIsLocked(World(s4, {}, map[]), p);
    assert SumTo(0, CostIf(s4, p, IsLocked(s4))) == 0 && SumTo(1, CostIf(s4, p, IsLocked(s4))) == 60;
  }

  /**
   It fails as well when nothing waits: after a timeout the lock is gone while the transaction can still be mined,
   and the next relay of 60 passes against 100.
  */
  lemma TimedOutRelayIsForgotten(p: Address, h: Hash)
    ensures var w0, es := Fresh(map[p := 100]), [Local(Enqueue(p, 60)), Local(Broadcast(h)), Local(TimesOut(0))];
      CarefulRun(w0, es)
      && var w := RunWorld(w0, es);
         Tracked(w) && Waiting(w, p) == 0 && Forgotten(w, p) == 60
         && Admits(w.queue, p, 60, DepositOf(w, p)) && Committed(w, p) + 60 > DepositOf(w, p)
  {
    hide Step, Sound, InBounds, CarefulRun, RunWorld, Cost, LockSum, Register, Release;
    OneEnqueued(p, 60);
    var w0 := Fresh(map[p := 100]);
    NothingYet(w0, p);
    var s1 := Step(EMPTY, Enqueue(p, 60));
    BroadcastOf(s1, h);
    var s2 := Step(s1, Broadcast(h));
    assert s2.relays == [Relay(p, 60, Submitted, h)];
    StepIsSound(s2, TimesOut(0));
    Gone(s2);
    var w1, w2 := World(s1, {}, map[p := 100]), World(s2, {0}, map[p := 100]);
    var w := World(Step(s2, TimesOut(0)), {0}, map[p := 100]);
    var last := [Local(TimesOut(0))];
    var rest := [Local(Broadcast(h))] + last;
    assert [Local(TimesOut(0))] + [] == last;
    assert [Local(Enqueue(p, 60))] + rest == [Local(Enqueue(p, 60)), Local(Broadcast(h)), Local(TimesOut(0))];
    RunEmpty(w);
    RunCons(w2, Local(TimesOut(0)), w, []);
    RunCons(w1, Local(Broadcast(h)), w2, last);
    RunCons(w0, Local(Enqueue(p, 60)), w1, rest);
    assert w.queue.relays == [Relay(p, 60, Confirmed, h)] && w.unmined == {0};
    CommittedAgainstDebt(w, p);
    DebtIsLocked(w, p);
    OneRelay(w, p);
  }

  lemma RunCons(w: World, e: WorldEvent, w': World, rest: seq<WorldEvent>)
    requires InBounds(w.queue) && Possible(w, e) && Careful(w, e) && w' == WorldStep(w, e)
    ensures CarefulRun(w, [e] + rest) <==> CarefulRun(w', rest)
    ensures CarefulRun(w', rest) ==> RunWorld(w, [e] + rest) == RunWorld(w', rest)
  {
    assert ([e] + rest)[1..] == rest;
  }

  lemma RunEmpty(w: World)
    ensures CarefulRun(w, []) && RunWorld(w, []) == w
  {}

  lemma NothingYet(w: World, p: Address)
    requires w.queue.relays == []
    ensures Waiting(w, p) == 0 && Forgotten(w, p) == 0
  {}

  lemma Gone(s: State)
    requires InBounds(s) && |s.relays| == 1 && s.relays[0].status == Submitted
    ensures Step(s, TimesOut(0)).relays == [s.relays[0].(status := Confirmed)]
  {}

  lemma OneRelay(w: World, p: Address)
    requires |w.queue.relays| == 1 && w.queue.relays[0].status == Confirmed && w.unmined == {0} && w.queue.relays[0].paymaster == p
    ensures Waiting(w, p) == 0 && Landed(w, p) == 0 && Committed(w, p) == w.queue.relays[0].cost
    ensures Cost(w.queue, p, IsLocked(w.queue)) == 0
  {
    forall f: nat -> int ensures SumTo(1, f) == f(0) {
      assert SumTo(0, f) == 0;
    }
  }

  // The price

  /** The worst case is priced at the gas price of the check: it bounds the prefund exactly when the price does not rise. */
  lemma WorstCaseCoversPrefundExactly(m: RouterSpec.MeshCall, gasPrice: nat)
    ensures RouterSpec.Prefund(m) <= RouterSpec.MaxGas(m) * gasPrice <==> m.price <= gasPrice || RouterSpec.MaxGas(m) == 0
  {
    if m.price <= gasPrice {
      MulLe(m.price, gasPrice, RouterSpec.MaxGas(m));
    } else if RouterSpec.MaxGas(m) > 0 {
      MulLess(gasPrice, m.price, RouterSpec.MaxGas(m));
    }
  }
}
