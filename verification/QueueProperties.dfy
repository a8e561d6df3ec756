/** What holds in every interleaving of enqueues, broadcast outcomes and receipt watchers. */
module QueueProperties {
  import opened Seqs
  import opened Protocol
  import opened QueueSpec

  /** 0, 1, ..., n - 1. */
  function UpTo(n: nat): (s: seq<nat>)
    ensures |s| == n
  {
    seq(n, i => i)
  }

  /** First in, first out: what was started and what waits is everything enqueued, in order; all started but the current one are settled. */
  ghost predicate Fifo(s: State) {
    && s.started + s.queue == UpTo(|s.relays|)
    && s.started == s.settled + (if s.current.Some? then [s.current.value] else [])
  }

  /** A waiting entry means the worker is awake, and it is awake exactly while a broadcast is outstanding. */
  ghost predicate Awake(s: State) {
    && (s.processing <==> s.current.Some?)
    && (s.queue != [] ==> s.processing)
  }

  /** The status of every relay says where it is. */
  ghost predicate StatusesFit(s: State) {
    forall id | 0 <= id < |s.relays| ::
      && (s.relays[id].status == Pending <==> id >= |s.started|)
      && (s.relays[id].status == Submitting <==> s.current == Some(id))
  }

  ghost predicate HoldsLock(s: State, id: nat, h: Hash) {
    id < |s.relays| && s.relays[id].status == Submitted && s.relays[id].hash == h
  }

  ghost predicate SubmittedAreLocked(s: State) {
    forall id | 0 <= id < |s.relays| && s.relays[id].status == Submitted ::
      s.relays[id].hash in s.locks && s.locks[s.relays[id].hash] == Lock(s.relays[id].paymaster, s.relays[id].cost)
  }

  ghost predicate LocksAreSubmitted(s: State) {
    forall h | h in s.locks :: exists id: nat :: HoldsLock(s, id, h)
  }

  ghost predicate HashesDiffer(s: State) {
    forall i, j | 0 <= i < j < |s.relays| && s.relays[i].status == Submitted && s.relays[j].status == Submitted ::
      s.relays[i].hash != s.relays[j].hash
  }

  /** The locks are the submitted relays, one each. */
  ghost predicate LocksFit(s: State) {
    SubmittedAreLocked(s) && LocksAreSubmitted(s) && HashesDiffer(s)
  }

  /** A paymaster's debt by definition: the cost of its submitted relays. */
  function Owed(p: Address): Relay -> int {
    (r: Relay) => if r.status == Submitted && r.paymaster == p then r.cost else 0
  }

  function SubmittedDebt(relays: seq<Relay>, p: Address): int {
    SumBy(relays, Owed(p))
  }

  ghost predicate DebtFits(s: State) {
    forall p :: LockSum(s.locks, p) == SubmittedDebt(s.relays, p)
  }

  ghost predicate Ordered(s: State) {
    Fifo(s) && Awake(s) && StatusesFit(s)
  }

  ghost predicate Sound(s: State) {
    Ordered(s) && LocksFit(s) && CacheAgrees(s) && DebtFits(s)
  }

  lemma FifoFacts(s: State)
    requires Fifo(s)
    ensures InBounds(s)
    ensures |s.started| + |s.queue| == |s.relays|
    ensures forall k | 0 <= k < |s.started| :: s.started[k] == k
    ensures forall k | 0 <= k < |s.queue| :: s.queue[k] == |s.started| + k
    ensures s.current.Some? ==> |s.started| > 0 && s.current.value == |s.started| - 1
  {
    var all := UpTo(|s.relays|);
    forall k | 0 <= k < |s.started| ensures s.started[k] == k { assert all[k] == (s.started + s.queue)[k]; }
    forall k | 0 <= k < |s.queue| ensures s.queue[k] == |s.started| + k {
      assert all[|s.started| + k] == (s.started + s.queue)[|s.started| + k];
    }
    if s.current.Some? {
      assert s.started[|s.started| - 1] == s.current.value;
    }
  }

  /** A hash that no active lock holds; with distinct transaction hashes every broadcast has one. */
  predicate FreshHash(s: State, e: Event) {
    e.Broadcast? ==> e.hash !in s.locks
  }

  // Order

  /** A state between entries: nothing is being broadcast, everything started is settled. */
  ghost predicate BetweenEntries(s: State) {
    && s.processing
    && s.started == s.settled && s.started + s.queue == UpTo(|s.relays|)
    && (forall id | 0 <= id < |s.relays| ::
          (s.relays[id].status == Pending <==> id >= |s.started|) && s.relays[id].status != Submitting)
  }

  lemma StartNextIsOrdered(s: State)
    requires BetweenEntries(s)
    ensures (forall id | id in s.queue :: id < |s.relays|) && Ordered(StartNext(s))
  {
    var all := UpTo(|s.relays|);
    forall k | 0 <= k < |s.queue| ensures s.queue[k] == |s.started| + k {
      assert all[|s.started| + k] == (s.started + s.queue)[|s.started| + k];
    }
    if s.queue != [] {
      var t := StartNext(s);
      assert t.started + t.queue == s.started + s.queue;
      assert s.queue[0] == |s.started|;
    }
  }

  lemma UpToSnoc(n: nat)
    ensures UpTo(n + 1) == UpTo(n) + [n]
  {}

  lemma EnqueueIsOrdered(s: State, p: Address, cost: int)
    requires Ordered(s) && InBounds(s)
    ensures Ordered(Step(s, Enqueue(p, cost)))
  {
    FifoFacts(s);
    UpToSnoc(|s.relays|);
    var pushed := s.(relays := s.relays + [Relay(p, cost, Pending, 0)], queue := s.queue + [|s.relays|]);
    assert pushed.started + pushed.queue == (s.started + s.queue) + [|s.relays|];
    if !s.processing {
      assert s.settled + [] == s.settled;
      StartNextIsOrdered(pushed.(processing := true));
    }
  }

  lemma OutcomeIsOrdered(s: State, e: Event)
    requires Ordered(s) && InBounds(s) && (e.Broadcast? || e.BroadcastFails?)
    ensures Ordered(Step(s, e))
  {
    FifoFacts(s);
    if s.current.Some? {
      var id := s.current.value;
      var relay := if e.Broadcast? then s.relays[id].(status := Submitted, hash := e.hash) else s.relays[id].(status := Failed);
      var between := s.(relays := s.relays[id := relay], settled := s.settled + [id]);
      StartNextIsOrdered(between);
      if e.Broadcast? {
        var locked := Register(between, e.hash, relay.paymaster, relay.cost);
        StartNextIsOrdered(locked);
      }
    }
  }

  /** The discipline of the queue is kept by every event, with or without distinct hashes. */
  lemma StepIsOrdered(s: State, e: Event)
    requires Ordered(s)
    ensures InBounds(s) && Ordered(Step(s, e))
  {
    FifoFacts(s);
    match e
    case Enqueue(p, cost) => EnqueueIsOrdered(s, p, cost);
    case Broadcast(_) => OutcomeIsOrdered(s, e);
    case BroadcastFails => OutcomeIsOrdered(s, e);
    case Receipt(_) =>
    case TimesOut(_) =>
  }

  // Debt

  lemma DebtOfUpdate(relays: seq<Relay>, id: nat, r: Relay, p: Address)
    requires id < |relays|
    ensures SubmittedDebt(relays[id := r], p) == SubmittedDebt(relays, p) - Owed(p)(relays[id]) + Owed(p)(r)
  {
    hide SumBy;
    WithoutSum(relays, id, Owed(p));
    WithoutSum(relays[id := r], id, Owed(p));
    assert Without(relays[id := r], id) == Without(relays, id);
  }

  /** The head of the loop touches no lock and no submitted relay. */
  lemma StartNextKeepsDebt(s: State)
    requires forall id | id in s.queue :: id < |s.relays| && s.relays[id].status != Submitted
    requires LocksFit(s) && CacheAgrees(s) && DebtFits(s)
    ensures LocksFit(StartNext(s)) && CacheAgrees(StartNext(s)) && DebtFits(StartNext(s))
  {
    hide SumBy, LockSum, LocksFit;
    var t := StartNext(s);
    assert forall p :: DebtOf(t, p) == DebtOf(s, p);
    if s.queue == [] {
      SubmittedCarryOver(s, t);
    } else {
      var id := s.queue[0];
      assert id in s.queue;
      forall p ensures SubmittedDebt(t.relays, p) == SubmittedDebt(s.relays, p) {
        DebtOfUpdate(s.relays, id, t.relays[id], p);
      }
      SameSubmitted(s, t, id);
    }
  }

  /** The same locks and the same submitted relays fit as before. */
  lemma SubmittedCarryOver(s: State, t: State)
    requires LocksFit(s) && t.locks == s.locks
    requires forall k: nat | k < |s.relays| && s.relays[k].status == Submitted :: k < |t.relays| && t.relays[k] == s.relays[k]
    requires forall k: nat | k < |t.relays| && t.relays[k].status == Submitted :: k < |s.relays| && s.relays[k] == t.relays[k]
    ensures LocksFit(t)
  {
    forall h | h in t.locks ensures exists k: nat :: HoldsLock(t, k, h) {
      var k: nat :| HoldsLock(s, k, h);
      assert HoldsLock(t, k, h);
    }
  }

  lemma SameSubmitted(s: State, t: State, id: nat)
    requires LocksFit(s) && t.locks == s.locks && id < |s.relays|
    requires |t.relays| >= |s.relays|
    requires forall k | 0 <= k < |s.relays| && k != id :: t.relays[k] == s.relays[k]
    requires s.relays[id].status != Submitted && t.relays[id].status != Submitted
    requires forall k | |s.relays| <= k < |t.relays| :: t.relays[k].status != Submitted
    ensures LocksFit(t)
  {
    hide LocksFit;
    SubmittedCarryOver(s, t);
  }

  lemma RegisterFits(s: State, id: nat, h: Hash)
    requires id < |s.relays| && s.relays[id].status == Submitting && h !in s.locks
    requires LocksFit(s) && CacheAgrees(s) && DebtFits(s)
    ensures var relay := s.relays[id].(status := Submitted, hash := h);
      var t := Register(s.(relays := s.relays[id := relay]), h, relay.paymaster, relay.cost);
      LocksFit(t) && CacheAgrees(t) && DebtFits(t)
  {
    hide SumBy, LockSum;
    var relay := s.relays[id].(status := Submitted, hash := h);
    var moved := s.(relays := s.relays[id := relay]);
    var t := Register(moved, h, relay.paymaster, relay.cost);
    assert CacheAgrees(moved) by { assert forall p :: DebtOf(moved, p) == DebtOf(s, p); }
    RegisterKeepsCacheExactly(moved, h, relay.paymaster, relay.cost);
    forall p ensures LockSum(t.locks, p) == SubmittedDebt(t.relays, p) {
      LockSumAfterWrite(s.locks, h, Lock(relay.paymaster, relay.cost), p);
      DebtOfUpdate(s.relays, id, relay, p);
    }
    RegisteredLocks(s, t, id, relay);
  }

  lemma RegisteredLocks(s: State, t: State, id: nat, relay: Relay)
    requires LocksFit(s) && id < |s.relays| && s.relays[id].status == Submitting
    requires relay.status == Submitted && relay.hash !in s.locks
    requires t.relays == s.relays[id := relay] && t.locks == s.locks[relay.hash := Lock(relay.paymaster, relay.cost)]
    ensures LocksFit(t)
  {
    assert LocksAreSubmitted(t) by {
      forall h | h in t.locks ensures exists k: nat :: HoldsLock(t, k, h) {
        if h == relay.hash {
          assert HoldsLock(t, id, h);
        } else {
          var k: nat :| HoldsLock(s, k, h);
          assert HoldsLock(t, k, h);
        }
      }
    }
    assert SubmittedAreLocked(t) by {
      hide LocksAreSubmitted, HashesDiffer;
    }
    assert HashesDiffer(t) by {
      hide LocksAreSubmitted;
    }
  }

  lemma ReleaseFits(s: State, id: nat)
    requires id < |s.relays| && s.relays[id].status == Submitted
    requires LocksFit(s) && CacheAgrees(s) && DebtFits(s)
    ensures var t := Release(s.(relays := SetStatus(s.relays, id, Confirmed)), s.relays[id].hash, s.relays[id].paymaster);
      LocksFit(t) && CacheAgrees(t) && DebtFits(t)
  {
    hide SumBy, LockSum;
    var relay := s.relays[id];
    var moved := s.(relays := SetStatus(s.relays, id, Confirmed));
    var t := Release(moved, relay.hash, relay.paymaster);
    assert CacheAgrees(moved) by { assert forall p :: DebtOf(moved, p) == DebtOf(s, p); }
    ReleaseKeepsCacheExactly(moved, relay.hash, relay.paymaster);
    forall p ensures LockSum(t.locks, p) == SubmittedDebt(t.relays, p) {
      LockSumAfterRemoval(s.locks, relay.hash, p);
      DebtOfUpdate(s.relays, id, relay.(status := Confirmed), p);
    }
    ReleasedLocks(s, t, id);
  }

  lemma ReleasedLocks(s: State, t: State, id: nat)
    requires LocksFit(s) && id < |s.relays| && s.relays[id].status == Submitted
    requires t.relays == SetStatus(s.relays, id, Confirmed) && t.locks == s.locks - {s.relays[id].hash}
    ensures LocksFit(t)
  {
    forall h | h in t.locks ensures exists k: nat :: HoldsLock(t, k, h) {
      var k: nat :| HoldsLock(s, k, h);
      assert HoldsLock(t, k, h);
    }
  }

  lemma PushKeepsDebt(s: State, r: Relay)
    requires r.status == Pending && LocksFit(s) && CacheAgrees(s) && DebtFits(s)
    ensures var t := s.(relays := s.relays + [r], queue := s.queue + [|s.relays|]);
      LocksFit(t) && CacheAgrees(t) && DebtFits(t)
  {
    hide SumBy, LockSum, LocksFit;
    var t := s.(relays := s.relays + [r], queue := s.queue + [|s.relays|]);
    assert CacheAgrees(t) by { assert forall p :: DebtOf(t, p) == DebtOf(s, p); }
    forall p ensures SubmittedDebt(t.relays, p) == SubmittedDebt(s.relays, p) {
      SumByAppend(s.relays, [r], Owed(p));
      SumBySingle(r, Owed(p));
    }
    SubmittedCarryOver(s, t);
  }

  lemma QueuedArePending(s: State)
    requires Ordered(s)
    ensures forall id | id in s.queue :: id < |s.relays| && s.relays[id].status == Pending
  {
    FifoFacts(s);
  }

  /** Every event whose hash is not already locked keeps the whole invariant. */
  lemma StepIsSound(s: State, e: Event)
    requires Sound(s) && FreshHash(s, e)
    ensures InBounds(s) && Sound(Step(s, e))
  {
    hide LocksFit, CacheAgrees, DebtFits, Ordered;
    StepIsOrdered(s, e);
    InBoundsOf(s);
    QueuedArePending(s);
    match e
    case Enqueue(p, cost) =>
      PushKeepsDebt(s, Relay(p, cost, Pending, 0));
      if !s.processing { EnqueueKeepsDebt(s, p, cost); }
    case Broadcast(h) =>
      if s.current.Some? { BroadcastKeepsDebt(s, h); }
    case BroadcastFails =>
      if s.current.Some? { FailureKeepsDebt(s); }
    case Receipt(id) =>
      if id < |s.relays| && s.relays[id].status == Submitted { ReleaseFits(s, id); }
    case TimesOut(id) =>
      if id < |s.relays| && s.relays[id].status == Submitted { ReleaseFits(s, id); }
  }

  lemma InBoundsOf(s: State)
    requires Ordered(s)
    ensures InBounds(s) && (s.current.Some? ==> s.relays[s.current.value].status == Submitting)
    ensures s.current.Some? ==> s.current.value !in s.queue
  {
    FifoFacts(s);
  }

  /** StartNext on a state that differs in bookkeeping only. */
  lemma BookkeepingKeepsDebt(s: State, t: State)
    requires LocksFit(s) && CacheAgrees(s) && DebtFits(s)
    requires t.relays == s.relays && t.locks == s.locks && t.debt == s.debt
    ensures LocksFit(t) && CacheAgrees(t) && DebtFits(t)
  {
    hide SumBy, LockSum, LocksFit;
    assert forall p :: DebtOf(t, p) == DebtOf(s, p);
    SubmittedCarryOver(s, t);
  }

  lemma EnqueueKeepsDebt(s: State, p: Address, cost: int)
    requires Sound(s) && InBounds(s) && !s.processing
    ensures var t := Step(s, Enqueue(p, cost)); LocksFit(t) && CacheAgrees(t) && DebtFits(t)
  {
    QueuedArePending(s);
    hide LocksFit, CacheAgrees, DebtFits, Ordered;
    var pushed := s.(relays := s.relays + [Relay(p, cost, Pending, 0)], queue := s.queue + [|s.relays|]);
    PushKeepsDebt(s, Relay(p, cost, Pending, 0));
    BookkeepingKeepsDebt(pushed, pushed.(processing := true));
    StartNextKeepsDebt(pushed.(processing := true));
  }

  lemma BroadcastKeepsDebt(s: State, h: Hash)
    requires Sound(s) && InBounds(s) && s.current.Some? && h !in s.locks
    ensures var t := Step(s, Broadcast(h)); LocksFit(t) && CacheAgrees(t) && DebtFits(t)
  {
    hide LocksFit, CacheAgrees, DebtFits, Ordered, StartNext, Register;
    QueuedArePending(s);
    InBoundsOf(s);
    var id := s.current.value;
    RegisterFits(s, id, h);
    var relay := s.relays[id].(status := Submitted, hash := h);
    var sent := s.(relays := s.relays[id := relay]);
    var locked := Register(sent, h, relay.paymaster, relay.cost);
    RegisterIsLocal(sent, h, relay.paymaster, relay.cost);
    var done := locked.(settled := s.settled + [id]);
    BookkeepingKeepsDebt(locked, done);
    StartNextKeepsDebt(done);
  }

  lemma RegisterIsLocal(s: State, h: Hash, p: Address, cost: int)
    ensures Register(s, h, p, cost).relays == s.relays && Register(s, h, p, cost).queue == s.queue
  {}

  lemma FailureKeepsDebt(s: State)
    requires Sound(s) && InBounds(s) && s.current.Some?
    ensures var t := Step(s, BroadcastFails); LocksFit(t) && CacheAgrees(t) && DebtFits(t)
  {
    QueuedArePending(s);
    InBoundsOf(s);
    hide SumBy, LockSum, Ordered;
    var id := s.current.value;
    var failed := s.(relays := SetStatus(s.relays, id, Failed), settled := s.settled + [id]);
    forall p ensures SubmittedDebt(failed.relays, p) == SubmittedDebt(s.relays, p) {
      DebtOfUpdate(s.relays, id, failed.relays[id], p);
    }
    SameSubmitted(s, failed, id);
    assert forall p :: DebtOf(failed, p) == DebtOf(s, p);
    StartNextKeepsDebt(failed);
  }

  // Runs

  ghost predicate Reachable(s: State, events: seq<Event>)
    decreases |events|
  {
    if events == [] then s == EMPTY
    else
      var last := |events| - 1;
      exists before :: Reachable(before, events[..last]) && InBounds(before) && FreshHash(before, events[last]) && s == Step(before, events[last])
  }

  /**
   In every reachable state the locks are the submitted relays, each paymaster's accumulator is the sum
   of its submitted costs, and the queue discipline holds.
  */
  lemma {:induction false} EveryRunIsSound(s: State, events: seq<Event>)
    requires Reachable(s, events)
    ensures Sound(s)
    ensures forall p :: DebtOf(s, p) == SubmittedDebt(s.relays, p)
    decreases |events|
  {
    hide SumBy;
    if events == [] {
      assert EMPTY.locks.Keys == {};
      forall p ensures LockSum(s.locks, p) == 0 && SubmittedDebt(s.relays, p) == 0 { SumByEmpty(s.relays, Owed(p)); }
    } else {
      var last := |events| - 1;
      var before :| Reachable(before, events[..last]) && InBounds(before) && FreshHash(before, events[last]) && s == Step(before, events[last]);
      EveryRunIsSound(before, events[..last]);
      StepIsSound(before, events[last]);
    }
  }

  // What each event does

  /** The entry behind the outstanding one, if any, becomes the outstanding one. */
  function Advanced(relays: seq<Relay>, queue: seq<nat>): (r: seq<Relay>)
    ensures |r| == |relays|
  {
    if queue != [] && queue[0] < |relays| then relays[queue[0] := relays[queue[0]].(status := Submitting)] else relays
  }

  /** The relays after an event, entry by entry. */
  lemma EventMovesRelays(s: State, e: Event)
    requires Ordered(s)
    ensures InBounds(s)
    ensures var t := Step(s, e).relays;
      match e
      case Enqueue(p, cost) => t == s.relays + [Relay(p, cost, if s.processing then Pending else Submitting, 0)]
      case Broadcast(h) =>
        (match s.current
         case None => t == s.relays
         case Some(id) => t == Advanced(s.relays[id := s.relays[id].(status := Submitted, hash := h)], s.queue))
      case BroadcastFails =>
        (match s.current
         case None => t == s.relays
         case Some(id) => t == Advanced(s.relays[id := s.relays[id].(status := Failed)], s.queue))
      case Receipt(id) => t == if id < |s.relays| && s.relays[id].status == Submitted then s.relays[id := s.relays[id].(status := Confirmed)] else s.relays
      case TimesOut(id) => t == if id < |s.relays| && s.relays[id].status == Submitted then s.relays[id := s.relays[id].(status := Confirmed)] else s.relays
  {
    FifoFacts(s);
    QueuedArePending(s);
  }

  /** What an event adds to the debt of a paymaster: a broadcast its cost, the end of a watcher the same less. */
  function DebtMove(s: State, e: Event, p: Address): int {
    match e
    case Broadcast(_) =>
      if s.current.Some? && s.current.value < |s.relays| && s.relays[s.current.value].paymaster == p then s.relays[s.current.value].cost else 0
    case Receipt(id) => if id < |s.relays| then -Owed(p)(s.relays[id]) else 0
    case TimesOut(id) => if id < |s.relays| then -Owed(p)(s.relays[id]) else 0
    case _ => 0
  }

  lemma AdvancedOwes(relays: seq<Relay>, queue: seq<nat>, p: Address)
    requires forall id | id in queue :: id < |relays| && relays[id].status == Pending
    ensures SubmittedDebt(Advanced(relays, queue), p) == SubmittedDebt(relays, p)
  {
    hide SumBy;
    if queue != [] {
      assert queue[0] in queue;
      DebtOfUpdate(relays, queue[0], relays[queue[0]].(status := Submitting), p);
    }
  }

  /** With fresh hashes the cached debt of every paymaster moves by the event and by nothing else. */
  lemma DebtMovesByTheEvent(s: State, e: Event, p: Address)
    requires Sound(s) && FreshHash(s, e)
    ensures InBounds(s) && DebtOf(Step(s, e), p) == DebtOf(s, p) + DebtMove(s, e, p)
  {
    hide SumBy, LockSum, LocksFit, Step, Advanced;
    StepIsSound(s, e);
    EventMovesRelays(s, e);
    assert DebtOf(s, p) == SubmittedDebt(s.relays, p) && DebtOf(Step(s, e), p) == SubmittedDebt(Step(s, e).relays, p);
    InBoundsOf(s);
    QueuedArePending(s);
    match e {
      case Enqueue(q, cost) =>
        var r := Relay(q, cost, if s.processing then Pending else Submitting, 0);
        SumByAppend(s.relays, [r], Owed(p));
        SumBySingle(r, Owed(p));
      case Broadcast(h) =>
        if s.current.Some? {
          var r := s.relays[s.current.value].(status := Submitted, hash := h);
          DebtOfUpdate(s.relays, s.current.value, r, p);
          AdvancedOwes(s.relays[s.current.value := r], s.queue, p);
        }
      case BroadcastFails =>
        if s.current.Some? {
          var r := s.relays[s.current.value].(status := Failed);
          DebtOfUpdate(s.relays, s.current.value, r, p);
          AdvancedOwes(s.relays[s.current.value := r], s.queue, p);
        }
      case Receipt(id) =>
        if id < |s.relays| { DebtOfUpdate(s.relays, id, s.relays[id].(status := Confirmed), p); }
      case TimesOut(id) =>
        if id < |s.relays| { DebtOfUpdate(s.relays, id, s.relays[id].(status := Confirmed), p); }
    }
  }

  /** One outcome settles the outstanding entry and starts the next, whether it succeeded or failed. */
  lemma OutcomeSettlesOne(s: State, e: Event)
    requires Ordered(s) && s.current.Some? && (e.Broadcast? || e.BroadcastFails?)
    ensures InBounds(s)
    ensures var t := Step(s, e);
      && Ordered(t) && |t.relays| == |s.relays|
      && t.settled == s.settled + [s.current.value]
      && (if s.queue == [] then !t.processing && t.current.None? else t.current == Some(s.queue[0]) && t.queue == s.queue[1..])
  {
    StepIsOrdered(s, e);
  }

  ghost function StepAll(s: State, outcomes: seq<Event>): State
    requires Ordered(s)
    requires forall e | e in outcomes :: e.Broadcast? || e.BroadcastFails?
    decreases |outcomes|
  {
    if outcomes == [] then s
    else
      StepIsOrdered(s, outcomes[0]);
      StepAll(Step(s, outcomes[0]), outcomes[1..])
  }

  /** No entry is left behind: as many outcomes as entries in hand, of any kind, leave the worker idle with every relay settled once, in order. */
  lemma {:induction false} OutcomesDrainTheQueue(s: State, outcomes: seq<Event>)
    requires Ordered(s)
    requires forall e | e in outcomes :: e.Broadcast? || e.BroadcastFails?
    requires |outcomes| == |s.queue| + if s.current.Some? then 1 else 0
    ensures var t := StepAll(s, outcomes);
      !t.processing && t.queue == [] && t.settled == UpTo(|s.relays|)
    decreases |outcomes|
  {
    FifoFacts(s);
    if outcomes == [] {
      assert s.started + s.queue == s.started && s.settled + [] == s.settled;
    } else {
      assert outcomes[0] in outcomes;
      OutcomeSettlesOne(s, outcomes[0]);
      OutcomesDrainTheQueue(Step(s, outcomes[0]), outcomes[1..]);
    }
  }

  /** Without distinct hashes the accumulator drifts: two paymasters sharing one hash leave the first one's debt stale. */
  lemma SharedHashLeavesStaleDebt()
    ensures var s := Register(EMPTY, 7, 1, 100); CacheAgrees(s) && !CacheAgrees(Register(s, 7, 2, 5))
  {
    assert EMPTY.locks.Keys == {};
    assert CacheAgrees(EMPTY) by { assert forall p :: LockSum(EMPTY.locks, p) == 0; }
    RegisterKeepsCacheExactly(EMPTY, 7, 1, 100);
    RegisterKeepsCacheExactly(Register(EMPTY, 7, 1, 100), 7, 2, 5);
  }
}
