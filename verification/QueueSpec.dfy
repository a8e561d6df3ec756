/**
 The relayer's transaction queue (queue.ts) as a state machine. A step is what runs between two
 suspension points: an enqueue, the broadcast's outcome, or a receipt watcher's end.
*/
module QueueSpec {
  import opened Seqs
  import opened Protocol

  type Hash = nat

  datatype Status = Pending | Submitting | Submitted | Confirmed | Failed

  datatype Relay = Relay(paymaster: Address, cost: int, status: Status, hash: Hash)

  datatype Lock = Lock(paymaster: Address, cost: int)

  /** Relays are numbered in the order they were enqueued; `started` and `settled` record what happened to them. */
  datatype State = State(
    relays: seq<Relay>,
    queue: seq<nat>,
    processing: bool,
    current: Option<nat>,
    locks: map<Hash, Lock>,
    debt: map<Address, int>,
    started: seq<nat>,
    settled: seq<nat>)

  datatype Event =
    | Enqueue(paymaster: Address, cost: int)
    | Broadcast(hash: Hash)
    | BroadcastFails
    | Receipt(id: nat)
    | TimesOut(id: nat)

  const EMPTY := State([], [], false, None, map[], map[], [], [])

  // Escrow accounting

  ghost function LockSumOver(keys: set<Hash>, locks: map<Hash, Lock>, p: Address): int
    requires keys <= locks.Keys
  {
    if keys == {} then 0
    else
      var k :| k in keys;
      (if locks[k].paymaster == p then locks[k].cost else 0) + LockSumOver(keys - {k}, locks, p)
  }

  /** What the locks of a paymaster add up to. */
  ghost function LockSum(locks: map<Hash, Lock>, p: Address): int {
    LockSumOver(locks.Keys, locks, p)
  }

  function DebtOf(s: State, p: Address): int {
    if p in s.debt then s.debt[p] else 0
  }

  ghost function UpdatedDebt(locks: map<Hash, Lock>, debt: map<Address, int>, p: Address): map<Address, int> {
    debt[p := LockSum(locks, p)]
  }

  ghost function Register(s: State, h: Hash, p: Address, cost: int): State {
    var locks := s.locks[h := Lock(p, cost)];
    s.(locks := locks, debt := UpdatedDebt(locks, s.debt, p))
  }

  ghost function Release(s: State, h: Hash, p: Address): State {
    var locks := s.locks - {h};
    s.(locks := locks, debt := UpdatedDebt(locks, s.debt, p))
  }

  // Steps

  function SetStatus(relays: seq<Relay>, id: nat, status: Status): (r: seq<Relay>)
    requires id < |relays|
    ensures |r| == |relays|
  {
    relays[id := relays[id].(status := status)]
  }

  /** The head of the worker loop: take the next entry, or stop. */
  function StartNext(s: State): State
    requires forall id | id in s.queue :: id < |s.relays|
  {
    if s.queue == [] then s.(processing := false, current := None)
    else
      var id := s.queue[0];
      assert id in s.queue;
      s.(queue := s.queue[1..], current := Some(id), relays := SetStatus(s.relays, id, Submitting), started := s.started + [id])
  }

  /** Every number in the state refers to a relay. */
  predicate InBounds(s: State) {
    (forall id | id in s.queue :: id < |s.relays|) && (s.current.Some? ==> s.current.value < |s.relays|)
  }

  /** A watcher's end, on the receipt and on the timeout alike: status confirmed, lock released. */
  ghost function Unwatched(s: State, id: nat): State {
    if id >= |s.relays| || s.relays[id].status != Submitted then s
    else Release(s.(relays := SetStatus(s.relays, id, Confirmed)), s.relays[id].hash, s.relays[id].paymaster)
  }

  ghost function Step(s: State, e: Event): State
    requires InBounds(s)
  {
    match e
    case Enqueue(p, cost) =>
      var pushed := s.(relays := s.relays + [Relay(p, cost, Pending, 0)], queue := s.queue + [|s.relays|]);
      if s.processing then pushed else StartNext(pushed.(processing := true))
    case Broadcast(h) =>
      if s.current.None? then s
      else
        var id := s.current.value;
        var relay := s.relays[id].(status := Submitted, hash := h);
        var locked := Register(s.(relays := s.relays[id := relay]), h, relay.paymaster, relay.cost);
        StartNext(locked.(settled := s.settled + [id]))
    case BroadcastFails =>
      if s.current.None? then s
      else
        var id := s.current.value;
        StartNext(s.(relays := SetStatus(s.relays, id, Failed), settled := s.settled + [id]))
    case Receipt(id) => Unwatched(s, id)
    case TimesOut(id) => Unwatched(s, id)
  }

  lemma {:induction false} LockSumTake(keys: set<Hash>, locks: map<Hash, Lock>, p: Address, k: Hash)
    requires keys <= locks.Keys && k in keys
    ensures LockSumOver(keys, locks, p)
      == (if locks[k].paymaster == p then locks[k].cost else 0) + LockSumOver(keys - {k}, locks, p)
  {
    var first :| first in keys && LockSumOver(keys, locks, p)
      == (if locks[first].paymaster == p then locks[first].cost else 0) + LockSumOver(keys - {first}, locks, p);
    if first != k {
      LockSumTake(keys - {first}, locks, p, k);
      LockSumTake(keys - {k}, locks, p, first);
      assert keys - {first} - {k} == keys - {k} - {first};
    }
  }

  lemma {:induction false} LockSumSame(keys: set<Hash>, a: map<Hash, Lock>, b: map<Hash, Lock>, p: Address)
    requires keys <= a.Keys && keys <= b.Keys
    requires forall k | k in keys :: a[k] == b[k]
    ensures LockSumOver(keys, a, p) == LockSumOver(keys, b, p)
  {
    if keys != {} {
      var k :| k in keys;
      LockSumTake(keys, a, p, k);
      LockSumTake(keys, b, p, k);
      LockSumSame(keys - {k}, a, b, p);
    }
  }

  /** What the lock of h contributes to p's debt. */
  function Share(locks: map<Hash, Lock>, h: Hash, p: Address): int {
    if h in locks && locks[h].paymaster == p then locks[h].cost else 0
  }

  lemma LockSumAfterRemoval(locks: map<Hash, Lock>, h: Hash, p: Address)
    ensures LockSum(locks - {h}, p) == LockSum(locks, p) - Share(locks, h, p)
  {
    var rest := locks - {h};
    LockSumSame(rest.Keys, locks, rest, p);
    if h in locks {
      LockSumTake(locks.Keys, locks, p, h);
      assert locks.Keys - {h} == rest.Keys;
    } else {
      assert rest == locks;
    }
  }

  lemma LockSumAfterWrite(locks: map<Hash, Lock>, h: Hash, lock: Lock, p: Address)
    ensures LockSum(locks[h := lock], p) == LockSum(locks, p) - Share(locks, h, p) + (if lock.paymaster == p then lock.cost else 0)
  {
    var after := locks[h := lock];
    LockSumTake(after.Keys, after, p, h);
    assert after.Keys - {h} == (locks - {h}).Keys;
    LockSumSame(after.Keys - {h}, after, locks - {h}, p);
    LockSumAfterRemoval(locks, h, p);
  }

  /** The accumulator agrees with the locks it summarises. */
  ghost predicate CacheAgrees(s: State) {
    forall p :: DebtOf(s, p) == LockSum(s.locks, p)
  }

  /**
   Registering recomputes one paymaster only. The cache keeps agreeing exactly when the hash was not
   held for another paymaster at a cost other than zero, in particular when the hash is new.
  */
  lemma RegisterKeepsCacheExactly(s: State, h: Hash, p: Address, cost: int)
    requires CacheAgrees(s)
    ensures CacheAgrees(Register(s, h, p, cost))
       <==> h !in s.locks || s.locks[h].paymaster == p || s.locks[h].cost == 0
  {
    var t := Register(s, h, p, cost);
    forall q ensures LockSum(t.locks, q) == LockSum(s.locks, q) - Share(s.locks, h, q) + (if p == q then cost else 0) {
      LockSumAfterWrite(s.locks, h, Lock(p, cost), q);
    }
    if h in s.locks && s.locks[h].paymaster != p && s.locks[h].cost != 0 {
      var q := s.locks[h].paymaster;
      assert DebtOf(t, q) == DebtOf(s, q);
      assert DebtOf(t, q) != LockSum(t.locks, q);
    }
  }

  /** Releasing has the same blind spot: the lock removed has to belong to the paymaster recomputed. */
  lemma ReleaseKeepsCacheExactly(s: State, h: Hash, p: Address)
    requires CacheAgrees(s)
    ensures CacheAgrees(Release(s, h, p))
       <==> h !in s.locks || s.locks[h].paymaster == p || s.locks[h].cost == 0
  {
    var t := Release(s, h, p);
    forall q ensures LockSum(t.locks, q) == LockSum(s.locks, q) - Share(s.locks, h, q) {
      LockSumAfterRemoval(s.locks, h, q);
    }
    if h in s.locks && s.locks[h].paymaster != p && s.locks[h].cost != 0 {
      var q := s.locks[h].paymaster;
      assert DebtOf(t, q) == DebtOf(s, q);
      assert DebtOf(t, q) != LockSum(t.locks, q);
    }
  }
}
