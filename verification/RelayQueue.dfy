/** The queue module as written: module state updated in place, one entry at a time. */
module RelayQueue {
  import opened Seqs
  import opened Protocol
  import opened QueueSpec

  class Queue {
    var relays: seq<Relay>
    var queue: seq<nat>
    var processing: bool
    var currentEntry: Option<nat>
    var activeInFlight: map<Hash, Lock>
    var paymasterDebtAccumulator: map<Address, int>
    var started: seq<nat>
    var settled: seq<nat>

    function Current(): State
      reads this
    {
      State(relays, queue, processing, currentEntry, activeInFlight, paymasterDebtAccumulator, started, settled)
    }

    constructor ()
      ensures Current() == EMPTY
    {
      relays, queue, processing, currentEntry := [], [], false, None;
      activeInFlight, paymasterDebtAccumulator, started, settled := map[], map[], [], [];
    }

    /** Recompute one paymaster's debt over all active locks. */
    method UpdatePaymasterDebt(p: Address)
      modifies `paymasterDebtAccumulator
      ensures paymasterDebtAccumulator == UpdatedDebt(activeInFlight, old(paymasterDebtAccumulator), p)
    {
      var debt := 0;
      var remaining := activeInFlight.Keys;
      while remaining != {}
        invariant remaining <= activeInFlight.Keys
        invariant paymasterDebtAccumulator == old(paymasterDebtAccumulator)
        invariant debt + LockSumOver(remaining, activeInFlight, p) == LockSum(activeInFlight, p)
        decreases remaining
      {
        var h :| h in remaining;
        LockSumTake(remaining, activeInFlight, p, h);
        if activeInFlight[h].paymaster == p { debt := debt + activeInFlight[h].cost; }
        remaining := remaining - {h};
      }
      paymasterDebtAccumulator := paymasterDebtAccumulator[p := debt];
    }

    method RegisterLock(h: Hash, p: Address, cost: int)
      modifies `activeInFlight, `paymasterDebtAccumulator
      ensures Current() == Register(old(Current()), h, p, cost)
    {
      activeInFlight := activeInFlight[h := Lock(p, cost)];
      UpdatePaymasterDebt(p);
    }

    method ReleaseLock(h: Hash, p: Address)
      modifies `activeInFlight, `paymasterDebtAccumulator
      ensures Current() == Release(old(Current()), h, p)
    {
      activeInFlight := activeInFlight - {h};
      UpdatePaymasterDebt(p);
    }

    /** `processQueue` up to its first suspension. */
    method ProcessQueue()
      requires InBounds(Current())
      modifies this
      ensures Current() == if old(processing) then old(Current()) else StartNext(old(Current()).(processing := true))
    {
      if processing { return; }
      processing := true;
      LoopHead();
    }

    /** The loop test and, when it holds, the entry up to its broadcast. */
    method LoopHead()
      requires forall id | id in queue :: id < |relays|
      modifies this
      ensures Current() == StartNext(old(Current()))
    {
      if |queue| > 0 {
        var id := queue[0];
        assert id in queue;
        queue := queue[1..];
        currentEntry := Some(id);
        relays := SetStatus(relays, id, Submitting);
        started := started + [id];
      } else {
        currentEntry := None;
        processing := false;
      }
    }

    method EnqueueRelay(p: Address, cost: int)
      requires InBounds(Current())
      modifies this
      ensures Current() == Step(old(Current()), Enqueue(p, cost))
    {
      var id := |relays|;
      relays := relays + [Relay(p, cost, Pending, 0)];
      queue := queue + [id];
      ProcessQueue();
    }

    /** The awaited broadcast resolves with a hash. */
    method BroadcastResolves(h: Hash)
      requires InBounds(Current()) && currentEntry.Some?
      modifies this
      ensures Current() == Step(old(Current()), Broadcast(h))
    {
      var id := currentEntry.value;
      relays := relays[id := relays[id].(hash := h, status := Submitted)];
      RegisterLock(h, relays[id].paymaster, relays[id].cost);
      settled := settled + [id];
      currentEntry := None;
      LoopHead();
    }

    /** The awaited broadcast is rejected. */
    method BroadcastRejects()
      requires InBounds(Current()) && currentEntry.Some?
      modifies this
      ensures Current() == Step(old(Current()), BroadcastFails)
    {
      var id := currentEntry.value;
      relays := SetStatus(relays, id, Failed);
      settled := settled + [id];
      currentEntry := None;
      LoopHead();
    }

    /** The watcher sees the receipt. */
    method ReceiptArrives(id: nat)
      requires id < |relays| && relays[id].status == Submitted && InBounds(Current())
      modifies this
      ensures Current() == Step(old(Current()), Receipt(id))
    {
      var relay := relays[id];
      relays := SetStatus(relays, id, Confirmed);
      ReleaseLock(relay.hash, relay.paymaster);
    }

    /** The watcher gives up: without a receipt, yet the status is the same and the lock is gone. */
    method WatcherGivesUp(id: nat)
      requires id < |relays| && relays[id].status == Submitted && InBounds(Current())
      modifies this
      ensures Current() == Step(old(Current()), TimesOut(id))
    {
      var relay := relays[id];
      relays := SetStatus(relays, id, Confirmed);
      ReleaseLock(relay.hash, relay.paymaster);
    }
  }
}
