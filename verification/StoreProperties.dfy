/** Lasting properties of the shard store: unique addresses, pending marks, and what a failure restores. */
module StoreProperties {
  import opened Seqs
  import opened Protocol
  import opened StoreSpec

  datatype StoreOp =
    | Add(shard: Shard)
    | AddMany(shards: seq<Shard>)
    | MarkPending(addresses: seq<Address>)
    | RemoveMany(addresses: seq<Address>)
    | ConfirmFailed(addresses: seq<Address>, change: Option<Address>)

  function Apply(v: View, op: StoreOp): View {
    match op
    case Add(s) => Added(v, s)
    case AddMany(ss) => AddedMany(v, ss)
    case MarkPending(addresses) => WithPending(v, addresses, true)
    case RemoveMany(addresses) => Removed(v, addresses)
    case ConfirmFailed(addresses, change) => Failed(v, addresses, change)
  }

  function Run(v: View, ops: seq<StoreOp>): View
    decreases |ops|
  {
    if ops == [] then v else Run(Apply(v, ops[0]), ops[1..])
  }

  lemma {:induction false} AddedManyKeepsUnique(v: View, ss: seq<Shard>)
    requires UniqueAddresses(v)
    ensures UniqueAddresses(AddedMany(v, ss))
    decreases |ss|
  {
    if ss != [] {
      AddedManyKeepsUnique(Added(v, ss[0]), ss[1..]);
    }
  }

  lemma ApplyKeepsUnique(v: View, op: StoreOp)
    requires UniqueAddresses(v)
    ensures UniqueAddresses(Apply(v, op))
  {
    match op
    case Add(_) =>
    case AddMany(ss) => AddedManyKeepsUnique(v, ss);
    case MarkPending(_) =>
    case RemoveMany(addresses) => FilterKeepsUnique(v, NotAmong(addresses));
    case ConfirmFailed(addresses, change) =>
      if change.Some? { FilterKeepsUnique(WithPending(v, addresses, false), NotAmong([change.value])); }
  }

  /** No run of operations ever stores one address twice. */
  lemma {:induction false} EveryRunKeepsAddressesUnique(v: View, ops: seq<StoreOp>)
    requires UniqueAddresses(v)
    ensures UniqueAddresses(Run(v, ops))
    decreases |ops|
  {
    if ops != [] {
      ApplyKeepsUnique(v, ops[0]);
      EveryRunKeepsAddressesUnique(Apply(v, ops[0]), ops[1..]);
    }
  }

  // Adding

  /** The shards that adding really stores: the first of each address, when the address is new. */
  function NewOnes(v: View, ss: seq<Shard>): seq<Shard>
    decreases |ss|
  {
    if ss == [] then []
    else if Has(v, ss[0].address) then NewOnes(v, ss[1..])
    else [ss[0].(pending := false)] + NewOnes(Added(v, ss[0]), ss[1..])
  }

  lemma {:induction false} AddedManyAppends(v: View, ss: seq<Shard>)
    ensures AddedMany(v, ss) == v + NewOnes(v, ss)
    ensures forall s | s in NewOnes(v, ss) :: !s.pending
    decreases |ss|
  {
    hide Has;
    if ss == [] {
      assert v + [] == v;
    } else {
      AddedManyAppends(Added(v, ss[0]), ss[1..]);
      if !Has(v, ss[0].address) {
        ConcatAssociates(v, [ss[0].(pending := false)], NewOnes(Added(v, ss[0]), ss[1..]));
      }
    }
  }

  /** What is stored of a new shard is the shard itself, but never pending. */
  lemma {:induction false} NewOnesAreGiven(v: View, ss: seq<Shard>, s: Shard)
    requires s in NewOnes(v, ss)
    ensures !Has(v, s.address)
    ensures exists x | x in ss :: s == Shard(x.address, x.spent, false, x.assets)
    decreases |ss|
  {
    assert ss[0] in ss;
    forall x | x in ss[1..] ensures x in ss {}
    if Has(v, ss[0].address) {
      NewOnesAreGiven(v, ss[1..], s);
    } else if s != ss[0].(pending := false) {
      NewOnesAreGiven(Added(v, ss[0]), ss[1..], s);
      AddedKeepsAddress(v, ss[0], s.address);
    }
  }

  lemma AddedKeepsAddress(v: View, s: Shard, a: Address)
    ensures Has(v, a) ==> Has(Added(v, s), a)
  {
    if Has(v, a) { var i :| 0 <= i < |v| && v[i].address == a; assert Added(v, s)[i].address == a; }
  }

  ghost predicate SameAddresses(v: View, w: View) {
    |v| == |w| && forall i | 0 <= i < |v| :: v[i].address == w[i].address
  }

  lemma {:induction false} NewOnesByAddress(v: View, w: View, ss: seq<Shard>)
    requires SameAddresses(v, w)
    ensures NewOnes(v, ss) == NewOnes(w, ss)
    decreases |ss|
  {
    if ss != [] {
      forall a ensures Has(v, a) <==> Has(w, a) {
        if Has(v, a) { var i :| 0 <= i < |v| && v[i].address == a; assert w[i].address == a; }
      }
      NewOnesByAddress(Added(v, ss[0]), Added(w, ss[0]), ss[1..]);
    }
  }

  /** Nothing is stored exactly when every address is stored already. */
  lemma {:induction false} NothingNew(v: View, ss: seq<Shard>)
    ensures NewOnes(v, ss) == [] <==> forall s | s in ss :: Has(v, s.address)
    decreases |ss|
  {
    if ss != [] {
      assert ss[0] in ss;
      assert forall s | s in ss :: s == ss[0] || s in ss[1..];
      if Has(v, ss[0].address) { NothingNew(v, ss[1..]); }
    }
  }

  // A prepared transfer and its outcome

  /** `confirmPrepared`: inputs become pending, change shards are added. */
  function Confirmed(v: View, inputs: seq<Address>, change: seq<Shard>): View {
    AddedMany(WithPending(v, inputs, true), change)
  }

  ghost predicate NonePending(v: View, inputs: seq<Address>) {
    forall s | s in v && s.address in inputs :: !s.pending
  }

  /**
   A failed relay gives back every input, unchanged, but keeps the change shards that `confirmPrepared` added:
   the store is as it was exactly when no change address was new.
  */
  lemma FailureRestoresInputsOnly(v: View, inputs: seq<Address>, change: seq<Shard>)
    requires NonePending(v, inputs)
    ensures Failed(Confirmed(v, inputs, change), inputs, None) == v + NewOnes(v, change)
    ensures Failed(Confirmed(v, inputs, change), inputs, None) == v <==> forall s | s in change :: Has(v, s.address)
  {
    var marked, added := WithPending(v, inputs, true), NewOnes(v, change);
    AddedManyAppends(marked, change);
    NewOnesByAddress(marked, v, change);
    NothingNew(v, change);
    ClearedAgain(v, inputs, added);
    assert |v + added| == |v| + |added|;
  }

  /** Clearing the marks again gives back the list and does not touch shards that were not marked. */
  lemma ClearedAgain(v: View, inputs: seq<Address>, added: seq<Shard>)
    requires NonePending(v, inputs) && forall s | s in added :: !s.pending
    ensures WithPending(WithPending(v, inputs, true) + added, inputs, false) == v + added
  {
    var w := WithPending(v, inputs, true) + added;
    forall i | 0 <= i < |w| ensures WithPending(w, inputs, false)[i] == (v + added)[i] {
      if i < |v| {
        assert v[i] in v;
      } else {
        assert w[i] == added[i - |v|] && added[i - |v|] in added;
      }
    }
  }

  /** Passing the one change address to the failure undoes a transfer with one change shard completely. */
  lemma FailureWithChangeAddressRestoresAll(v: View, inputs: seq<Address>, change: Shard)
    requires NonePending(v, inputs) && !Has(v, change.address)
    ensures Failed(Confirmed(v, inputs, [change]), inputs, Some(change.address)) == v
  {
    FailureRestoresInputsOnly(v, inputs, [change]);
    assert [change][1..] == [];
    var p := NotAmong([change.address]);
    FilterAppend(v, NewOnes(v, [change]), p);
    forall s | s in v ensures p(s) {
      var i :| 0 <= i < |v| && v[i] == s;
    }
    FilterKeepsAll(v, p);
    assert [change.(pending := false)][1..] == [];
    assert Filter([change.(pending := false)], p) == [];
  }

  // The outcomes of a relay

  /**
   How `relayTransfer` can end after the transfer was recorded: a signature, the paymaster or the relayer throws before
   there is a hash, nobody sees the receipt, the inner execution reverted, or it went through.
  */
  datatype RelayOutcome = ThrowsBeforeHash | NeverConfirmed | Reverted | Executed

  function AfterRelay(v: View, inputs: seq<Address>, change: seq<Shard>, outcome: RelayOutcome): View {
    var recorded := Confirmed(v, inputs, change);
    match outcome
    case ThrowsBeforeHash => recorded
    case NeverConfirmed => recorded
    case Reverted => Failed(recorded, inputs, None)
    case Executed => Removed(recorded, inputs)
  }

  /** Every stored input is pending, with everything else as it was. */
  ghost predicate InputsStuck(v: View, inputs: seq<Address>, after: View) {
    forall s | s in v && s.address in inputs :: s.(pending := true) in after
  }

  /**
   When the relay throws before there is a hash, or nobody confirms it, the inputs stay pending. The store is restored
   exactly when none of the inputs is stored and no change address is new, so never for inputs taken from it.
  */
  lemma UnconfirmedRelayKeepsInputsPending(v: View, inputs: seq<Address>, change: seq<Shard>, outcome: RelayOutcome)
    requires NonePending(v, inputs) && (outcome.ThrowsBeforeHash? || outcome.NeverConfirmed?)
    ensures InputsStuck(v, inputs, AfterRelay(v, inputs, change, outcome))
    ensures AfterRelay(v, inputs, change, outcome) == v
       <==> (forall s | s in v :: s.address !in inputs) && forall s | s in change :: Has(v, s.address)
  {
    var marked := WithPending(v, inputs, true);
    AddedManyAppends(marked, change);
    NewOnesByAddress(marked, v, change);
    NothingNew(v, change);
    var after := marked + NewOnes(v, change);
    forall s | s in v && s.address in inputs ensures s.(pending := true) in after {
      var i :| 0 <= i < |v| && v[i] == s;
      assert after[i] == marked[i] == s.(pending := true);
    }
    if forall s | s in v :: s.address !in inputs {
      forall i | 0 <= i < |v| ensures marked[i] == v[i] { assert v[i] in v; }
      assert marked == v;
      assert |after| == |v| <==> NewOnes(v, change) == [];
    } else {
      var i :| 0 <= i < |v| && v[i].address in inputs;
      assert v[i] in v && after[i] == marked[i];
    }
  }

  /** An executed relay leaves exactly the other shards and the new change, none of them an input. */
  lemma ExecutedRelayRemovesInputs(v: View, inputs: seq<Address>, change: seq<Shard>, s: Shard)
    ensures s in AfterRelay(v, inputs, change, Executed) <==> s.address !in inputs && (s in v || s in NewOnes(v, change))
  {
    var marked := WithPending(v, inputs, true);
    AddedManyAppends(marked, change);
    NewOnesByAddress(marked, v, change);
    FilterElements(Confirmed(v, inputs, change), NotAmong(inputs), s);
    if s.address !in inputs {
      if s in v { var i :| 0 <= i < |v| && v[i] == s; assert marked[i] == s; }
      if s in marked { var i :| 0 <= i < |marked| && marked[i] == s; assert v[i].address == s.address; }
    }
  }
}
