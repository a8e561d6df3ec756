/** Turning split matrices into commands, announcements and change records (transaction.ts). */
module Plan {
  import opened Seqs
  import opened Protocol
  import opened Randomness
  import opened Fusion

  /** A known recipient, or a pool of fresh stealth addresses of the recipient. */
  datatype Mode = Public(to: Address) | Private(pool: seq<Address>)

  datatype PlanDraws = PlanDraws(recipient: nat -> nat -> Draw, change: nat -> nat -> Draw, order: nat -> nat -> Draw)

  /** What a prepare call works on: the selected shards and their two rows of splits. */
  datatype Job = Job(
    shards: seq<Address>,
    kind: AssetKind,
    token: Address,
    mode: Mode,
    changePool: seq<Address>,
    pay: seq<seq<int>>,
    change: seq<seq<int>>,
    d: PlanDraws)
  {
    predicate Valid() {
      && |pay| == |shards| && |change| == |shards|
      && changePool != [] && (mode.Private? ==> mode.pool != [])
    }
  }

  /** One output: an amount (or token id) and where it goes. */
  datatype Out = Out(to: Address, amount: int)

  datatype Announcement = Announcement(stealth: Address, kind: AssetKind, token: Address, identifier: int)

  datatype Prepared = Prepared(
    commands: seq<Command>,
    announcements: seq<Announcement>,
    changeShards: seq<Out>,
    shardAddresses: seq<Address>,
    changeAmount: int)

  function PickFrom(pool: seq<Address>, draw: Draw): (a: Address)
    requires pool != []
    ensures a in pool
  {
    pool[Pick(draw, |pool|)]
  }

  /** Every address of a pool is drawn. */
  lemma EveryAddressIsDrawn(pool: seq<Address>, k: nat) returns (draw: Draw)
    requires k < |pool| <= MAX_WORD
    ensures PickFrom(pool, draw) == pool[k]
  {
    draw := EveryValueIsDrawn(k, |pool|);
  }

  function PayTarget(job: Job, i: nat, j: nat): Address
    requires job.Valid()
  {
    match job.mode
    case Public(to) => to
    case Private(pool) => PickFrom(pool, job.d.recipient(i)(j))
  }

  /** Only the private mode sends ERC721 ids that are not positive. */
  predicate SkipsPayment(job: Job, amount: int) {
    amount <= 0 && (job.mode.Public? || job.kind != ERC721)
  }

  /** Payment outputs of row i, from its first n splits. */
  function PayOuts(job: Job, i: nat, n: nat): seq<Out>
    requires job.Valid() && i < |job.shards| && n <= |job.pay[i]|
  {
    if n == 0 then []
    else
      var amount := job.pay[i][n - 1];
      PayOuts(job, i, n - 1) + if SkipsPayment(job, amount) then [] else [Out(PayTarget(job, i, n - 1), amount)]
  }

  /** Change outputs of row i, from its first n splits. */
  function ChangeOuts(job: Job, i: nat, n: nat): seq<Out>
    requires job.Valid() && i < |job.shards| && n <= |job.change[i]|
  {
    if n == 0 then []
    else
      var amount := job.change[i][n - 1];
      ChangeOuts(job, i, n - 1) + if amount <= 0 then [] else [Out(PickFrom(job.changePool, job.d.change(i)(n - 1)), amount)]
  }

  function RowPay(job: Job, i: nat): seq<Out>
    requires job.Valid() && i < |job.shards|
  {
    PayOuts(job, i, |job.pay[i]|)
  }

  function RowChange(job: Job, i: nat): seq<Out>
    requires job.Valid() && i < |job.shards|
  {
    ChangeOuts(job, i, |job.change[i]|)
  }

  function ToCommand(job: Job, i: nat, o: Out): Command
    requires i < |job.shards|
  {
    Command(job.shards[i], job.kind, job.token, o.to, o.amount)
  }

  function ToCommands(job: Job, i: nat, outs: seq<Out>): (cmds: seq<Command>)
    requires i < |job.shards|
    ensures |cmds| == |outs|
  {
    seq(|outs|, j requires 0 <= j < |outs| => ToCommand(job, i, outs[j]))
  }

  function RowCommands(job: Job, i: nat): seq<Command>
    requires job.Valid() && i < |job.shards|
  {
    Shuffle(ToCommands(job, i, RowPay(job, i) + RowChange(job, i)), job.d.order(i))
  }

  /** Commands of the first n rows, before fusion. */
  function CommandsUpTo(job: Job, n: nat): seq<Command>
    requires job.Valid() && n <= |job.shards|
  {
    if n == 0 then [] else CommandsUpTo(job, n - 1) + RowCommands(job, n - 1)
  }

  function ChangeUpTo(job: Job, n: nat): seq<Out>
    requires job.Valid() && n <= |job.shards|
  {
    if n == 0 then [] else ChangeUpTo(job, n - 1) + RowChange(job, n - 1)
  }

  predicate Announced(anns: seq<Announcement>, a: Address) {
    exists k | 0 <= k < |anns| :: anns[k].stealth == a
  }

  /** An address is announced once, with the amount of its first output. */
  function Announce(job: Job, anns: seq<Announcement>, o: Out): seq<Announcement> {
    if Announced(anns, o.to) then anns else anns + [Announcement(o.to, job.kind, job.token, o.amount)]
  }

  function AnnounceAll(job: Job, anns: seq<Announcement>, outs: seq<Out>): seq<Announcement> {
    if outs == [] then anns
    else Announce(job, AnnounceAll(job, anns, outs[..|outs| - 1]), outs[|outs| - 1])
  }

  /** The outputs whose addresses are announced, in order: a known recipient is not announced. */
  function AnnouncedOuts(job: Job, n: nat): seq<Out>
    requires job.Valid() && n <= |job.shards|
  {
    if n == 0 then []
    else AnnouncedOuts(job, n - 1) + (if job.mode.Private? then RowPay(job, n - 1) else []) + RowChange(job, n - 1)
  }

  function Amount(o: Out): int { o.amount }

  function PreparedPlan(job: Job): Prepared
    requires job.Valid()
  {
    var n := |job.shards|;
    Prepared(Fused(CommandsUpTo(job, n)), AnnounceAll(job, [], AnnouncedOuts(job, n)), ChangeUpTo(job, n),
             job.shards, SumBy(ChangeUpTo(job, n), Amount))
  }

  lemma {:induction false} AnnounceAllAppend(job: Job, anns: seq<Announcement>, a: seq<Out>, b: seq<Out>)
    ensures AnnounceAll(job, anns, a + b) == AnnounceAll(job, AnnounceAll(job, anns, a), b)
  {
    if b == [] {
      assert a + b == a;
    } else {
      var n := |b| - 1;
      assert (a + b)[..|a + b| - 1] == a + b[..n];
      AnnounceAllAppend(job, anns, a, b[..n]);
    }
  }

  lemma AnnounceOne(job: Job, anns: seq<Announcement>, o: Out)
    ensures AnnounceAll(job, anns, [o]) == Announce(job, anns, o)
  {
    assert [o][..0] == [];
  }

  lemma ToCommandsSnoc(job: Job, i: nat, outs: seq<Out>, o: Out)
    requires i < |job.shards|
    ensures ToCommands(job, i, outs + [o]) == ToCommands(job, i, outs) + [ToCommand(job, i, o)]
  {}

  /** `alreadyTracked` check and push. */
  method Track(job: Job, anns: seq<Announcement>, o: Out) returns (r: seq<Announcement>)
    ensures r == AnnounceAll(job, anns, [o])
  {
    AnnounceOne(job, anns, o);
    var alreadyTracked := false;
    for k := 0 to |anns|
      invariant alreadyTracked <==> exists j | 0 <= j < k :: anns[j].stealth == o.to
    {
      if anns[k].stealth == o.to { alreadyTracked := true; }
    }
    r := if alreadyTracked then anns else anns + [Announcement(o.to, job.kind, job.token, o.amount)];
  }

  /** The payment loop of row i. */
  method PaymentLoop(job: Job, i: nat, announcements: seq<Announcement>)
    returns (local: seq<Command>, anns: seq<Announcement>)
    requires job.Valid() && i < |job.shards|
    ensures local == ToCommands(job, i, RowPay(job, i))
    ensures anns == if job.mode.Private? then AnnounceAll(job, announcements, RowPay(job, i)) else announcements
  {
    local, anns := [], announcements;
    ghost var outs: seq<Out> := [];
    for n := 0 to |job.pay[i]|
      invariant outs == PayOuts(job, i, n)
      invariant local == ToCommands(job, i, outs)
      invariant anns == if job.mode.Private? then AnnounceAll(job, announcements, outs) else announcements
    {
      var amount := job.pay[i][n];
      if amount <= 0 && (job.mode.Public? || job.kind != ERC721) { continue; }
      var o := Out(PayTarget(job, i, n), amount);
      ToCommandsSnoc(job, i, outs, o);
      AnnounceAllAppend(job, announcements, outs, [o]);
      local := local + [ToCommand(job, i, o)];
      if job.mode.Private? {
        anns := Track(job, anns, o);
      }
      outs := outs + [o];
    }
  }

  /** The change loop of row i. */
  method ChangeLoop(job: Job, i: nat, announcements: seq<Announcement>)
    returns (local: seq<Command>, anns: seq<Announcement>, records: seq<Out>)
    requires job.Valid() && i < |job.shards|
    ensures local == ToCommands(job, i, RowChange(job, i))
    ensures anns == AnnounceAll(job, announcements, RowChange(job, i))
    ensures records == RowChange(job, i)
  {
    local, anns, records := [], announcements, [];
    for n := 0 to |job.change[i]|
      invariant records == ChangeOuts(job, i, n)
      invariant local == ToCommands(job, i, records)
      invariant anns == AnnounceAll(job, announcements, records)
    {
      var amount := job.change[i][n];
      if amount <= 0 { continue; }
      var o := Out(PickFrom(job.changePool, job.d.change(i)(n)), amount);
      ToCommandsSnoc(job, i, records, o);
      AnnounceAllAppend(job, announcements, records, [o]);
      local := local + [ToCommand(job, i, o)];
      anns := Track(job, anns, o);
      records := records + [o];
    }
  }

  method ShuffleCommands(local: seq<Command>, order: nat -> Draw) returns (shuffled: seq<Command>)
    ensures shuffled == Shuffle(local, order)
  {
    var a := new Command[|local|](k requires 0 <= k < |local| => local[k]);
    assert a[..] == local;
    ShuffleInPlace(a, order);
    shuffled := a[..];
  }

  /** One row: its payments and its change, shuffled together. */
  method BuildRow(job: Job, i: nat, announcements: seq<Announcement>)
    returns (row: seq<Command>, anns: seq<Announcement>, records: seq<Out>)
    requires job.Valid() && i < |job.shards|
    ensures row == RowCommands(job, i)
    ensures anns == AnnounceAll(job, announcements, (if job.mode.Private? then RowPay(job, i) else []) + RowChange(job, i))
    ensures records == RowChange(job, i)
  {
    hide PayOuts, ChangeOuts;
    var pay, paid := PaymentLoop(job, i, announcements);
    AnnounceAllAppend(job, announcements, if job.mode.Private? then RowPay(job, i) else [], RowChange(job, i));
    var change;
    change, anns, records := ChangeLoop(job, i, paid);
    assert pay + change == ToCommands(job, i, RowPay(job, i) + RowChange(job, i));
    row := ShuffleCommands(pay + change, job.d.order(i));
  }

  method FuseValues(commands: seq<Command>) returns (final: seq<Command>)
    ensures final == Fused(commands)
  {
    var objects: seq<TransferCommand> := [];
    for k := 0 to |commands|
      invariant Views(objects) == commands[..k]
    {
      var c := new TransferCommand(commands[k]);
      ViewsSnoc(objects, c);
      objects := objects + [c];
    }
    assert commands[..|commands|] == commands;
    var fused := Fuse(objects);
    final := Views(fused);
  }

  method TotalChange(changeShards: seq<Out>) returns (total: int)
    ensures total == SumBy(changeShards, Amount)
  {
    total := 0;
    for k := 0 to |changeShards|
      invariant total == SumBy(changeShards[..k], Amount)
    {
      assert changeShards[..k + 1] == changeShards[..k] + [changeShards[k]];
      SumByAppend(changeShards[..k], [changeShards[k]], Amount);
      SumBySingle(changeShards[k], Amount);
      total := total + changeShards[k].amount;
    }
    assert changeShards[..|changeShards|] == changeShards;
  }

  lemma AnnouncedOutsStep(job: Job, i: nat)
    requires job.Valid() && i < |job.shards|
    ensures AnnounceAll(job, [], AnnouncedOuts(job, i + 1))
      == AnnounceAll(job, AnnounceAll(job, [], AnnouncedOuts(job, i)),
                     (if job.mode.Private? then RowPay(job, i) else []) + RowChange(job, i))
  {
    var seen := AnnouncedOuts(job, i);
    var now := (if job.mode.Private? then RowPay(job, i) else []) + RowChange(job, i);
    assert AnnouncedOuts(job, i + 1) == seen + now;
    AnnounceAllAppend(job, [], seen, now);
  }

  /** `prepareTransfer` and `preparePrivateTransfer`: row by row, then fusion. */
  method Prepare(job: Job) returns (p: Prepared)
    requires job.Valid()
    ensures p == PreparedPlan(job)
  {
    var commands, announcements, changeShards := [], [], [];
    for i := 0 to |job.shards|
      invariant commands == CommandsUpTo(job, i)
      invariant announcements == AnnounceAll(job, [], AnnouncedOuts(job, i))
      invariant changeShards == ChangeUpTo(job, i)
    {
      AnnouncedOutsStep(job, i);
      var row, anns, records := BuildRow(job, i, announcements);
      commands := commands + row;
      announcements := anns;
      changeShards := changeShards + records;
    }
    var final := FuseValues(commands);
    var changeAmount := TotalChange(changeShards);
    p := Prepared(final, announcements, changeShards, job.shards, changeAmount);
  }
}
