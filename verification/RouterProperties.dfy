/** What holds in every state the router can reach, whatever the accounts it calls attempt. */
module RouterProperties {
  import opened Seqs
  import opened Protocol
  import opened Ledger
  import opened RouterSpec

  // Sums over the deposit map

  ghost function SumOver(keys: set<Address>, m: map<Address, uint256>): nat
    requires keys <= m.Keys
  {
    if keys == {} then 0
    else
      var k :| k in keys;
      m[k] + SumOver(keys - {k}, m)
  }

  ghost function TotalDeposits(m: map<Address, uint256>): nat {
    SumOver(m.Keys, m)
  }

  lemma {:induction false} SumOverTake(keys: set<Address>, m: map<Address, uint256>, k: Address)
    requires keys <= m.Keys && k in keys
    ensures SumOver(keys, m) == m[k] + SumOver(keys - {k}, m)
  {
    var first :| first in keys && SumOver(keys, m) == m[first] + SumOver(keys - {first}, m);
    if first != k {
      SumOverTake(keys - {first}, m, k);
      SumOverTake(keys - {k}, m, first);
      assert keys - {first} - {k} == keys - {k} - {first};
    }
  }

  lemma {:induction false} SumOverSame(keys: set<Address>, m: map<Address, uint256>, m': map<Address, uint256>)
    requires keys <= m.Keys && keys <= m'.Keys
    requires forall k | k in keys :: m[k] == m'[k]
    ensures SumOver(keys, m) == SumOver(keys, m')
  {
    if keys != {} {
      var k :| k in keys;
      SumOverTake(keys, m, k);
      SumOverTake(keys, m', k);
      SumOverSame(keys - {k}, m, m');
    }
  }

  /** Writing one deposit changes the total by the difference. */
  lemma TotalAfterWrite(m: map<Address, uint256>, p: Address, v: uint256)
    ensures TotalDeposits(m[p := v]) == TotalDeposits(m) - (if p in m then m[p] else 0) + v
    ensures (if p in m then m[p] else 0) <= TotalDeposits(m)
  {
    var m' := m[p := v];
    SumOverTake(m'.Keys, m', p);
    assert m'.Keys - {p} == m.Keys - {p};
    SumOverSame(m.Keys - {p}, m, m');
    if p in m {
      SumOverTake(m.Keys, m, p);
    } else {
      assert m.Keys - {p} == m.Keys;
    }
  }

  // Solvency

  /** The router holds every deposit; the rest of its balance is value sent into executeMesh or forced in. */
  ghost predicate Solvent(s: State) {
    s.ether == TotalDeposits(s.deposits) + s.meshValue + s.forced
  }

  lemma DepositIsSolvent(s: State, sender: Address, value: nat)
    requires Solvent(s)
    ensures Solvent(OrElse(s, DepositStep(s, sender, value)))
  {
    if DepositStep(s, sender, value).Some? {
      TotalAfterWrite(s.deposits, sender, DepositOf(s, sender) + value);
    }
  }

  lemma WithdrawIsSolvent(s: State, sender: Address, amount: nat, accepts: bool, onReceive: seq<Action>)
    requires Solvent(s)
    ensures Solvent(OrElse(s, WithdrawStep(s, sender, amount, accepts, onReceive)))
  {
    if WithdrawStep(s, sender, amount, accepts, onReceive).Some? {
      TotalAfterWrite(s.deposits, sender, DepositOf(s, sender) - amount);
    }
  }

  lemma AfterSandboxIsSolvent(s: State, m: MeshCall)
    requires Solvent(s)
    ensures Solvent(AfterSandbox(s, m))
    ensures AfterSandbox(s, m).deposits == s.deposits
  {}

  lemma MeshIsSolvent(s: State, m: MeshCall)
    requires Solvent(s)
    ensures Solvent(OrElse(s, MeshStep(s, m)))
  {
    hide Cost, Prefund, AfterSandbox;
    AfterSandboxIsSolvent(s, m);
    if MeshStep(s, m).Some? && m.paymaster != ZERO_ADDRESS {
      TotalAfterWrite(s.deposits, m.paymaster, DepositOf(s, m.paymaster) - Cost(m));
    }
  }

  /** An accepted call can always pay its relayer: the balance check before the payment never fails. */
  lemma PaymentIsAlwaysFunded(s: State, m: MeshCall)
    requires Solvent(s) && Accepted(s, m)
    ensures m.paymaster != ZERO_ADDRESS ==> AfterSandbox(s, m).ether >= Cost(m)
    ensures MeshStep(s, m).None? <==> m.paymaster != ZERO_ADDRESS && !m.relayerAccepts
  {
    hide Prefund, AfterSandbox;
    AfterSandboxIsSolvent(s, m);
    TotalAfterWrite(s.deposits, m.paymaster, 0);
  }

  /** With enough deposited and a receiver that accepts, a withdrawal goes through. */
  lemma AnyDepositCanBeWithdrawn(s: State, p: Address, amount: nat)
    requires Solvent(s) && !s.locked
    ensures WithdrawStep(s, p, amount, true, []).Some? <==> amount <= DepositOf(s, p)
    ensures amount <= DepositOf(s, p) ==>
      var t := WithdrawStep(s, p, amount, true, []).value;
      && DepositOf(t, p) == DepositOf(s, p) - amount
      && t.ether == s.ether - amount
      && (forall q | q != p :: DepositOf(t, q) == DepositOf(s, q))
  {
    TotalAfterWrite(s.deposits, p, 0);
  }

  // One-time use

  ghost predicate Transferred(h: seq<Spend>, shard: Address) {
    exists k | 0 <= k < |h| :: h[k].command.shard == shard
  }

  ghost predicate TransferredIn(h: seq<Spend>, tx: nat, shard: Address) {
    exists k | 0 <= k < |h| :: h[k].command.shard == shard && h[k].tx == tx
  }

  /** All transfers out of a shard are in one transaction. */
  ghost predicate OneTransactionPerShard(h: seq<Spend>) {
    forall i, j | 0 <= i < |h| && 0 <= j < |h| && h[i].command.shard == h[j].command.shard :: h[i].tx == h[j].tx
  }

  ghost predicate Recorded(s: State) {
    && OneTransactionPerShard(s.history)
    && (forall a :: a in s.spent <==> Transferred(s.history, a))
    && (forall k | 0 <= k < |s.history| :: s.history[k].tx <= s.tx)
  }

  /** Within a transaction the marks are the shards it has transferred from. */
  ghost predicate Marked(s: State) {
    forall a :: a in s.marks <==> TransferredIn(s.history, s.tx, a)
  }

  ghost predicate Sound(s: State) {
    Solvent(s) && Recorded(s) && Marked(s)
  }

  lemma MarksAreSpent(s: State)
    requires Recorded(s) && Marked(s)
    ensures s.marks <= s.spent
  {
    forall a | a in s.marks ensures a in s.spent {
      var k :| 0 <= k < |s.history| && s.history[k].command.shard == a && s.history[k].tx == s.tx;
      assert Transferred(s.history, a);
    }
  }

  /** The check on a shard passes exactly when it was never used, or only in the running transaction. */
  lemma ReuseOnlyWithinTheTransaction(s: State, shard: Address)
    requires Recorded(s) && Marked(s)
    ensures Spendable(s, shard)
       <==> forall k | 0 <= k < |s.history| && s.history[k].command.shard == shard :: s.history[k].tx == s.tx
  {
    if shard in s.marks {
      assert TransferredIn(s.history, s.tx, shard);
    } else if shard in s.spent {
      var k :| 0 <= k < |s.history| && s.history[k].command.shard == shard;
      assert TransferredIn(s.history, s.tx, shard) <==> shard in s.marks;
    } else {
      forall k | 0 <= k < |s.history| ensures s.history[k].command.shard != shard {
        assert Transferred(s.history, s.history[k].command.shard);
      }
    }
  }

  lemma NewTransfersFit(s: State, cmds: seq<MeshCommand>)
    requires Recorded(s) && Marked(s)
    requires forall k | 0 <= k < |cmds| :: Authorized(s, cmds[k])
    ensures OneTransactionPerShard(s.history + Spends(s.tx, cmds))
  {
    hide Transferred, TransferredIn, Authorized;
    var h := s.history + Spends(s.tx, cmds);
    var n := |s.history|;
    assert forall k | n <= k < |h| :: h[k] == Spend(s.tx, cmds[k - n].cmd);
    assert forall k | 0 <= k < n :: h[k] == s.history[k];
    forall i, j | 0 <= i < |h| && 0 <= j < |h| && h[i].command.shard == h[j].command.shard ensures h[i].tx == h[j].tx {
      if i < n <= j { NewTransferFits(s, cmds, i, j - n); }
      if j < n <= i { NewTransferFits(s, cmds, j, i - n); }
    }
  }

  lemma AppliedIsRecorded(s: State, cmds: seq<MeshCommand>)
    requires Recorded(s) && Marked(s) && Settle(s.books, cmds).Some?
    requires forall k | 0 <= k < |cmds| :: Authorized(s, cmds[k])
    ensures Recorded(Applied(s, cmds)) && Marked(Applied(s, cmds))
  {
    hide Settle, ForcedBy, Transferred, TransferredIn, Authorized, Shards, OneTransactionPerShard;
    var t := Applied(s, cmds);
    MarksAreSpent(s);
    NewTransfersFit(s, cmds);
    forall a ensures Transferred(t.history, a) <==> Transferred(s.history, a) || a in Shards(cmds) {
      TransferredAppend(s.history, Spends(s.tx, cmds), a);
      SpendsTransfer(s.tx, cmds, a);
    }
    forall a ensures TransferredIn(t.history, s.tx, a) <==> TransferredIn(s.history, s.tx, a) || a in Shards(cmds) {
      TransferredInAppend(s.history, Spends(s.tx, cmds), s.tx, a);
      SpendsTransfer(s.tx, cmds, a);
    }
  }

  lemma NewTransferFits(s: State, cmds: seq<MeshCommand>, i: nat, k: nat)
    requires Recorded(s) && Marked(s) && i < |s.history| && k < |cmds| && Authorized(s, cmds[k])
    requires s.history[i].command.shard == cmds[k].cmd.shard
    ensures s.history[i].tx == s.tx
  {
    ReuseOnlyWithinTheTransaction(s, cmds[k].cmd.shard);
  }

  lemma TransferredAppend(a: seq<Spend>, b: seq<Spend>, x: Address)
    ensures Transferred(a + b, x) <==> Transferred(a, x) || Transferred(b, x)
  {
    if Transferred(a, x) {
      var k :| 0 <= k < |a| && a[k].command.shard == x;
      assert (a + b)[k] == a[k];
    }
    if Transferred(b, x) {
      var k :| 0 <= k < |b| && b[k].command.shard == x;
      assert (a + b)[|a| + k] == b[k];
    }
  }

  lemma TransferredInAppend(a: seq<Spend>, b: seq<Spend>, tx: nat, x: Address)
    ensures TransferredIn(a + b, tx, x) <==> TransferredIn(a, tx, x) || TransferredIn(b, tx, x)
  {
    if TransferredIn(a, tx, x) {
      var k :| 0 <= k < |a| && a[k].command.shard == x && a[k].tx == tx;
      assert (a + b)[k] == a[k];
    }
    if TransferredIn(b, tx, x) {
      var k :| 0 <= k < |b| && b[k].command.shard == x && b[k].tx == tx;
      assert (a + b)[|a| + k] == b[k];
    }
  }

  lemma SpendsTransfer(tx: nat, cmds: seq<MeshCommand>, a: Address)
    ensures Transferred(Spends(tx, cmds), a) <==> a in Shards(cmds)
    ensures TransferredIn(Spends(tx, cmds), tx, a) <==> a in Shards(cmds)
  {
    if a in Shards(cmds) {
      var k :| 0 <= k < |cmds| && cmds[k].cmd.shard == a;
      assert Spends(tx, cmds)[k].command.shard == a;
    }
  }

  lemma MeshIsRecorded(s: State, m: MeshCall)
    requires Recorded(s) && Marked(s)
    ensures Recorded(OrElse(s, MeshStep(s, m))) && Marked(OrElse(s, MeshStep(s, m)))
  {
    var ready := Opened(s, m);
    if Sandbox(ready, m).Some? {
      assert Recorded(ready) && Marked(ready);
      AppliedIsRecorded(ready, m.commands);
    }
  }

  /** Every action of every account keeps the router sound. */
  lemma {:induction false} ExecIsSound(s: State, a: Action)
    requires Sound(s)
    ensures Sound(Exec(s, a)) && Exec(s, a).tx == s.tx && s.spent <= Exec(s, a).spent
    decreases a, 0
  {
    hide MeshStep, Transferred, TransferredIn, OneTransactionPerShard, SumOver;
    match a
    case Deposit(sender, value) => DepositIsSolvent(s, sender, value);
    case Withdraw(sender, amount, accepts, hook) => WithdrawIsSolvent(s, sender, amount, accepts, hook);
    case Mesh(m) =>
      MeshIsSolvent(s, m);
      MeshIsRecorded(s, m);
      MeshKeepsSpent(s, m);
    case InnerDirect(_) =>
    case Force(_) =>
    case Ambient(_) =>
    case Frame(body, _) => ExecAllIsSound(s, body);
  }

  lemma MeshKeepsSpent(s: State, m: MeshCall)
    ensures OrElse(s, MeshStep(s, m)).tx == s.tx && s.spent <= OrElse(s, MeshStep(s, m)).spent
    ensures OrElse(s, MeshStep(s, m)).locked == s.locked
  {}

  lemma {:induction false} ExecAllIsSound(s: State, actions: seq<Action>)
    requires Sound(s)
    ensures Sound(ExecAll(s, actions)) && ExecAll(s, actions).tx == s.tx && s.spent <= ExecAll(s, actions).spent
    decreases actions, 1
  {
    if actions != [] {
      var front, last := actions[..|actions| - 1], actions[|actions| - 1];
      ExecAllIsSound(s, front);
      ExecIsSound(ExecAll(s, front), last);
    }
  }

  /** A whole transaction, and with it every run, keeps solvency and the record. */
  lemma TxIsSound(s: State, body: seq<Action>)
    requires Solvent(s) && Recorded(s)
    ensures Solvent(RunTx(s, body)) && Recorded(RunTx(s, body)) && s.spent <= RunTx(s, body).spent
  {
    var start := s.(marks := {}, tx := s.tx + 1);
    forall a ensures !TransferredIn(start.history, start.tx, a) {}
    assert Sound(start);
    ExecAllIsSound(start, body);
  }

  /** From deployment on, after any transactions: solvent, spent exactly when transferred, one transaction per shard. */
  lemma {:induction false} EveryRunIsSound(books: Books, ether: nat, txs: seq<seq<Action>>)
    ensures var s := Run(Deployed(books, ether), txs); Solvent(s) && Recorded(s)
  {
    if txs == [] {
      assert Deployed(books, ether).deposits.Keys == {};
    } else {
      EveryRunIsSound(books, ether, txs[..|txs| - 1]);
      TxIsSound(Run(Deployed(books, ether), txs[..|txs| - 1]), txs[|txs| - 1]);
    }
  }

  lemma {:induction false} LockIsFreed(s: State, actions: seq<Action>)
    ensures ExecAll(s, actions).locked == s.locked
    decreases actions, 1
  {
    if actions != [] {
      LockIsFreed(s, actions[..|actions| - 1]);
      ActionFreesLock(ExecAll(s, actions[..|actions| - 1]), actions[|actions| - 1]);
    }
  }

  lemma {:induction false} ActionFreesLock(s: State, a: Action)
    ensures Exec(s, a).locked == s.locked
    decreases a, 0
  {
    match a
    case Deposit(_, _) =>
    case Withdraw(_, _, _, _) =>
    case Mesh(m) => MeshKeepsSpent(s, m);
    case InnerDirect(_) =>
    case Force(_) =>
    case Ambient(_) =>
    case Frame(body, _) => LockIsFreed(s, body);
  }

  lemma {:induction false} RunFreesLock(books: Books, ether: nat, txs: seq<seq<Action>>)
    ensures !Run(Deployed(books, ether), txs).locked
  {
    if txs != [] {
      var before := Run(Deployed(books, ether), txs[..|txs| - 1]);
      RunFreesLock(books, ether, txs[..|txs| - 1]);
      LockIsFreed(before.(marks := {}, tx := before.tx + 1), txs[|txs| - 1]);
    }
  }

  /** The state inside a transaction, after any run and any actions of the transaction so far. */
  function Reached(books: Books, ether: nat, txs: seq<seq<Action>>, sofar: seq<Action>): State {
    var s := Run(Deployed(books, ether), txs);
    ExecAll(s.(marks := {}, tx := s.tx + 1), sofar)
  }

  /**
   Every reachable state, inside a transaction too: solvent, one transaction per shard, spent exactly when transferred,
   every mark spent, the lock free between calls, and every deposit can be withdrawn in full and no more than it.
  */
  lemma EveryReachableStateIsSound(books: Books, ether: nat, txs: seq<seq<Action>>, sofar: seq<Action>, p: Address, amount: nat)
    ensures var s := Reached(books, ether, txs, sofar);
      && Sound(s) && s.marks <= s.spent && !s.locked
      && (WithdrawStep(s, p, amount, true, []).Some? <==> amount <= DepositOf(s, p))
  {
    hide Transferred, OneTransactionPerShard, SumOver;
    EveryRunIsSound(books, ether, txs);
    RunFreesLock(books, ether, txs);
    var s := Run(Deployed(books, ether), txs);
    var start := s.(marks := {}, tx := s.tx + 1);
    assert Marked(start);
    ExecAllIsSound(start, sofar);
    LockIsFreed(start, sofar);
    MarksAreSpent(ExecAll(start, sofar));
    AnyDepositCanBeWithdrawn(ExecAll(start, sofar), p, amount);
  }

  /** A spent shard stays spent, however the run goes on. */
  lemma {:induction false} SpentIsPermanent(books: Books, ether: nat, txs: seq<seq<Action>>, more: seq<seq<Action>>)
    ensures Run(Deployed(books, ether), txs).spent <= Run(Deployed(books, ether), txs + more).spent
    decreases |more|
  {
    if more == [] {
      assert txs + more == txs;
    } else {
      var all := txs + more;
      assert all[..|all| - 1] == txs + more[..|more| - 1];
      SpentIsPermanent(books, ether, txs, more[..|more| - 1]);
      EveryRunIsSound(books, ether, all[..|all| - 1]);
      TxIsSound(Run(Deployed(books, ether), all[..|all| - 1]), all[|all| - 1]);
    }
  }

  // One call

  /** What the relayer's account attempts when it is paid. */
  function PaymentActions(m: MeshCall): seq<Action> {
    if m.paymaster == ZERO_ADDRESS then [] else m.onPayment
  }

  /** Every command transferred, in order, and every shard spent. */
  predicate AllApplied(s: State, m: MeshCall, t: State) {
    && t.history == s.history + Spends(s.tx, m.commands)
    && t.spent == s.spent + (Shards(m.commands) - s.marks)
    && t.marks == s.marks + Shards(m.commands)
    && Settle(s.books, m.commands).Some?
    && t.books == BooksAfter(Settle(s.books, m.commands).value, PaymentActions(m))
  }

  predicate NoneApplied(s: State, m: MeshCall, t: State) {
    && t.history == s.history && t.spent == s.spent && t.marks == s.marks
    && t.books == BooksAfter(s.books, PaymentActions(m))
  }

  /**
   One call of executeMesh, from outside: the paymaster loses exactly the cost, which the prefund
   bounds, nobody else's deposit changes, and either every command is applied to the ledger in order, recorded
   and its shard spent, or the ledger, the record and the spent map are untouched, but for what the relayer's account
   does when it is paid.
  */
  lemma MeshIsAtomic(s: State, m: MeshCall)
    requires MeshStep(s, m).Some?
    ensures var t := MeshStep(s, m).value;
      && !t.locked
      && (m.paymaster != ZERO_ADDRESS ==> DepositOf(t, m.paymaster) == DepositOf(s, m.paymaster) - Cost(m))
      && Cost(m) <= Prefund(m)
      && (forall q | q != m.paymaster || q == ZERO_ADDRESS :: DepositOf(t, q) == DepositOf(s, q))
      && (if Sandbox(Opened(s, m), m).Some? then AllApplied(s, m, t) else NoneApplied(s, m, t))
    ensures Recorded(s) && Marked(s) && Sandbox(Opened(s, m), m).Some? ==> Shards(m.commands) <= MeshStep(s, m).value.spent
  {
    hide Cost, Settle, Shards, Spends, Forced, Recorded, Marked;
    if Recorded(s) && Marked(s) { MarksAreSpent(s); }
  }

  /** The sandbox succeeds exactly when its conditions hold and every transfer goes through in order. */
  lemma SandboxSucceedsExactly(s: State, m: MeshCall)
    requires Recorded(s) && Marked(s)
    ensures Sandbox(s, m).Some? <==>
      && m.callGasSuffices
      && (forall a | a in m.announced :: !Transferred(s.history, a))
      && (forall k | 0 <= k < |m.commands| :: m.commands[k].signer == m.commands[k].cmd.shard)
      && (forall k, i | 0 <= k < |m.commands| && 0 <= i < |s.history|
            && s.history[i].command.shard == m.commands[k].cmd.shard :: s.history[i].tx == s.tx)
      && Settle(s.books, m.commands).Some?
  {
    hide Settle, Applied, Transferred;
    forall k | 0 <= k < |m.commands|
      ensures Spendable(s, m.commands[k].cmd.shard) <==>
        forall i | 0 <= i < |s.history| && s.history[i].command.shard == m.commands[k].cmd.shard :: s.history[i].tx == s.tx
    {
      ReuseOnlyWithinTheTransaction(s, m.commands[k].cmd.shard);
    }
  }

  // Use is once per transaction, not once per call

  function FreeCall(c: Command): MeshCall {
    MeshCall(0, [MeshCommand(c, 7, c.shard, true, [])], [], ZERO_ADDRESS, 0, 0, 0, GasLimits(0, 0, 0, 0), 0,
             map[c.shard := 7], true, 0, 0, true, [])
  }

  /** Two calls in one transaction can both transfer out of one shard; in two transactions the second fails. */
  lemma SameShardTwiceInOneTransaction()
    ensures var c := Command(5, Native, 0, 6, 10); var s := Deployed(Books(map[(Ether, 5) := 20], map[]), 0);
      && RunTx(s, [Mesh(FreeCall(c)), Mesh(FreeCall(c))]).history == [Spend(1, c), Spend(1, c)]
      && RunTx(RunTx(s, [Mesh(FreeCall(c))]), [Mesh(FreeCall(c))]).history == [Spend(1, c)]
  {
    hide MeshStep, FreeCall, ExecAll;
    var c := Command(5, Native, 0, 6, 10);
    var s := Deployed(Books(map[(Ether, 5) := 20], map[]), 0);
    var m := FreeCall(c);
    var start := s.(marks := {}, tx := 1);
    FreeStep(start, c);
    var one := OrElse(start, MeshStep(start, m));
    assert one.history == [Spend(1, c)] && one.spent == {5} && one.marks == {5} && Funds(one.books, Ether, 5) == 10;
    FreeStep(one, c);
    ExecOne(start, m);
    ExecTwo(start, m);
    var later := one.(marks := {}).(marks := {}, tx := 2);
    FreeStep(later, c);
    ExecOne(later, m);
  }

  lemma ExecOne(s: State, m: MeshCall)
    ensures ExecAll(s, [Mesh(m)]) == OrElse(s, MeshStep(s, m))
  {
    assert [Mesh(m)][..0] == [];
  }

  lemma ExecTwo(s: State, m: MeshCall)
    ensures ExecAll(s, [Mesh(m), Mesh(m)]) == var one := OrElse(s, MeshStep(s, m)); OrElse(one, MeshStep(one, m))
  {
    assert [Mesh(m), Mesh(m)][..1] == [Mesh(m)];
    ExecOne(s, m);
  }

  lemma FreeStep(s: State, c: Command)
    requires !s.locked && c.kind == Native && c.value >= 0 && c.to != c.shard
    ensures var ok := Spendable(s, c.shard) && Funds(s.books, Ether, c.shard) >= c.value;
      var t := OrElse(s, MeshStep(s, FreeCall(c)));
      if ok then t == s.(spent := s.spent + ({c.shard} - s.marks), marks := s.marks + {c.shard},
                         books := Transfer(s.books, c).value, history := s.history + [Spend(s.tx, c)])
      else t == s
  {
    var m := FreeCall(c);
    var mc := m.commands[0];
    assert m.commands[..0] == [] && m.commands == [mc];
    assert Settle(s.books, m.commands) == Transfer(s.books, c) by {
      assert Settle(s.books, []) == Some(s.books);
      assert BooksAfter(s.books, []) == s.books;
    }
    assert Shards(m.commands) == {c.shard};
    assert Spends(s.tx, m.commands) == [Spend(s.tx, c)];
    assert ForcedBy(m.commands) == 0;
    assert Authorized(Opened(s, m), mc) <==> Spendable(s, c.shard);
  }
}
