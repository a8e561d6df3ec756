/** The router contract as written: checks, storage writes, a rollback on revert, and outside calls. */
module GhostRouter {
  import opened Seqs
  import opened Protocol
  import opened Ledger
  import opened RouterSpec

  ghost function AppliedOne(s: State, c: MeshCommand): State
    requires Transfer(s.books, c.cmd).Some?
  {
    var shard := c.cmd.shard;
    Outside(s.(spent := if shard in s.marks then s.spent else s.spent + {shard},
               marks := s.marks + {shard},
               books := Transfer(s.books, c.cmd).value,
               history := s.history + [Spend(s.tx, c.cmd)]), c.onTransfer)
  }

  lemma ShardsSnoc(cmds: seq<MeshCommand>, c: MeshCommand)
    ensures Shards(cmds + [c]) == Shards(cmds) + {c.cmd.shard}
  {
    var all := cmds + [c];
    forall a ensures a in Shards(all) <==> a in Shards(cmds) || a == c.cmd.shard {
      if a in Shards(cmds) { var k :| 0 <= k < |cmds| && cmds[k].cmd.shard == a; assert all[k] == cmds[k]; }
      assert all[|cmds|] == c;
    }
  }

  lemma SettleSnoc(books: Books, cmds: seq<MeshCommand>, c: MeshCommand)
    requires Settle(books, cmds).Some?
    ensures var b := Settle(books, cmds).value;
      Settle(books, cmds + [c]) == if !c.accepts || Transfer(b, c.cmd).None? then None
                                   else Some(BooksAfter(Transfer(b, c.cmd).value, c.onTransfer))
    ensures ForcedBy(cmds + [c]) == ForcedBy(cmds) + Forced(c.onTransfer)
  {
    assert (cmds + [c])[..|cmds|] == cmds;
  }

  lemma AppliedSnoc(s: State, cmds: seq<MeshCommand>, i: nat)
    requires i < |cmds| && Settle(s.books, cmds[..i]).Some?
    ensures var t := Applied(s, cmds[..i]); var c := cmds[i];
      && (Settle(s.books, cmds[..i + 1]).Some? <==> c.accepts && Transfer(t.books, c.cmd).Some?)
      && (Settle(s.books, cmds[..i + 1]).Some? ==> Applied(s, cmds[..i + 1]) == AppliedOne(t, c))
      && ((forall k | 0 <= k < i :: Authorized(s, cmds[k])) ==> (Authorized(t, c) <==> Authorized(s, c)))
  {
    hide Settle, Shards, ForcedBy, Transfer, BooksAfter, Forced;
    var front, c := cmds[..i], cmds[i];
    assert cmds[..i + 1] == front + [c];
    ShardsSnoc(front, c);
    SettleSnoc(s.books, front, c);
    assert Spends(s.tx, front + [c]) == Spends(s.tx, front) + [Spend(s.tx, c.cmd)];
    assert s.spent + (Shards(front) + {c.cmd.shard} - s.marks)
        == s.spent + (Shards(front) - s.marks) + ({c.cmd.shard} - (s.marks + Shards(front)));
    if forall k | 0 <= k < i :: Authorized(s, cmds[k]) { EarlierAreSpendable(s, cmds, i); }
  }

  lemma EarlierAreSpendable(s: State, cmds: seq<MeshCommand>, i: nat)
    requires i < |cmds| && forall k | 0 <= k < i :: Authorized(s, cmds[k])
    ensures forall a | a in Shards(cmds[..i]) :: Spendable(s, a)
  {
    forall a | a in Shards(cmds[..i]) ensures Spendable(s, a) {
      var k :| 0 <= k < i && cmds[..i][k].cmd.shard == a;
      assert Authorized(s, cmds[k]);
    }
  }

  lemma NothingApplied(s: State, cmds: seq<MeshCommand>)
    ensures Settle(s.books, cmds[..0]).Some?
    ensures Applied(s, cmds[..0]) == s
  {
    assert cmds[..0] == [];
    assert Shards([]) == {} && Spends(s.tx, []) == [];
  }

  /** A transfer that reverts makes the whole list revert. */
  lemma {:induction false} SettleStuck(books: Books, cmds: seq<MeshCommand>, i: nat)
    requires i <= |cmds|
    ensures Settle(books, cmds[..i]).None? ==> Settle(books, cmds).None?
    decreases |cmds| - i
  {
    if i == |cmds| {
      assert cmds[..i] == cmds;
    } else {
      assert cmds[..i + 1][..i] == cmds[..i];
      SettleStuck(books, cmds, i + 1);
    }
  }

  /** The sandbox neither reads nor writes deposits, so debiting before it is the same as after it. */
  lemma SandboxIgnoresDeposits(s: State, m: MeshCall, deposits: map<Address, uint256>)
    ensures Sandbox(s.(deposits := deposits), m)
      == match Sandbox(s, m) case None => None case Some(t) => Some(t.(deposits := deposits))
  {}

  /** What reconciliation leaves: the rest of the prefund is refunded and the relayer is paid. */
  ghost function Reconciled(s: State, m: MeshCall): State
    requires m.paymaster != ZERO_ADDRESS ==>
      DepositOf(s, m.paymaster) + Prefund(m) < WORD && s.ether >= Cost(m)
  {
    var p := m.paymaster;
    if p == ZERO_ADDRESS then s
    else
      Outside(s.(deposits := s.deposits[p := DepositOf(s, p) + Prefund(m) - Cost(m)], ether := s.ether - Cost(m)), m.onPayment)
  }

  /** Debit first and refund later comes to one subtraction. */
  lemma DebitThenRefund(s: State, m: MeshCall, deposits: map<Address, uint256>)
    requires Accepted(s, m)
    requires deposits == if m.paymaster == ZERO_ADDRESS then s.deposits
      else s.deposits[m.paymaster := DepositOf(s, m.paymaster) - Prefund(m)]
    ensures var t := AfterSandbox(s, m).(deposits := deposits);
      && t.locked
      && (m.paymaster != ZERO_ADDRESS ==> DepositOf(t, m.paymaster) + Prefund(m) < WORD)
      && MeshStep(s, m) == if m.paymaster == ZERO_ADDRESS || (t.ether >= Cost(m) && m.relayerAccepts)
                           then Some(Reconciled(t, m).(locked := false)) else None
  {
    hide Cost, Prefund, Sandbox;
    SandboxKeepsDeposits(s, m);
    if m.paymaster != ZERO_ADDRESS {
      var rest := DepositOf(s, m.paymaster) - Cost(m);
      assert deposits[m.paymaster := rest] == s.deposits[m.paymaster := rest];
    }
  }

  lemma RejectedMesh(s: State, m: MeshCall)
    ensures !Accepted(s, m) ==> MeshStep(s, m).None?
  {}

  lemma SandboxKeepsDeposits(s: State, m: MeshCall)
    ensures AfterSandbox(s, m).deposits == s.deposits && AfterSandbox(s, m).locked
  {}

  /** Without wrap-around of the gas, the charge is exact unless it would exceed the prefund. */
  lemma ExactCost(m: MeshCall)
    requires m.metered + POST_EXECUTION_OVERHEAD + m.limits.pre < WORD && Prefund(m) < WORD
    ensures var exact := (m.metered + POST_EXECUTION_OVERHEAD + m.limits.pre) * m.price;
      Cost(m) == exact <==> exact <= Prefund(m)
  {
    var used := m.metered + POST_EXECUTION_OVERHEAD + m.limits.pre;
    SmallModulo(used);
    var exact := used * m.price;
    if exact < WORD { SmallModulo(exact); }
  }

  lemma SmallModulo(n: nat)
    requires n < WORD
    ensures n % WORD == n
  {}

  class Router {
    var deposits: map<Address, uint256>
    var spent: set<Address>
    var marks: set<Address>
    var locked: bool
    var ether: nat
    var books: Books
    var history: seq<Spend>
    var tx: nat
    var meshValue: nat
    var forced: nat

    function Current(): State
      reads this
    {
      State(deposits, spent, marks, locked, ether, books, history, tx, meshValue, forced)
    }

    constructor (books: Books, ether: nat)
      ensures Current() == Deployed(books, ether)
    {
      deposits, spent, marks, locked := map[], {}, {}, false;
      this.ether, this.books, history, tx, meshValue, forced := ether, books, [], 0, 0, ether;
    }

    /** A revert puts everything back, transient marks and balance included. */
    method Restore(s: State)
      modifies this
      ensures Current() == s
    {
      deposits, spent, marks, locked, ether := s.deposits, s.spent, s.marks, s.locked, s.ether;
      books, history, tx, meshValue, forced := s.books, s.history, s.tx, s.meshValue, s.forced;
    }

    method DepositGas(sender: Address, value: nat) returns (ok: bool)
      modifies this
      ensures Current() == OrElse(old(Current()), DepositStep(old(Current()), sender, value))
      ensures ok <==> DepositStep(old(Current()), sender, value).Some?
    {
      if locked { return false; }
      var balance := DepositOf(Current(), sender);
      if balance + value >= WORD { return false; }
      ether := ether + value;
      deposits := deposits[sender := balance + value];
      return true;
    }

    method WithdrawGas(sender: Address, amount: nat, accepts: bool, onReceive: seq<Action>) returns (ok: bool)
      modifies this
      ensures Current() == OrElse(old(Current()), WithdrawStep(old(Current()), sender, amount, accepts, onReceive))
      ensures ok <==> WithdrawStep(old(Current()), sender, amount, accepts, onReceive).Some?
      decreases onReceive, 2
    {
      var before := Current();
      if locked { return false; }
      locked := true;
      if DepositOf(Current(), sender) < amount {
        Restore(before);
        return false;
      }
      deposits := deposits[sender := DepositOf(Current(), sender) - amount];
      if ether < amount || !accepts {
        Restore(before);
        return false;
      }
      ether := ether - amount;
      CallOut(onReceive);
      locked := false;
      return true;
    }

    /** Control passes to other accounts while the lock is held. */
    method CallOut(actions: seq<Action>)
      requires locked
      modifies this
      ensures Current() == Outside(old(Current()), actions)
      decreases actions, 1
    {
      ReentryIsInert(Current(), actions);
      PerformAll(actions);
    }

    method PerformAll(actions: seq<Action>)
      modifies this
      ensures Current() == ExecAll(old(Current()), actions)
      decreases actions, 0
    {
      var i := 0;
      ghost var start := Current();
      while i < |actions|
        invariant 0 <= i <= |actions|
        invariant Current() == ExecAll(start, actions[..i])
      {
        assert actions[..i + 1][..i] == actions[..i];
        Perform(actions[i]);
        i := i + 1;
      }
      assert actions[..|actions|] == actions;
    }

    /** One attempted action; a revert is caught by the account that attempted it. */
    method Perform(a: Action)
      modifies this
      ensures Current() == Exec(old(Current()), a)
      decreases a, 1
    {
      match a
      case Deposit(sender, value) =>
        var ok := DepositGas(sender, value);
      case Withdraw(sender, amount, accepts, onReceive) =>
        var ok := WithdrawGas(sender, amount, accepts, onReceive);
      case Mesh(m) =>
        var ok := ExecuteMesh(m);
      case InnerDirect(m) =>
        var ok := InnerExecuteMesh(false, m);
      case Force(value) =>
        ether := ether + value;
        forced := forced + value;
      case Ambient(b) =>
        books := b;
      case Frame(body, commits) =>
        var before := Current();
        PerformAll(body);
        if !commits { Restore(before); }
    }

    /** Step 1: the delegated code is what every command claims. */
    method PreScan(m: MeshCall) returns (ok: bool)
      ensures ok <==> CodeMatches(m)
    {
      for i := 0 to |m.commands|
        invariant forall k | 0 <= k < i :: ActiveCode(m, m.commands[k].cmd.shard) == m.commands[k].claimed
      {
        if ActiveCode(m, m.commands[i].cmd.shard) != m.commands[i].claimed { return false; }
      }
      return true;
    }

    /** Steps 2 and 3: debit up front (unchecked), then the paymaster's signature. */
    method DebitPaymaster(m: MeshCall, prefund: nat) returns (ok: bool)
      modifies this`deposits
      ensures ok <==> (m.paymaster != ZERO_ADDRESS ==>
        DepositOf(old(Current()), m.paymaster) >= prefund && m.now <= m.validUntil && m.payer == m.paymaster)
      ensures ok ==> deposits == if m.paymaster == ZERO_ADDRESS then old(deposits)
        else old(deposits)[m.paymaster := DepositOf(old(Current()), m.paymaster) - prefund]
    {
      if m.paymaster != ZERO_ADDRESS {
        if DepositOf(Current(), m.paymaster) < prefund { return false; }
        deposits := deposits[m.paymaster := (DepositOf(Current(), m.paymaster) - prefund) % WORD];
        if m.now > m.validUntil || m.payer != m.paymaster { return false; }
      }
      return true;
    }

    /** The charge, in unchecked 256-bit arithmetic and clamped to the prefund. */
    method Charge(m: MeshCall) returns (totalGasCost: nat)
      ensures totalGasCost == Cost(m) <= Prefund(m)
      ensures var exact := (m.metered + POST_EXECUTION_OVERHEAD + m.limits.pre) * m.price;
        m.metered + POST_EXECUTION_OVERHEAD + m.limits.pre < WORD && Prefund(m) < WORD ==>
          (totalGasCost == exact <==> exact <= Prefund(m))
    {
      if m.metered + POST_EXECUTION_OVERHEAD + m.limits.pre < WORD && Prefund(m) < WORD { ExactCost(m); }
      var totalGasUsed := (m.metered + POST_EXECUTION_OVERHEAD + m.limits.pre) % WORD;
      totalGasCost := totalGasUsed * m.price % WORD;
      if totalGasCost > Prefund(m) { totalGasCost := Prefund(m); }
    }

    /** Step 5: refund the rest of the prefund and pay the relayer. */
    method Reconcile(m: MeshCall) returns (ok: bool)
      requires locked
      requires m.paymaster != ZERO_ADDRESS ==> DepositOf(Current(), m.paymaster) + Prefund(m) < WORD
      modifies this
      ensures var s := old(Current());
        ok <==> m.paymaster == ZERO_ADDRESS || (s.ether >= Cost(m) && m.relayerAccepts)
      ensures ok ==> Current() == Reconciled(old(Current()), m)
      decreases m, 1, 0
    {
      hide Cost, Prefund;
      var totalGasCost := Charge(m);
      if m.paymaster != ZERO_ADDRESS {
        deposits := deposits[m.paymaster := (DepositOf(Current(), m.paymaster) + (Prefund(m) - totalGasCost)) % WORD];
        if ether < totalGasCost || !m.relayerAccepts { return false; }
        ether := ether - totalGasCost;
        CallOut(m.onPayment);
      }
      return true;
    }

    /** `executeMesh`. */
    method ExecuteMesh(m: MeshCall) returns (ok: bool)
      modifies this
      ensures Current() == OrElse(old(Current()), MeshStep(old(Current()), m))
      ensures ok <==> MeshStep(old(Current()), m).Some?
      decreases m, 2
    {
      var before := Current();
      if locked { return false; }
      locked := true;
      ether := ether + m.value;
      meshValue := meshValue + m.value;
      ok := TryMesh(m, before);
      if ok { locked := false; } else { Restore(before); }
    }

    /** The body of `executeMesh` between taking and releasing the lock; false stands for a revert. */
    method TryMesh(m: MeshCall, ghost before: State) returns (ok: bool)
      requires !before.locked && Current() == Opened(before, m)
      modifies this
      ensures ok <==> MeshStep(before, m).Some?
      ensures ok ==> MeshStep(before, m) == Some(Current().(locked := false))
      decreases m, 1, 1
    {
      hide Cost, MeshStep, Sandbox, Reconciled;
      RejectedMesh(before, m);
      if m.price > m.limits.maxFee { return false; }
      ok := PreScan(m);
      if !ok { return false; }
      // The sum of the limits is taken in 32 bits and the prefund in 256; both are checked.
      var maxGas := m.limits.verification + m.limits.call + m.limits.pre;
      if maxGas > MAX_UINT32 || maxGas * m.price >= WORD { return false; }
      var prefund := maxGas * m.price;
      ok := DebitPaymaster(m, prefund);
      if !ok { return false; }
      // Step 4: the sandbox.
      var sandboxStart := Current();
      SandboxIgnoresDeposits(Opened(before, m), m, sandboxStart.deposits);
      var success := InnerExecuteMesh(true, m);
      if !success { Restore(sandboxStart); }
      assert Current() == AfterSandbox(before, m).(deposits := sandboxStart.deposits);
      if m.innerGas * m.price >= WORD { return false; }
      DebitThenRefund(before, m, sandboxStart.deposits);
      ok := Reconcile(m);
    }

    /** `innerExecuteMesh`: announcements, then each command with its one-time-use mark. */
    method InnerExecuteMesh(bySelf: bool, m: MeshCall) returns (ok: bool)
      requires bySelf ==> locked
      modifies this
      ensures !bySelf ==> !ok && Current() == old(Current())
      ensures bySelf && ok ==> Sandbox(old(Current()), m) == Some(Current())
      ensures bySelf && !ok ==> Sandbox(old(Current()), m) == None
      decreases m, 1, 0
    {
      if !bySelf { return false; }
      if !m.callGasSuffices { return false; }
      for j := 0 to |m.announced|
        invariant Current() == old(Current())
        invariant forall k | 0 <= k < j :: m.announced[k] !in spent
      {
        if m.announced[j] in spent { return false; }
      }
      ok := CommandLoop(m);
    }

    method CommandLoop(m: MeshCall) returns (ok: bool)
      requires locked
      modifies this
      ensures var s := old(Current());
        ok <==> Settle(s.books, m.commands).Some? && forall k | 0 <= k < |m.commands| :: Authorized(s, m.commands[k])
      ensures ok ==> Current() == Applied(old(Current()), m.commands)
      decreases m, 0
    {
      hide Settle, Applied, Authorized, AppliedOne, Transfer;
      ghost var s := Current();
      NothingApplied(s, m.commands);
      for i := 0 to |m.commands|
        invariant Settle(s.books, m.commands[..i]).Some?
        invariant locked && Current() == Applied(s, m.commands[..i])
        invariant forall k | 0 <= k < i :: Authorized(s, m.commands[k])
      {
        AppliedSnoc(s, m.commands, i);
        SettleStuck(s.books, m.commands, i + 1);
        var fine := OneCommand(m.commands[i]);
        if !fine { return false; }
      }
      assert m.commands[..|m.commands|] == m.commands;
      return true;
    }

    /** One iteration of the command loop. */
    method OneCommand(c: MeshCommand) returns (ok: bool)
      requires locked
      modifies this
      ensures var s := old(Current());
        ok <==> Authorized(s, c) && c.accepts && Transfer(s.books, c.cmd).Some?
      ensures ok ==> locked && Current() == AppliedOne(old(Current()), c)
      decreases c
    {
      var shard := c.cmd.shard;
      var alreadySeenInBatch := shard in marks;
      if !alreadySeenInBatch {
        if shard in spent { return false; }
        spent := spent + {shard};
        marks := marks + {shard};
      }
      if c.signer != shard { return false; }
      var result := Transfer(books, c.cmd);
      if result.None? || !c.accepts { return false; }
      books := result.value;
      history := history + [Spend(tx, c.cmd)];
      CallOut(c.onTransfer);
      return true;
    }
  }
}
