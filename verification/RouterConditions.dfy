/** When the router's entry points go through and whom they touch, in terms of their arguments and the storage alone. */
module RouterConditions {
  import opened Arithmetic
  import opened Seqs
  import opened Protocol
  import opened Ledger
  import opened RouterSpec
  import opened RouterProperties
  import GhostRouter

  /** A deposit credits the sender, and nobody else, with the value sent. */
  lemma DepositCreditsTheSender(s: State, sender: Address, value: nat)
    ensures DepositStep(s, sender, value).Some? <==> !s.locked && DepositOf(s, sender) + value < WORD
    ensures DepositStep(s, sender, value).Some? ==>
      var t := DepositStep(s, sender, value).value;
      && DepositOf(t, sender) == DepositOf(s, sender) + value
      && (forall q | q != sender :: DepositOf(t, q) == DepositOf(s, q))
      && t == s.(deposits := t.deposits, ether := s.ether + value)
  {}

  /**
   A withdrawal goes through if and only if the lock is free, the deposit covers it and the receiver accepts. It debits the sender
   alone; the receiver's own moves can force ether in but not touch deposits, marks or the spent map.
  */
  lemma WithdrawSucceedsExactly(s: State, sender: Address, amount: nat, accepts: bool, onReceive: seq<Action>)
    requires Solvent(s)
    ensures WithdrawStep(s, sender, amount, accepts, onReceive).Some? <==> !s.locked && amount <= DepositOf(s, sender) && accepts
    ensures WithdrawStep(s, sender, amount, accepts, onReceive).Some? ==>
      var t := WithdrawStep(s, sender, amount, accepts, onReceive).value;
      && DepositOf(t, sender) == DepositOf(s, sender) - amount
      && (forall q | q != sender :: DepositOf(t, q) == DepositOf(s, q))
      && t.ether - (t.forced - s.forced) == s.ether - amount && t.forced >= s.forced
      && t.spent == s.spent && t.marks == s.marks && t.history == s.history && t.locked == s.locked
  {
    hide Forced, BooksAfter;
    TotalAfterWrite(s.deposits, sender, 0);
  }

  /** The shard runs the code the command claims; an account without code counts as the zero address. */
  predicate RunsClaimedCode(m: MeshCall, k: nat)
    requires k < |m.commands|
  {
    var c := m.commands[k];
    if c.cmd.shard in m.code then m.code[c.cmd.shard] == c.claimed else c.claimed == ZERO_ADDRESS
  }

  /**
   A call of executeMesh reverts unless the lock is free, the gas price is within the signed ceiling, every shard runs the claimed
   code, the limits fit 32 bits and their costs 256, and a paymaster has the prefund deposited, signed for this call in time and
   finds a relayer that takes the payment. Nothing else makes it revert.
  */
  lemma MeshSucceedsExactly(s: State, m: MeshCall)
    requires Solvent(s)
    ensures var gas := m.limits.verification + m.limits.call + m.limits.pre;
      MeshStep(s, m).Some? <==>
        && !s.locked && m.price <= m.limits.maxFee
        && (forall k | 0 <= k < |m.commands| :: RunsClaimedCode(m, k))
        && gas <= 0xffff_ffff && gas * m.price < WORD && m.innerGas * m.price < WORD
        && (m.paymaster == ZERO_ADDRESS ||
              (DepositOf(s, m.paymaster) >= gas * m.price && m.now <= m.validUntil && m.payer == m.paymaster && m.relayerAccepts))
  {
    hide Sandbox, MeshStep, Cost;
    assert CodeMatches(m) <==> forall k | 0 <= k < |m.commands| :: RunsClaimedCode(m, k) by {
      forall k | 0 <= k < |m.commands|
        ensures RunsClaimedCode(m, k) <==> ActiveCode(m, m.commands[k].cmd.shard) == m.commands[k].claimed
      {}
    }
    GhostRouter.RejectedMesh(s, m);
    if Accepted(s, m) { PaymentIsAlwaysFunded(s, m); }
  }

  /** Unless the arithmetic wraps, the paymaster is charged the smaller of what the gas costs and the prefund. */
  lemma CostIsTheSmaller(m: MeshCall)
    requires var gas := m.metered + 20_000 + m.limits.pre; gas < WORD && gas * m.price < WORD
    ensures var exact, most := (m.metered + 20_000 + m.limits.pre) * m.price, (m.limits.verification + m.limits.call + m.limits.pre) * m.price;
      Cost(m) == if exact <= most then exact else most
  {
    var gas := m.metered + POST_EXECUTION_OVERHEAD + m.limits.pre;
    GhostRouter.SmallModulo(gas);
    GhostRouter.SmallModulo(gas * m.price);
  }

  /** The commands settle if and only if each recipient accepts and each transfer goes through on the books the earlier ones left. */
  lemma {:induction false} SettlesExactly(books: Books, cmds: seq<MeshCommand>)
    ensures Settle(books, cmds).Some? <==>
      forall k | 0 <= k < |cmds| ::
        cmds[k].accepts && Settle(books, cmds[..k]).Some? && Transfer(Settle(books, cmds[..k]).value, cmds[k].cmd).Some?
  {
    if cmds != [] {
      var n := |cmds| - 1;
      SettlesExactly(books, cmds[..n]);
      forall k | 0 <= k < n ensures cmds[..n][..k] == cmds[..k] {}
      if Settle(books, cmds).Some? {
        forall k | 0 <= k < |cmds|
          ensures cmds[k].accepts && Settle(books, cmds[..k]).Some? && Transfer(Settle(books, cmds[..k]).value, cmds[k].cmd).Some?
        {
          if k < n { assert cmds[..n][k] == cmds[k]; }
        }
      }
    }
  }

  /** The router's balance after a call: the value sent is kept, the cost is paid out, and what was forced in stays. */
  lemma MeshMovesEther(s: State, m: MeshCall)
    requires MeshStep(s, m).Some?
    ensures var t := MeshStep(s, m).value;
      && t.ether == s.ether + m.value - (if m.paymaster == ZERO_ADDRESS then 0 else Cost(m)) + (t.forced - s.forced)
      && t.meshValue == s.meshValue + m.value && t.forced >= s.forced
  {
    hide Cost, Forced, ForcedBy, BooksAfter, Settle;
  }
}
