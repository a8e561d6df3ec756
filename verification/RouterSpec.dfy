/**
 The router as atomic steps (GhostRouter.sol). A step either reverts (None) or says what the whole
 call changed. Calls into other accounts are lists of actions those accounts attempt meanwhile;
 a failed attempt is caught and leaves the state as it was.
*/
module RouterSpec {
  import opened Seqs
  import opened Protocol
  import opened Ledger

  const POST_EXECUTION_OVERHEAD: nat := 20_000
  const WORD: nat := 0x1_0000_0000_0000_0000_0000_0000_0000_0000_0000_0000_0000_0000_0000_0000_0000_0000
  const MAX_UINT32: nat := 0xffff_ffff

  type uint32 = n: nat | n <= MAX_UINT32
  type uint256 = n: nat | n < WORD

  datatype GasLimits = GasLimits(verification: uint32, call: uint32, pre: uint32, maxFee: uint256)

  /** A command, who its signature recovers to, and how the called accounts behave. */
  datatype MeshCommand = MeshCommand(
    cmd: Command,
    claimed: Address,
    signer: Address,
    accepts: bool,
    onTransfer: seq<Action>)

  datatype MeshCall = MeshCall(
    value: nat,
    commands: seq<MeshCommand>,
    announced: seq<Address>,
    paymaster: Address,
    payer: Address,
    validUntil: nat,
    now: nat,
    limits: GasLimits,
    price: uint256,
    code: map<Address, Address>,
    callGasSuffices: bool,
    innerGas: uint256,
    metered: uint256,
    relayerAccepts: bool,
    onPayment: seq<Action>)

  /** What an account can attempt. */
  datatype Action =
    | Deposit(sender: Address, value: nat)
    | Withdraw(sender: Address, amount: nat, accepts: bool, onReceive: seq<Action>)
    | Mesh(call: MeshCall)
    | InnerDirect(call: MeshCall)
    | Force(value: nat)
    | Ambient(books: Books)
    | Frame(body: seq<Action>, commits: bool)

  /** A transfer the router made, and the transaction it was made in. */
  datatype Spend = Spend(tx: nat, command: Command)

  /**
   Storage, transient marks, balance and ledger. The last four record what happened:
   the transfers made, the running transaction, the value sent into executeMesh and the ether forced in.
  */
  datatype State = State(
    deposits: map<Address, uint256>,
    spent: set<Address>,
    marks: set<Address>,
    locked: bool,
    ether: nat,
    books: Books,
    history: seq<Spend>,
    tx: nat,
    meshValue: nat,
    forced: nat)

  function DepositOf(s: State, p: Address): uint256 {
    if p in s.deposits then s.deposits[p] else 0
  }

  // What called accounts can achieve while the router is locked

  function Forced(actions: seq<Action>): nat {
    if actions == [] then 0
    else
      var last := match actions[|actions| - 1]
        case Force(value) => value
        case Frame(body, commits) => if commits then Forced(body) else 0
        case _ => 0;
      Forced(actions[..|actions| - 1]) + last
  }

  function BooksAfter(books: Books, actions: seq<Action>): Books
    decreases actions
  {
    if actions == [] then books
    else
      var before := BooksAfter(books, actions[..|actions| - 1]);
      match actions[|actions| - 1]
      case Ambient(b) => b
      case Frame(body, commits) => if commits then BooksAfter(before, body) else before
      case _ => before
  }

  /** Ether can be forced in and other accounts can move their assets; nothing else happens. */
  function Outside(s: State, actions: seq<Action>): State {
    s.(ether := s.ether + Forced(actions), forced := s.forced + Forced(actions), books := BooksAfter(s.books, actions))
  }

  // Deposits

  function DepositStep(s: State, sender: Address, value: nat): Option<State> {
    if s.locked || DepositOf(s, sender) + value >= WORD then None
    else Some(s.(deposits := s.deposits[sender := DepositOf(s, sender) + value], ether := s.ether + value))
  }

  function WithdrawStep(s: State, sender: Address, amount: nat, accepts: bool, onReceive: seq<Action>): Option<State> {
    if s.locked || DepositOf(s, sender) < amount || s.ether < amount || !accepts then None
    else
      Some(Outside(s.(deposits := s.deposits[sender := DepositOf(s, sender) - amount], ether := s.ether - amount),
                   onReceive))
  }

  // The sandbox

  function Shards(cmds: seq<MeshCommand>): set<Address> {
    set k | 0 <= k < |cmds| :: cmds[k].cmd.shard
  }

  function Spends(tx: nat, cmds: seq<MeshCommand>): (h: seq<Spend>)
    ensures |h| == |cmds|
  {
    seq(|cmds|, k requires 0 <= k < |cmds| => Spend(tx, cmds[k].cmd))
  }

  /** All transfers in order, each followed by what the called accounts do. */
  function Settle(books: Books, cmds: seq<MeshCommand>): Option<Books> {
    if cmds == [] then Some(books)
    else
      var c := cmds[|cmds| - 1];
      match Settle(books, cmds[..|cmds| - 1])
      case None => None
      case Some(b) =>
        if !c.accepts then None
        else match Transfer(b, c.cmd)
          case None => None
          case Some(b') => Some(BooksAfter(b', c.onTransfer))
  }

  function ForcedBy(cmds: seq<MeshCommand>): nat {
    if cmds == [] then 0 else ForcedBy(cmds[..|cmds| - 1]) + Forced(cmds[|cmds| - 1].onTransfer)
  }

  /** A shard passes the one-time-use check when it was never spent or is marked in this transaction. */
  predicate Spendable(s: State, shard: Address) {
    shard in s.marks || shard !in s.spent
  }

  predicate Authorized(s: State, c: MeshCommand) {
    Spendable(s, c.cmd.shard) && c.signer == c.cmd.shard
  }

  /** The conditions that do not depend on the ledger. */
  predicate Admitted(s: State, m: MeshCall) {
    && m.callGasSuffices
    && (forall a | a in m.announced :: a !in s.spent)
    && (forall k | 0 <= k < |m.commands| :: Authorized(s, m.commands[k]))
  }

  /** The state after all the commands went through. */
  function Applied(s: State, cmds: seq<MeshCommand>): State
    requires Settle(s.books, cmds).Some?
  {
    s.(spent := s.spent + (Shards(cmds) - s.marks),
       marks := s.marks + Shards(cmds),
       books := Settle(s.books, cmds).value,
       history := s.history + Spends(s.tx, cmds),
       ether := s.ether + ForcedBy(cmds),
       forced := s.forced + ForcedBy(cmds))
  }

  /** All commands apply and all their shards become spent, or the sandbox reverts as a whole. */
  function Sandbox(s: State, m: MeshCall): Option<State> {
    if !Admitted(s, m) || Settle(s.books, m.commands).None? then None else Some(Applied(s, m.commands))
  }

  // The entry point

  function MaxGas(m: MeshCall): nat {
    m.limits.verification + m.limits.call + m.limits.pre
  }

  function Prefund(m: MeshCall): nat {
    MaxGas(m) * m.price
  }

  /** What is charged: the metered cost in 256-bit arithmetic, never more than the prefund. */
  function Cost(m: MeshCall): (c: nat)
    ensures c <= Prefund(m)
  {
    var used := (m.metered + POST_EXECUTION_OVERHEAD + m.limits.pre) % WORD;
    var cost := used * m.price % WORD;
    if cost > Prefund(m) then Prefund(m) else cost
  }

  function ActiveCode(m: MeshCall, shard: Address): Address {
    if shard in m.code then m.code[shard] else ZERO_ADDRESS
  }

  predicate CodeMatches(m: MeshCall) {
    forall k | 0 <= k < |m.commands| :: ActiveCode(m, m.commands[k].cmd.shard) == m.commands[k].claimed
  }

  /** Everything executeMesh checks before and after the sandbox, except that it can pay. */
  predicate Accepted(s: State, m: MeshCall) {
    && !s.locked
    && m.price <= m.limits.maxFee
    && CodeMatches(m)
    && MaxGas(m) <= MAX_UINT32
    && Prefund(m) < WORD
    && m.innerGas * m.price < WORD
    && (m.paymaster != ZERO_ADDRESS ==>
          DepositOf(s, m.paymaster) >= Prefund(m) && m.now <= m.validUntil && m.payer == m.paymaster)
  }

  /** The state in which the sandbox starts: the call's value has arrived and the lock is taken. */
  function Opened(s: State, m: MeshCall): State {
    s.(locked := true, ether := s.ether + m.value, meshValue := s.meshValue + m.value)
  }

  function AfterSandbox(s: State, m: MeshCall): State {
    match Sandbox(Opened(s, m), m)
    case Some(t) => t
    case None => Opened(s, m)
  }

  function MeshStep(s: State, m: MeshCall): Option<State> {
    if !Accepted(s, m) then None
    else
      var after := AfterSandbox(s, m);
      if m.paymaster == ZERO_ADDRESS then Some(after.(locked := false))
      else if after.ether < Cost(m) || !m.relayerAccepts then None
      else
        var paid := after.(deposits := after.deposits[m.paymaster := DepositOf(s, m.paymaster) - Cost(m)],
                           ether := after.ether - Cost(m));
        Some(Outside(paid, m.onPayment).(locked := false))
  }

  // Runs

  function OrElse(s: State, r: Option<State>): State {
    match r case Some(t) => t case None => s
  }

  function Exec(s: State, a: Action): State
    decreases a, 0
  {
    match a
    case Deposit(sender, value) => OrElse(s, DepositStep(s, sender, value))
    case Withdraw(sender, amount, accepts, hook) => OrElse(s, WithdrawStep(s, sender, amount, accepts, hook))
    case Mesh(m) => OrElse(s, MeshStep(s, m))
    case InnerDirect(_) => s
    case Force(value) => s.(ether := s.ether + value, forced := s.forced + value)
    case Ambient(books) => s.(books := books)
    case Frame(body, commits) => if commits then ExecAll(s, body) else s
  }

  function ExecAll(s: State, actions: seq<Action>): State
    decreases actions, 1
  {
    if actions == [] then s
    else Exec(ExecAll(s, actions[..|actions| - 1]), actions[|actions| - 1])
  }

  /** One transaction: transient marks start empty and are gone at its end. */
  function RunTx(s: State, body: seq<Action>): State {
    ExecAll(s.(marks := {}, tx := s.tx + 1), body).(marks := {})
  }

  function Run(s: State, txs: seq<seq<Action>>): State {
    if txs == [] then s else RunTx(Run(s, txs[..|txs| - 1]), txs[|txs| - 1])
  }

  /** A freshly deployed router; ether sent to its address beforehand counts as forced. */
  function Deployed(books: Books, ether: nat): State {
    State(map[], {}, {}, false, ether, books, [], 0, 0, ether)
  }

  /** While the lock is held, every attempt to re-enter reverts: only forced ether and outside moves remain. */
  lemma {:induction false} ReentryIsInert(s: State, actions: seq<Action>)
    requires s.locked
    ensures ExecAll(s, actions) == Outside(s, actions)
    decreases actions
  {
    if actions != [] {
      var front, last := actions[..|actions| - 1], actions[|actions| - 1];
      ReentryIsInert(s, front);
      if last.Frame? && last.commits {
        ReentryIsInert(ExecAll(s, front), last.body);
      }
    }
  }
}
