/** Gas limits derived from a simulation, and the charge of the run they are used for (gasEngine.ts). */
module GasEngine {
  import opened Arithmetic
  import opened Seqs
  import opened Protocol
  import opened RouterSpec
  import GhostRouter

  const SIMULATION_GAS_CAP := 25_000_000
  const PRE_VERIFICATION_FLOOR := 21_000
  const VERIFICATION_BUFFER_NUM := 115
  const VERIFICATION_BUFFER_DEN := 100
  const CALL_CUSHION_NUM := 130
  const CALL_CUSHION_DEN := 100
  const COLD_STORAGE_BUFFER := 40_000

  /** What the two simulations report: gas metered by executeMesh, by its inner call, and the node's estimate. */
  datatype Simulation = Simulation(metered: nat, inner: nat, estimate: nat)
  {
    /** The inner call is metered inside executeMesh, and both simulations run under the cap. */
    predicate Plausible() {
      inner <= metered <= SIMULATION_GAS_CAP && estimate <= SIMULATION_GAS_CAP
    }

    /** `totalGasUsed` of a simulation whose preVerificationGas was 0. */
    function ContractGas(): nat { metered + POST_EXECUTION_OVERHEAD }
  }

  datatype Limits = Limits(verification: int, call: int, pre: int)
  {
    function Total(): int { verification + call + pre }
  }

  function PureVerificationGas(s: Simulation): int { s.ContractGas() - s.inner }

  function DeriveLimits(s: Simulation): Limits {
    var pre := if s.estimate > s.ContractGas() then s.estimate - s.ContractGas() else PRE_VERIFICATION_FLOOR;
    var verification := PureVerificationGas(s) * VERIFICATION_BUFFER_NUM / VERIFICATION_BUFFER_DEN;
    var call := s.inner * CALL_CUSHION_NUM / CALL_CUSHION_DEN + COLD_STORAGE_BUFFER;
    Limits(verification, if call > 0 then call else 30_000, pre)
  }

  /** How much more than the simulation a run may meter before the quote no longer covers it. */
  function Slack(s: Simulation): int {
    DeriveLimits(s).verification - PureVerificationGas(s) + DeriveLimits(s).call - s.inner
  }

  lemma Buffered(gas: nat, extra: nat)
    ensures gas * (100 + extra) / 100 == gas + gas * extra / 100
  {
    var y := gas * extra;
    assert gas * (100 + extra) == 100 * gas + y;
    assert (100 * gas + y) / 100 == gas + y / 100;
  }

  /** The slack is the 15 % and 30 % buffers, rounded down, and the flat 40000. */
  lemma SlackIsTheBuffers(s: Simulation)
    requires s.Plausible()
    ensures Slack(s) == PureVerificationGas(s) * 15 / 100 + s.inner * 30 / 100 + COLD_STORAGE_BUFFER >= COLD_STORAGE_BUFFER
    ensures PureVerificationGas(s) >= POST_EXECUTION_OVERHEAD
  {
    Buffered(PureVerificationGas(s), 15);
    Buffered(s.inner, 30);
  }

  /** The limits are what the contract stores them as, and their 32-bit sum does not overflow. */
  lemma LimitsFit(s: Simulation)
    requires s.Plausible()
    ensures var l := DeriveLimits(s);
      0 <= l.verification <= MAX_UINT32 && 0 <= l.call <= MAX_UINT32 && 0 <= l.pre <= MAX_UINT32 && l.Total() <= MAX_UINT32
  {}

  /**
   `preVerificationGas` is what the node's estimate exceeds the metered gas by, or the floor of 21000 when it does not; with it the
   limits cover both the estimate and everything that was metered, with the slack to spare.
  */
  lemma LimitsCoverTheEstimate(s: Simulation)
    requires s.Plausible()
    ensures var l := DeriveLimits(s);
      && (s.estimate > s.metered + 20_000 ==> s.metered + 20_000 + l.pre == s.estimate)
      && (s.estimate <= s.metered + 20_000 ==> l.pre == 21_000)
      && l.Total() == s.metered + 20_000 + l.pre + Slack(s)
      && l.Total() >= s.estimate + 40_000 && l.Total() >= s.metered + 20_000 + 40_000
  {
    SlackIsTheBuffers(s);
  }

  /** A call is quoted from a simulation when it carries the derived limits. */
  predicate QuotedFrom(m: MeshCall, s: Simulation) {
    var l := DeriveLimits(s);
    m.limits.verification == l.verification && m.limits.call == l.call && m.limits.pre == l.pre
  }

  /** The gas the router charges for: metered, the overhead allowance and preVerificationGas. */
  function ChargedGas(m: MeshCall): nat {
    m.metered + POST_EXECUTION_OVERHEAD + m.limits.pre
  }

  /**
   A run is charged exactly its gas, unclamped and unwrapped, if and only if it meters no more than the
   simulation did plus the slack (or gas is free).
  */
  lemma ChargeIsExactWithinSlack(m: MeshCall, s: Simulation)
    requires s.Plausible() && QuotedFrom(m, s) && Prefund(m) < WORD
    requires ChargedGas(m) < WORD
    ensures Cost(m) == ChargedGas(m) * m.price <==> m.price == 0 || m.metered <= s.metered + Slack(s)
  {
    hide DeriveLimits;
    assert MaxGas(m) - ChargedGas(m) == s.metered + Slack(s) - m.metered;
    hide Slack, MaxGas, ChargedGas, Prefund, Cost;
    CostIsClamped(m);
    if ChargedGas(m) <= MaxGas(m) {
      MulLe(ChargedGas(m), MaxGas(m), m.price);
    } else if m.price > 0 {
      MulLess(MaxGas(m), ChargedGas(m), m.price);
    }
  }

  lemma CostIsClamped(m: MeshCall)
    requires ChargedGas(m) < WORD && Prefund(m) < WORD
    ensures Prefund(m) == MaxGas(m) * m.price
    ensures Cost(m) == ChargedGas(m) * m.price <==> ChargedGas(m) * m.price <= MaxGas(m) * m.price
  {
    hide Cost;
    GhostRouter.ExactCost(m);
  }

  /**
   Quote covers charge: when the real run meters no more than the simulation, the limits exceed the charged gas by
   at least 40000, the clamp and the wrap-around do not happen and the paymaster pays exactly the charged gas.
  */
  lemma QuoteCoversCharge(st: State, m: MeshCall, s: Simulation)
    requires s.Plausible() && QuotedFrom(m, s) && m.metered <= s.metered
    requires m.paymaster != ZERO_ADDRESS && MeshStep(st, m).Some?
    ensures MaxGas(m) >= ChargedGas(m) + COLD_STORAGE_BUFFER
    ensures Cost(m) == ChargedGas(m) * m.price <= Prefund(m) < WORD
    ensures DepositOf(MeshStep(st, m).value, m.paymaster) == DepositOf(st, m.paymaster) - ChargedGas(m) * m.price
  {
    hide Sandbox, Forced, BooksAfter, Cost;
    SlackIsTheBuffers(s);
    assert ChargedGas(m) <= 100_000_000;
    ChargeIsExactWithinSlack(m, s);
    assert DepositOf(AfterSandbox(st, m), m.paymaster) == DepositOf(st, m.paymaster) by { GhostRouter.SandboxKeepsDeposits(st, m); }
  }

  // The authorization list

  datatype SignedCommand = SignedCommand(shard: Address, authorization: int)

  predicate FirstOfShard(commands: seq<SignedCommand>, k: nat) {
    k < |commands| && forall j | 0 <= j < k :: commands[j].shard != commands[k].shard
  }

  /** `extractAuthorizationList`: the authorizations of the first command of every shard, in order. */
  method ExtractAuthorizationList(commands: seq<SignedCommand>) returns (auths: Option<seq<int>>, ghost picked: seq<nat>)
    ensures auths.None? <==> commands == []
    ensures auths.Some? ==> |auths.value| == |picked|
    ensures auths.Some? ==>
      forall k | 0 <= k < |picked| :: picked[k] < |commands| && auths.value[k] == commands[picked[k]].authorization
    ensures forall j, k | 0 <= j < k < |picked| :: picked[j] < picked[k]
    ensures forall p: nat :: p in picked <==> FirstOfShard(commands, p)
  {
    picked := [];
    if |commands| == 0 { return None, []; }
    var seen: set<Address> := {};
    var list: seq<int> := [];
    for i := 0 to |commands|
      invariant forall a :: a in seen <==> exists j | 0 <= j < i :: commands[j].shard == a
      invariant |list| == |picked| && (i > 0 ==> list != [])
      invariant forall k | 0 <= k < |picked| :: picked[k] < i && list[k] == commands[picked[k]].authorization
      invariant forall j, k | 0 <= j < k < |picked| :: picked[j] < picked[k]
      invariant forall p: nat :: p in picked <==> p < i && FirstOfShard(commands, p)
    {
      if commands[i].shard in seen { continue; }
      seen := seen + {commands[i].shard};
      list := list + [commands[i].authorization];
      picked := picked + [i];
    }
    auths := if |list| > 0 then Some(list) else None;
  }
}
