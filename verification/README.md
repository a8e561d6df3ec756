# GhostShard: a verified model of wallet, router and relayer

GhostShard keeps a wallet's assets in *shards*: one-time accounts at stealth addresses. A transfer selects
shards, splits the payment and the change over many outputs, announces the new addresses on an ERC-5564 announcer and runs
the commands through a router contract that lets each shard be used in one transaction only, with gas
paid from a paymaster's deposit. A relayer queue broadcasts the transactions. The wallet finds its shards again
by trial decryption of the announcement log and corrects its records from chain answers.

The modules follow that path. Every module that models code working in place holds the code as methods on
classes or arrays, proved against specification functions; the results are lemmas about those functions.

- **Selection** - `Randomness`, `Splitting`, `Allocation`, `CoinSelection`, `SelectionProperties`, `SelectionRules`
  (what each shard pays), `SelectionLimits`.
- **Plans** - `Fusion`, `Plan`, `PlanProperties`, `AnnouncedAmounts`, `AnnouncedAssets` (up to the receiver's record), `Deposit`.
- **Router** - `Ledger` (the three transfer functions of a shard), `RouterSpec` (atomic steps), `GhostRouter` (the contract,
  refining them), `RouterProperties` (whole runs), `RouterConditions` (when a call goes through).
- **Together** - `EndToEnd`: selection, plan, fusion, router and ledger in one statement; `ConcreteRuns`: whole runs that fail.
- **Wallet** - `StoreSpec`, `ShardStore`, `StoreProperties`, `WalletBalance`, `WalletTransfer`, `WalletCoins`, `NftSelection`.
- **Chain answers** - `Multicall`, `Splice`, `BalanceVerification`, `ChainTruth` (records against the ledger), `SyncSpec`, `SyncContents`,
  `SyncClient`.
- **Relayer** - `QueueSpec`, `RelayQueue`, `QueueProperties`, `Escrow`, `GasEngine`.
- **Addresses and announcements** - `Bytes`, `Metadata`, `Stealth`.
- `Arithmetic`, `Seqs` and `Protocol` hold division facts, sums, permutations and the shared entities.

Randomness is an adversary's choice: every draw is an arbitrary 32-bit word below 0xffffffff, and the theorems hold for all of them.
Amounts are unbounded integers as in the SDK; the router's 256-bit and 32-bit arithmetic, checked and unchecked, is written out.
Failures of calls, chunks and awaits are parameters, so the theorems hold for every pattern of them.
Promises that run interleaved are events of a state machine.

## Where the code and its text differ

The model follows the code. Each difference is a theorem.

- `randomFloat` promises a fraction below 1, but 0xffffffff / 0xffffffff is 1 (coinSelection.ts:51). `Randomness.Pick` says for
  which words the promise holds; `Splitting.LargestWordBreaksTheCap` and `Randomness.HoleExactlyAtTheLargestWord` say what breaks otherwise.
  Draws elsewhere exclude that word.
- The last branch of the safety valve can ask a shard for a negative payment (coinSelection.ts:262-265). It takes swept extras
  (`SelectionLimits.NothingSweptConserves`); a wallet of four shards that fails is `SelectionLimits.FourShardsMisallocate`, its
  transfer `ConcreteRuns.FourShardTransferFails`. The exact conditions are in `Allocation.TargetsWithinBalances`
  and `Allocation.JointSafeForEveryDraw`, the consequence on the ledger in `EndToEnd.PlanSettlesExactly`.
- "Every spent shard outputs a non-zero payment and non-zero change" (coinSelection.ts:13) fails whenever a wallet pays out all it
  has (`SelectionLimits.SpendingAllBreaksThePromise`) and holds exactly as in `SelectionLimits.PromiseHoldsExactly`; for one and two
  shards the condition is on amount, balances and dust alone.
- The router's "batch" marks live as long as the transaction (EIP-1153, Specification section), so use is
  once per transaction: `RouterProperties.ReuseOnlyWithinTheTransaction`, `RouterProperties.SameShardTwiceInOneTransaction`.
- An address that gets several outputs is announced with the amount of the first one
  (transaction.ts:404-420, 446-466): `AnnouncedAmounts.AnnouncedAmountAgainstReceived`, `ConcreteRuns.SharedRecipientIsUnderAnnounced`.
  Its change shard is likewise recorded with the first amount (index.ts:738-753, shard.ts:41):
  `WalletTransfer.TransferLowersBalanceByAmount`, `ConcreteRuns.SharedChangeAddressUnderRecords`.
- The public mode drops NFT ids that are not positive (transaction.ts:190-191): `PlanProperties.NftPlan`.
- A relay whose execution reverts leaves the change shards in the store (index.ts:832): `StoreProperties.FailureRestoresInputsOnly`,
  `WalletTransfer.RevertedRelayOverstates`. One that throws before there is a hash leaves the inputs pending as well
  (index.ts:798-813), and no sync frees them: `StoreProperties.UnconfirmedRelayKeepsInputsPending`, `SyncSpec.PendingSurvivesRuns`.
- The displayed balance counts every matching asset of a shard, selection only the first:
  `WalletBalance.DisplayedIsSpendable`.
- Verification is said to remove token ids the shard does not own (index.ts:470); an id nobody owns stays, because its query fails:
  `BalanceVerification.VerifiedIds`, `ChainTruth.VerifiedIsTrue`.
- The sender's text in an announcement is lost when the nonce happens to start with the view tag and the text is longer than
  26 bytes (announce.ts:113): `Metadata.SenderComesBackExactly`.
- The queue's debt accumulator relies on different transactions having different hashes:
  `QueueSpec.RegisterKeepsCacheExactly`, `QueueProperties.SharedHashLeavesStaleDebt`.
- The queue's header says a deposit is never over-committed (queue.ts:19-21). The check (relayer/service.ts:102-119) sees locks only:
  relays that wait have none yet (`Escrow.TwoAdmittedRelaysOverCommit`), and a timeout releases the lock of a transaction that can
  still be mined (queue.ts:235-241, `Escrow.TimedOutRelayIsForgotten`). `Escrow.CheckSufficesExactly` is the exact condition and
  `Escrow.EveryCarefulRunIsCovered` the law for a relayer that keeps it. Its worst case is priced at the gas price of
  the check: `Escrow.WorstCaseCoversPrefundExactly`.

## Model

| member | source | states |
|---|---|---|
| `EndToEnd.TransferEndToEnd` | ghost-shard-sdk/src/transaction.ts:371-529 | From request to ledger: a fundable fungible transfer over distinct shards that hold their recorded balances, to fresh separate addresses, without misallocation, succeeds in the sandbox in any command order and for all draws; inputs end empty and spent, recipients gain exactly the amount, the change pool exactly the rest, which is `changeAmount` |
| `EndToEnd.TransferMovesOneCoin` | ghost-shard-sdk/src/transaction.ts:371-529 | The same call moves no other coin and no token id |
| `EndToEnd.NftEndToEnd` | ghost-shard-sdk/src/transaction.ts:371-529 | If and only if: the plan of a token id, signed and carried through the sandbox by an unspent shard, goes through exactly when the shard owns the id; then the recipient owns it, the shard is spent and nothing else has moved |
| `EndToEnd.PlanSettlesExactly` | ghost-shard-sdk/src/coinSelection.ts:243-297 | If and only if: the plan's commands settle on the ledger exactly when the joint phase did not take its misallocating branch |
| `EndToEnd.SelectionSettles` | ghost-shard-sdk/src/coinSelection.ts:191-327 | The part of that path before the router: the commands of a non-misallocating selection settle on the ledger and drain the inputs into the two pools |
| `EndToEnd.PlanDrainsInputs` | ghost-shard-sdk/src/transaction.ts:385-529 | Any permutation of a plan's fused commands, on a ledger where each input holds what its row sends, empties the inputs, fills the pools by the row totals and leaves every other account alone |
| `EndToEnd.SelectedInputsAreDistinct` | ghost-shard-sdk/src/coinSelection.ts:55-61 | No shard of a duplicate-free pool is selected twice, whatever the shuffle |
| `EndToEnd.InputSends` | ghost-shard-sdk/src/coinSelection.ts:207-225 | Every selected shard appears as the sender of some command |
| `EndToEnd.OneShardTransfer` | ghost-shard-sdk/src/transaction.ts:135-311 | The smallest case with elementary hypotheses only: a one-shard wallet, any positive amount up to its balance, all draws; a call exists that pays the amount, returns the rest and leaves the shard empty and spent |
| `EndToEnd.SandboxCarries` | ghost-router-singleton/src/GhostRouter.sol:314-376 | Signed commands of unspent shards that settle on the ledger make the sandbox succeed and spend all their shards |
| `Randomness.Pick` | ghost-shard-sdk/src/coinSelection.ts:48-53 | A draw stays below its range exactly for words other than 0xffffffff; for that word it equals the range |
| `Randomness.EveryValueIsDrawn` | ghost-shard-sdk/src/coinSelection.ts:48-53 | Every value of a range is reached by some word, so the theorems over all draws exclude none |
| `Randomness.ShuffleInPlace` | ghost-shard-sdk/src/coinSelection.ts:55-61 | The in-place pass produces the swap sequence's result and keeps the elements |
| `Randomness.ShuffleKeepsElements` | ghost-shard-sdk/src/coinSelection.ts:55-61 | Shuffling is a permutation for every sequence of draws |
| `Randomness.EveryOrderIsDrawn` | ghost-shard-sdk/src/coinSelection.ts:55-61 | Every order of a list is the result of some draws, so the shuffle excludes none |
| `Randomness.HoleExactlyAtTheLargestWord` | ghost-shard-sdk/src/coinSelection.ts:55-61 | If and only if: the shuffle reads past the end and leaves a hole in the array exactly when its first word is 0xffffffff; no later word does |
| `Splitting.GenerateSplitsForShard` | ghost-shard-sdk/src/coinSelection.ts:104-130 | The loop with its early break computes the recursive splitting, for every word drawn for the count |
| `Splitting.SplitsConserve` | ghost-shard-sdk/src/coinSelection.ts:104-130 | The splits of a positive pool add up to it, a non-positive pool gives none, and there are at most max(1, maxOutputs) |
| `Splitting.SplitsAboveDust` | ghost-shard-sdk/src/coinSelection.ts:116-125 | No split is below the dust threshold unless the whole pool is |
| `Splitting.SplitsAreCut` | ghost-shard-sdk/src/coinSelection.ts:104-130 | What a cut looks like: nothing, the whole amount, or pieces of a quarter to 74 per cent of the room (at least the threshold) until the drawn number is reached or the room is gone |
| `Splitting.CutInTwoExactly` | ghost-shard-sdk/src/coinSelection.ts:108-116 | If and only if: there are two outputs or more exactly when more than one was drawn and every drawn one can have the threshold with something to spare |
| `Splitting.EveryShareIsCut` | ghost-shard-sdk/src/coinSelection.ts:117-120 | Every share from 25 to 74 per cent is cut for some draw |
| `Splitting.LargestWordBreaksTheCap` | ghost-shard-sdk/src/coinSelection.ts:104-130 | Counterexample to the cap on the whole of generateSplitsForShard: the word 0xffffffff cuts a pool of 1000000 in four where three outputs are allowed, whatever the percentages |
| `Allocation.EarlyContributionBounds` | ghost-shard-sdk/src/coinSelection.ts:277-297 | The early phase contributes between 0 and both the balance and the need, and leaves a need the later shards can cover |
| `Allocation.TargetsFollowTheRules` | ghost-shard-sdk/src/coinSelection.ts:236-302 | Every early shard pays all that is needed, or its whole balance, or keeps the dust threshold; the smaller of balance and need when its duty and the threshold do not both fit; the last two share 30 to 69 per cent when both can keep the threshold, or one hands over all, the first exactly when the need exceeds it |
| `Allocation.EveryEarlyShareIsDrawn` | ghost-shard-sdk/src/coinSelection.ts:284-290 | A shard that is free to choose pays any percentage of its range for some draw |
| `Allocation.EveryJointShareIsDrawn` | ghost-shard-sdk/src/coinSelection.ts:243-247 | Every percentage from 30 to 69 is drawn for the first of the last two shards |
| `Allocation.JointFacts` | ghost-shard-sdk/src/coinSelection.ts:243-272 | The joint phase never throws when enough is left, always pays the need exactly, and stays within both balances exactly when it does not misallocate |
| `Allocation.TargetsPayTheAmount` | ghost-shard-sdk/src/coinSelection.ts:236-302 | The inner "Insufficient" throw cannot be reached and the targets add up to the amount, for all draws |
| `Allocation.TargetsWithinBalances` | ghost-shard-sdk/src/coinSelection.ts:236-302 | If and only if: every target lies between 0 and its balance exactly when the last valve branch is not taken with a need below both balances |
| `Allocation.JointSafeForEveryDraw` | ghost-shard-sdk/src/coinSelection.ts:243-265 | If and only if: the numeric condition on need, balances and dust under which no draw misallocates |
| `Allocation.LargeLastBalancesAreSafe` | ghost-shard-sdk/src/coinSelection.ts:243-265 | Last two balances of at least 10/3 of the dust rule misallocation out for every need and draw |
| `Allocation.ShortestSelectionIsSafe` | ghost-shard-sdk/src/coinSelection.ts:243-265 | A selection in which all shards but the last cannot cover the amount never misallocates, whatever the dust threshold and the draws |
| `Allocation.TinyBalanceMisallocates` | ghost-shard-sdk/src/coinSelection.ts:262-265 | The allocation loop on balances 100 and 1000000, need 50 and dust 10000 gives the first target -999950, for all draws |
| `Allocation.EveryShardPaysAndKeepsChange` | ghost-shard-sdk/src/coinSelection.ts:227-302 | If and only if: every target is positive and below its balance exactly when the guards along the loop leave both |
| `Allocation.OneShardPaysAndKeepsChange` | ghost-shard-sdk/src/coinSelection.ts:274-297 | If and only if: a single shard leaves both exactly when the amount is positive and below its balance, whatever the draw |
| `Allocation.TwoShardsPayAndKeepChangeForEveryDraw` | ghost-shard-sdk/src/coinSelection.ts:243-265 | If and only if: two shards leave both for every draw exactly when the amount is at least 4 and its 30 and 69 per cent splits keep the dust threshold in both shards |
| `SelectionLimits.PromiseHoldsExactly` | ghost-shard-sdk/src/coinSelection.ts:13-13 | If and only if: on a whole run of the engine every spent shard has a payment and a change output exactly when the guards leave both |
| `SelectionLimits.SpendingAllBreaksThePromise` | ghost-shard-sdk/src/coinSelection.ts:13-13 | The promise fails for every wallet that pays out all it has, whatever the draws |
| `CoinSelection.HalfRoot` | ghost-shard-sdk/src/coinSelection.ts:77 | The integer k with 4k^2 <= n < 4(k+1)^2, for floor(sqrt(n) * 0.5) |
| `CoinSelection.CompressionIsCapped` | ghost-shard-sdk/src/coinSelection.ts:72-102 | The exact ranges of extra shards and change outputs per wallet size, for every draw, hence at most 15 extras and 2 to 5 change outputs |
| `CoinSelection.EveryMetricIsDrawn` | ghost-shard-sdk/src/coinSelection.ts:72-102 | Every number in those ranges is drawn |
| `CoinSelection.PrimaryIsShortest` | ghost-shard-sdk/src/coinSelection.ts:204-209 | The gathered prefix is the shortest that covers the amount |
| `CoinSelection.GatherPrimary` | ghost-shard-sdk/src/coinSelection.ts:199-209 | The cursor loop takes that prefix and returns its sum |
| `CoinSelection.SuffixCapacities` | ghost-shard-sdk/src/coinSelection.ts:227-234 | Entry k of the array is the sum of all later balances |
| `CoinSelection.JointPhase` | ghost-shard-sdk/src/coinSelection.ts:243-272 | The branches of the joint phase compute its specification |
| `CoinSelection.EarlyPhase` | ghost-shard-sdk/src/coinSelection.ts:277-297 | The branches with their overwriting give the specified contribution, which lies between 0 and both balance and need and leaves a need the later shards can cover |
| `CoinSelection.AllocateTargets` | ghost-shard-sdk/src/coinSelection.ts:236-302 | The loop over array, suffix capacities and running debt computes the recursive allocation, including its error |
| `CoinSelection.SplitTargets` | ghost-shard-sdk/src/coinSelection.ts:304-318 | Payment and change rows are the splits of target and of balance minus target |
| `CoinSelection.RunSelectionEngine` | ghost-shard-sdk/src/coinSelection.ts:191-327 | The whole engine on the array refines the engine as a function of the shuffled pool |
| `SelectionProperties.InsufficientExactlyWhenTooSmall` | ghost-shard-sdk/src/coinSelection.ts:211-213 | If and only if: selection is refused exactly when all balances together are below the amount, whatever order and draws |
| `SelectionProperties.PlanConservesExactly` | ghost-shard-sdk/src/coinSelection.ts:197-318 | A fundable request always yields a plan; every row spends exactly its shard and the payments total the amount if and only if there was no misallocation |
| `SelectionProperties.MisallocatedRowOverspends` | ghost-shard-sdk/src/coinSelection.ts:262-265 | After a misallocation some row sends more than its shard holds |
| `SelectionProperties.LargeBalancesConserve` | ghost-shard-sdk/src/coinSelection.ts:197-318 | Balances of at least 10/3 of the dust throughout the pool suffice for conservation |
| `SelectionLimits.NothingSweptConserves` | ghost-shard-sdk/src/coinSelection.ts:215-225 | Without swept extras the engine never misallocates, for any dust threshold |
| `SelectionLimits.SmallWalletConserves` | ghost-shard-sdk/src/coinSelection.ts:72-75 | Hence no wallet of at most three shards ever misallocates |
| `SelectionLimits.FourShardsMisallocate` | ghost-shard-sdk/src/coinSelection.ts:215-272 | A wallet of four shards and draws for which the engine misallocates: 100 and 1000000 first, 50 to pay at the default dust, one extra swept |
| `ConcreteRuns.FourShardTransferFails` | ghost-shard-sdk/src/coinSelection.ts:191-327 | That wallet on a ledger holding its recorded balances: selection and plan succeed, the commands do not settle |
| `SelectionProperties.PlanOutputsAreBounded` | ghost-shard-sdk/src/coinSelection.ts:304-318 | At most maxSplits payments and 5 change outputs per row, all positive |
| `SelectionProperties.SelectionIsShortestPlusExtras` | ghost-shard-sdk/src/coinSelection.ts:199-225 | The selection is the shortest covering prefix and then the drawn number of extras, at most 15, or the whole pool |
| `SelectionRules.SelectionFollowsTheRules` | ghost-shard-sdk/src/coinSelection.ts:236-318 | The same rules on the rows of a whole run of the engine: the sums of the early payment rows always, those of the last two without misallocation; change rows hold the rest; every row is cut under its own cap |
| `Fusion.FuseStep` | ghost-shard-sdk/src/transaction.ts:479-498 | One command into the map of live objects: NFTs pushed, fungibles added to an existing clone or cloned; originals are not modified |
| `Fusion.AddTo` | ghost-shard-sdk/src/transaction.ts:488-497 | The clone found by key is updated in place and nothing else is |
| `Fusion.Fuse` | ghost-shard-sdk/src/transaction.ts:474-501 | The loop over command objects gives the fused list and leaves the input objects unmodified |
| `Fusion.FusionPreservesFlow` | ghost-shard-sdk/src/transaction.ts:474-498 | For every selection of keys the fused list moves the same total |
| `Fusion.FusedIsOneCommandPerKey` | ghost-shard-sdk/src/transaction.ts:474-498 | After the NFTs comes exactly one command per key, in order of first use, carrying the key's total |
| `Fusion.FirstUsesAreTheKeys` | ghost-shard-sdk/src/transaction.ts:487-501 | The keys of the fused commands are the keys used, each once |
| `Fusion.NftsAppend` | ghost-shard-sdk/src/transaction.ts:479-485 | NFT commands keep their order and number through fusion; other commands leave no trace among them |
| `Fusion.FusionIgnoresOrder` | ghost-shard-sdk/src/transaction.ts:474-498 | Permuting the input leaves every key's fused total the same |
| `Plan.Track` | ghost-shard-sdk/src/transaction.ts:404-420 | An address is announced only if it is not announced yet |
| `Plan.PaymentLoop` | ghost-shard-sdk/src/transaction.ts:387-421 | The payment loop of a row: skipped amounts, chosen recipients, announcements |
| `Plan.ChangeLoop` | ghost-shard-sdk/src/transaction.ts:423-467 | The change loop of a row with its change records |
| `Plan.BuildRow` | ghost-shard-sdk/src/transaction.ts:385-471 | A row's payments and change, shuffled together |
| `Plan.TotalChange` | ghost-shard-sdk/src/transaction.ts:522-529 | `changeAmount` is the sum of the change records |
| `Plan.FuseValues` | ghost-shard-sdk/src/transaction.ts:474-498 | Fusion of the collected commands |
| `Plan.Prepare` | ghost-shard-sdk/src/transaction.ts:371-529 | Both prepare functions, row by row, give the plan whose properties follow |
| `PlanProperties.FlowFrom` | ghost-shard-sdk/src/transaction.ts:386-471 | What leaves an input shard is what its payment and change rows send |
| `PlanProperties.FlowIntoPools` | ghost-shard-sdk/src/transaction.ts:386-471 | What enters the recipients is all payments, what enters the change pool all change |
| `PlanProperties.ChangeAmountIsChangeFlow` | ghost-shard-sdk/src/transaction.ts:522-529 | `changeAmount` equals the fused flow into the change pool |
| `PlanProperties.AnnounceAllFacts` | ghost-shard-sdk/src/transaction.ts:446-466 | Announced addresses are exactly the outputs' addresses, each once |
| `PlanProperties.PrivatePlanAnnouncesItsOutputs` | ghost-shard-sdk/src/transaction.ts:317-529 | A private plan announces exactly the addresses its fused commands pay |
| `PlanProperties.NftPlan` | ghost-shard-sdk/src/transaction.ts:190-191 | An NFT plan is one command, except that the public mode drops ids that are not positive while the private mode sends them |
| `AnnouncedAmounts.PublicPlanAnnouncesItsChange` | ghost-shard-sdk/src/transaction.ts:227-250 | A public plan announces exactly its change addresses, each once, and never the known recipient |
| `AnnouncedAmounts.ChangeRecordsAreFlows` | ghost-shard-sdk/src/transaction.ts:438-442 | The change records of an address add up to what the fused commands carry there |
| `AnnouncedAmounts.ChangeRecordAgainstReceived` | ghost-shard-sdk/src/transaction.ts:438-442 | If and only if: one record states what its address receives exactly when no other change output goes there |
| `AnnouncedAmounts.EveryTargetIsDrawn` | ghost-shard-sdk/src/transaction.ts:390-392 | Every recipient of the pool and every change address is drawn for every output |
| `AnnouncedAmounts.EveryRowOrderIsDrawn` | ghost-shard-sdk/src/transaction.ts:469-471 | The commands of a row come in every order for some draws |
| `AnnouncedAssets.FusedKeepsKeys` | ghost-shard-sdk/src/transaction.ts:476-502 | Every fused command has shard, kind, token and recipient of a command it was fused from |
| `AnnouncedAssets.PlanNamesOneAsset` | ghost-shard-sdk/src/transaction.ts:404-466 | All announcements and all commands of a plan name the kind and the token of the request |
| `AnnouncedAssets.ReceiverParsesWhatIsSent` | ghost-shard-sdk/src/discovery.ts:38-73 | An announcement of a plan, packed and parsed under one secret, records an asset of the kind and token of the commands, with a balance that never exceeds what they send to the address and equals it exactly for a single output |
| `AnnouncedAssets.RecipientDiscoversWhatIsSent` | ghost-shard-sdk/src/discovery.ts:98-136 | The same through generation of the address and trial decryption by the wallet it was generated for |
| `AnnouncedAssets.NftIsAnnounced` | ghost-shard-sdk/src/transaction.ts:404-420 | A private NFT transfer announces its one address with the token and the id that its one command carries |
| `AnnouncedAmounts.AnnouncedAmountAgainstReceived` | ghost-shard-sdk/src/transaction.ts:446-466 | In both modes an announcement never overstates what its address receives, and states it exactly if and only if one output of the plan goes there and no other |
| `AnnouncedAmounts.PlanSends` | ghost-shard-sdk/src/transaction.ts:385-471 | What the commands carry into an address is the sum of the plan's outputs to it, announced or not |
| `ConcreteRuns.SharedRecipientIsUnderAnnounced` | ghost-shard-sdk/src/transaction.ts:404-420 | A whole run with two payments drawn to one address: the announcement states less than the fused commands carry there |
| `Ledger.TransfersSettle` | ghost-router-singleton/src/GhostShard.sol:56-106 | Transfers whose sources are covered and never receive settle in any order, with the net effect of the flows |
| `Ledger.SettledIsCovered` | ghost-router-singleton/src/GhostShard.sol:56-106 | The converse: settled one-way transfers were covered |
| `Ledger.PoolGains` | ghost-router-singleton/src/GhostShard.sol:56-106 | A pool of addresses gains what flows into it |
| `Ledger.NftTransferExactly` | ghost-router-singleton/src/GhostShard.sol:92-106 | If and only if: an ERC721 transfer goes through exactly when the id is not negative and the shard owns it; then the recipient owns it and no other owner and no balance has changed |
| `Ledger.FungibleTransferExactly` | ghost-router-singleton/src/GhostShard.sol:56-84 | If and only if: ether or a token goes through exactly when the shard holds it; it moves between the two accounts, and no other coin and no owner changes |
| `Ledger.TransfersTouchOneCoin` | ghost-router-singleton/src/GhostShard.sol:56-106 | Any settled list of one coin leaves other coins and all token ids alone |
| `RouterSpec.ReentryIsInert` | ghost-router-singleton/src/GhostRouter.sol:104-128 | While the lock is held, whatever called accounts attempt leaves the router as it is, apart from forced ether and moves of other accounts |
| `RouterSpec.Cost` | ghost-router-singleton/src/GhostRouter.sol:236-246 | The charge never exceeds the prefund, even when the 256-bit product wraps |
| `GhostRouter.Router.DepositGas` | ghost-router-singleton/src/GhostRouter.sol:104-107 | Refines the deposit step: reverts under the lock or on overflow |
| `GhostRouter.Router.WithdrawGas` | ghost-router-singleton/src/GhostRouter.sol:109-116 | Refines the withdraw step, with the lock held during the outgoing call |
| `GhostRouter.Router.PreScan` | ghost-router-singleton/src/GhostRouter.sol:147-174 | The scan accepts exactly when every shard runs the claimed code |
| `GhostRouter.Router.DebitPaymaster` | ghost-router-singleton/src/GhostRouter.sol:182-216 | Prefund taken, or revert; the unchecked subtraction does not underflow |
| `GhostRouter.Router.Charge` | ghost-router-singleton/src/GhostRouter.sol:235-246 | The unchecked computation charges at most the prefund, and exactly the gas used times the price if and only if that is within the prefund and the gas does not wrap |
| `GhostRouter.Router.Reconcile` | ghost-router-singleton/src/GhostRouter.sol:234-270 | Refund and payment: the unchecked addition does not overflow and the deposit ends lower by exactly the cost |
| `GhostRouter.Router.ExecuteMesh` | ghost-router-singleton/src/GhostRouter.sol:121-281 | The entry point, with its storage updated step by step, refines one atomic step or reverts with all state restored |
| `GhostRouter.Router.InnerExecuteMesh` | ghost-router-singleton/src/GhostRouter.sol:286-377 | The sandbox either applies all commands in order or reverts |
| `GhostRouter.Router.CommandLoop` | ghost-router-singleton/src/GhostRouter.sol:314-376 | The loop over commands with spent map, transient marks and ledger computes the sandbox's result |
| `GhostRouter.Router.OneCommand` | ghost-router-singleton/src/GhostRouter.sol:317-375 | One command: one-time-use check, mark, signature, transfer, called account |
| `GhostRouter.Router.PerformAll` | ghost-router-singleton/src/GhostRouter.sol:104-128 | Any list of re-entry attempts by a called account is inert under the lock |
| `RouterProperties.PaymentIsAlwaysFunded` | ghost-router-singleton/src/GhostRouter.sol:263-270 | When executeMesh reaches the payment it always has the ether for it |
| `RouterProperties.MeshIsSolvent` | ghost-router-singleton/src/GhostRouter.sol:176-270 | executeMesh keeps the balance at least the deposits plus the value sent in |
| `RouterProperties.AnyDepositCanBeWithdrawn` | ghost-router-singleton/src/GhostRouter.sol:109-116 | In a solvent state with the lock free a withdrawal succeeds if and only if it does not exceed the deposit, and lowers that deposit and the balance alone |
| `RouterProperties.ReuseOnlyWithinTheTransaction` | ghost-router-singleton/src/GhostRouter.sol:317-332 | If and only if: a shard passes the one-time-use check exactly when all its earlier transfers were in the running transaction |
| `RouterProperties.AppliedIsRecorded` | ghost-router-singleton/src/GhostRouter.sol:314-376 | A successful sandbox keeps the record: a shard is spent exactly when it has transferred, all within one transaction |
| `RouterProperties.TxIsSound` | ghost-router-singleton/src/GhostRouter.sol:121-377 | A transaction with any calls, nested and failing frames included, keeps solvency and the record of use |
| `RouterProperties.EveryRunIsSound` | ghost-router-singleton/src/GhostRouter.sol:104-377 | After every run of transactions: ether = deposits + value sent to executeMesh + forced ether, a shard is spent exactly when it has transferred, and all transfers out of one shard lie in one transaction |
| `RouterProperties.EveryReachableStateIsSound` | ghost-router-singleton/src/GhostRouter.sol:104-377 | Every reachable state, inside a transaction too: the same invariant, every mark spent and made in the running transaction, the lock free between calls, and every deposit withdrawable in full and no more |
| `RouterProperties.SpentIsPermanent` | ghost-router-singleton/src/GhostRouter.sol:326-332 | No continuation of a run ever clears a spent mark |
| `RouterProperties.MeshIsAtomic` | ghost-router-singleton/src/GhostRouter.sol:177-281 | One call: the paymaster loses exactly the cost, within the prefund, nobody else loses anything; either the ledger is settled by all commands in order, all are recorded and all their shards spent, or ledger, record and spent map are untouched, but for what the paid relayer's account moves |
| `RouterProperties.SandboxSucceedsExactly` | ghost-router-singleton/src/GhostRouter.sol:286-377 | If and only if: gas, announcements of unused shards, own signatures, no use in an earlier transaction, and settlement |
| `RouterConditions.DepositCreditsTheSender` | ghost-router-singleton/src/GhostRouter.sol:104-107 | A deposit reverts exactly under the lock or on overflow, and credits the sender alone with the value |
| `RouterConditions.WithdrawSucceedsExactly` | ghost-router-singleton/src/GhostRouter.sol:109-116 | If and only if: in a solvent state a withdrawal goes through exactly when the lock is free, the deposit covers it and the receiver accepts; it debits the sender alone, whatever the receiver attempts |
| `RouterConditions.MeshSucceedsExactly` | ghost-router-singleton/src/GhostRouter.sol:121-281 | If and only if: every condition under which executeMesh does not revert, in terms of the arguments and the deposit: lock, fee ceiling, code of every shard, 32-bit and 256-bit limits, prefund, deadline, paymaster signature and the relayer taking the payment |
| `RouterConditions.CostIsTheSmaller` | ghost-router-singleton/src/GhostRouter.sol:235-246 | Without wrap-around the charge is the smaller of the exact cost and the prefund |
| `RouterConditions.MeshMovesEther` | ghost-router-singleton/src/GhostRouter.sol:248-270 | The balance after a call: the value sent is kept, the cost is paid out, what was forced in stays |
| `RouterConditions.SettlesExactly` | ghost-router-singleton/src/GhostRouter.sol:314-376 | If and only if: the commands settle exactly when every recipient accepts and every transfer goes through on the books the earlier ones left |
| `RouterProperties.SameShardTwiceInOneTransaction` | ghost-router-singleton/src/GhostRouter.sol:321-332 | Counterexample to one-time use per call: one shard sends in two executeMesh calls of a transaction |
| `ShardStore.Store.Add` | ghost-shard-sdk/src/shard.ts:39-47 | Adds a fresh, never pending clone unless the address is stored; existing references stay |
| `ShardStore.Store.AddMany` | ghost-shard-sdk/src/shard.ts:49-51 | Adding in order |
| `ShardStore.Store.GetUnspent` | ghost-shard-sdk/src/shard.ts:53-55 | Hands out references of the store itself, the unspent and not pending ones, in order |
| `ShardStore.Store.GetUnspentForAsset` | ghost-shard-sdk/src/shard.ts:57-69 | Those with an asset of the type, token and id |
| `ShardStore.Store.GetBalanceForAsset` | ghost-shard-sdk/src/shard.ts:71-88 | The nested reductions over live shards and assets give the displayed balance, the sum compared with the spendable one in WalletBalance.DisplayedIsSpendable |
| `ShardStore.Store.GetNfts` | ghost-shard-sdk/src/shard.ts:90-105 | The nested loops list an NFT if and only if some unspent stored shard of that address holds it, in store order |
| `ShardStore.CountAssets` | ghost-shard-sdk/src/shard.ts:76-86 | The inner reduction: token ids are counted, balances added, other assets skipped |
| `ShardStore.ListAssets` | ghost-shard-sdk/src/shard.ts:93-101 | The inner loops: one entry for every id of every ERC721 asset of a shard, in order |
| `ShardStore.Store.Get` | ghost-shard-sdk/src/shard.ts:107-110 | A stored shard of that address, none exactly when there is none |
| `ShardStore.Store.ImportState` | ghost-shard-sdk/src/shard.ts:123-126 | Exported state comes back as new objects, out of reach of references handed out earlier |
| `ShardStore.Store.SetPending` | ghost-shard-sdk/src/shard.ts:129-135 | The flags of exactly the listed shards change, on the live objects |
| `ShardStore.Store.RemoveMany` | ghost-shard-sdk/src/shard.ts:138-140 | Exactly the listed addresses disappear, order kept |
| `ShardStore.Store.ConfirmFailed` | ghost-shard-sdk/src/shard.ts:143-152 | Marks are cleared and the change shard, if named, removed |
| `StoreProperties.EveryRunKeepsAddressesUnique` | ghost-shard-sdk/src/shard.ts:39-152 | No sequence of store operations ever stores an address twice |
| `StoreProperties.AddedManyAppends` | ghost-shard-sdk/src/shard.ts:39-51 | Adding appends the first shard of each new address, not pending, and nothing else |
| `StoreProperties.NewOnesAreGiven` | ghost-shard-sdk/src/shard.ts:39-51 | What is stored of a new shard is the shard that was given, not pending |
| `StoreProperties.FailureRestoresInputsOnly` | ghost-shard-sdk/src/index.ts:832 | After an execution that reverted on chain every input is as before but the added change shards stay; the store is restored if and only if no change address was new |
| `StoreProperties.UnconfirmedRelayKeepsInputsPending` | ghost-shard-sdk/src/index.ts:785-816 | When the signature, the paymaster or the relayer throws, or nobody confirms, every stored input stays pending; the store is as before if and only if no input was stored and no change address new |
| `StoreProperties.ExecutedRelayRemovesInputs` | ghost-shard-sdk/src/index.ts:829-831 | After an executed relay the store holds exactly the other shards and the new change |
| `SyncClient.Client.RelayTransfer` | ghost-shard-sdk/src/index.ts:785-841 | Recording and confirming on the live store, for each way a relay can end |
| `WalletTransfer.RevertedRelayOverstates` | ghost-shard-sdk/src/index.ts:832 | After a reverted execution the displayed balance is too high by the recorded change, and right if and only if no change address was new |
| `StoreProperties.FailureWithChangeAddressRestoresAll` | ghost-shard-sdk/src/shard.ts:143-152 | Naming the one change address undoes a one-change transfer completely |
| `WalletBalance.SelectFungible` | ghost-shard-sdk/src/coinSelection.ts:132-161 | Selection over first matching positive balances is the engine on that pool |
| `WalletBalance.DisplayedIsSpendable` | ghost-shard-sdk/src/shard.ts:71-88 | Spendable never exceeds displayed, and equals it if and only if no unspent shard holds anything in an asset after its first match |
| `WalletBalance.RefusedExactlyAboveDisplayed` | ghost-shard-sdk/src/coinSelection.ts:132-161 | Under that condition a transfer is refused if and only if it exceeds the displayed balance |
| `WalletBalance.SelectionComesFromStore` | ghost-shard-sdk/src/coinSelection.ts:132-161 | Selected items are distinct unspent shards of the store with their own balances |
| `WalletTransfer.DisplayedAfterPrepare` | ghost-shard-sdk/src/index.ts:732-760 | Preparing removes exactly the inputs' balances from the display and adds the change that was recorded |
| `WalletTransfer.RecordedChange` | ghost-shard-sdk/src/index.ts:738-753 | Recorded change never exceeds sent change, and equals it if and only if every change address is new and used once |
| `WalletTransfer.TransferLowersBalanceByAmount` | ghost-shard-sdk/src/index.ts:732-783 | From selection to store: the displayed balance drops by at least the amount, and by exactly the amount if and only if no change address repeats |
| `ConcreteRuns.SharedChangeAddressUnderRecords` | ghost-shard-sdk/src/index.ts:738-753 | A whole run with two change outputs to one address: preparing a transfer of 50000 lowers the displayed balance of 100000 by more than 50000 |
| `WalletTransfer.ConfirmationKeepsBalance` | ghost-shard-sdk/src/index.ts:246-252 | Confirming removes hidden shards only; the displayed balance stays |
| `WalletCoins.DisplayedIsTheCoin` | ghost-shard-sdk/src/shard.ts:71-88 | The displayed balance of ether or a token is what the unspent shards record of that coin and of no other |
| `WalletCoins.OfferedForTheCoin` | ghost-shard-sdk/src/shard.ts:57-69 | If and only if: the shards offered for a coin are the unspent ones that record it |
| `WalletCoins.DisplayedNftsAreListed` | ghost-shard-sdk/src/shard.ts:71-105 | The displayed number of NFTs of a token is the number of its entries in the list of NFTs |
| `WalletCoins.WithoutTokenNothingIsShown` | ghost-shard-sdk/src/shard.ts:57-69 | Without a token address a token type shows nothing |
| `NftSelection.SelectNft` | ghost-shard-sdk/src/coinSelection.ts:163-187 | The first shard holding the id, with the id as its only split; an error exactly when none holds it or a field is missing |
| `NftSelection.NftIsSelectableExactlyWhenListed` | ghost-shard-sdk/src/shard.ts:90-105 | If and only if: an id can be selected exactly when the wallet lists it, under a shard it is listed for |
| `Multicall.BuildBatch` | ghost-shard-sdk/src/multicall.ts:54-105 | Calls and mapping run in lockstep; the mapping lists exactly the positions that can be asked, each once, in increasing order |
| `BalanceVerification.ApplyAnswer` | ghost-shard-sdk/src/index.ts:516-543 | One answer: a balance is written into the live asset, or a foreign owner is noted |
| `BalanceVerification.ApplyChunk` | ghost-shard-sdk/src/index.ts:488-546 | One chunk of answers, whatever arrived before it |
| `BalanceVerification.SpliceDead` | ghost-shard-sdk/src/index.ts:551-559 | The sort and the splices on the live lists |
| `BalanceVerification.VerifyShardBalances` | ghost-shard-sdk/src/index.ts:472-562 | For every arrival order and every set of failed chunks: balances answered are overwritten, each NFT list loses exactly the ids found to be owned by others, everything else stays |
| `BalanceVerification.AnyArrivalOrder` | ghost-shard-sdk/src/index.ts:488-549 | The order in which chunks report does not matter |
| `BalanceVerification.VerifiedTokens` | ghost-shard-sdk/src/index.ts:516-559 | With all chunks in, an id stays if and only if its `ownerOf` failed or returned the shard |
| `BalanceVerification.VerifiedBalance` | ghost-shard-sdk/src/index.ts:523-528 | For any set of answers heard: a native or ERC20 balance becomes the number answered for its slot and stays as recorded without one; kind and token stay |
| `BalanceVerification.VerifiedIds` | ghost-shard-sdk/src/index.ts:529-559 | If and only if: for any set of answers heard an id goes exactly when its query named somebody else |
| `ChainTruth.VerifiedIsTrue` | ghost-shard-sdk/src/index.ts:472-562 | With all answers heard and honest, every record is that of the ledger for the account and token it was asked about; an id nobody owns stays |
| `ChainTruth.VerifiedStoreIsTrue` | ghost-shard-sdk/src/index.ts:415-422 | The same on the store: every unspent shard, asset by asset, and no other shard |
| `WalletCoins.VerifiedDisplayIsTrue` | ghost-shard-sdk/src/index.ts:415-422 | After an honest verification the displayed balance of a coin is what the unspent shards that record it hold on the ledger, when none records it twice |
| `Splice.SortFacts` | ghost-shard-sdk/src/index.ts:551-555 | The sort permutes and orders by asset index up, token index down |
| `Splice.KeepAfterSplice` | ghost-shard-sdk/src/index.ts:556-559 | Removing the largest dead index first does not disturb the others |
| `Splice.SplicingIsFiltering` | ghost-shard-sdk/src/index.ts:551-559 | Splicing a sorted list is filtering every asset by its own dead indices, although the sort ignores the shard |
| `Splice.SortedSplicingFilters` | ghost-shard-sdk/src/index.ts:551-559 | The same from any order of the dead list |
| `Splice.UnsortedSplicingDiffers` | ghost-shard-sdk/src/index.ts:551-559 | Without the sort the wrong id is removed |
| `SyncClient.DiscoverAll` | ghost-shard-sdk/src/discovery.ts:87-149 | Chunked trial decryption finds what a single pass finds, for every chunk size |
| `SyncClient.Client.ProcessAnnouncements` | ghost-shard-sdk/src/index.ts:259-276 | The store gains the discovered shards with new addresses |
| `SyncClient.Client.SpentStatuses` | ghost-shard-sdk/src/index.ts:292-335 | A status is true exactly where the query answered true, for every pattern of failed calls and chunks |
| `SyncClient.Client.SyncSpentShards` | ghost-shard-sdk/src/index.ts:282-353 | Exactly the unspent shards reported spent disappear |
| `SyncClient.LiveReferencesReachTheStore` | ghost-shard-sdk/src/shard.ts:53-55 | Writing through the references handed out changes the stored shards, and only those |
| `SyncClient.Client.VerifyUnspent` | ghost-shard-sdk/src/index.ts:419-422 | Verification of the unspent shards through their references |
| `SyncClient.Client.ConfirmPrepared` | ghost-shard-sdk/src/index.ts:732-760 | Inputs are marked and change outputs added in place |
| `SyncClient.Client.SyncWithChain` | ghost-shard-sdk/src/index.ts:364-434 | A failure at any await leaves stored shards and cursor as they were; success moves the cursor to the highest block and gives the synced store |
| `SyncSpec.SpentIsRemovedExactly` | ghost-shard-sdk/src/index.ts:337-353 | If and only if: an address disappears exactly when the query for an unspent shard of that address answered true |
| `SyncSpec.PendingSurvivesSync` | ghost-shard-sdk/src/index.ts:282-353 | A sync leaves a pending shard exactly as it is |
| `SyncSpec.PendingSurvivesRuns` | ghost-shard-sdk/src/index.ts:364-434 | No run of log growth and syncs ever frees or removes a pending shard |
| `SyncSpec.SyncIsSound` | ghost-shard-sdk/src/index.ts:364-434 | A successful sync keeps addresses unique, the cursor sound and not lower, and every covered announcement known |
| `SyncSpec.EveryRunIsSound` | ghost-shard-sdk/src/index.ts:364-434 | The same along every run of log growth, local operations, failed and successful syncs, from the start or from the cursor |
| `SyncSpec.SyncIsComplete` | ghost-shard-sdk/src/index.ts:364-434 | After any run, a successful sync leaves every shard announced to the wallet since the start block stored or removed |
| `SyncContents.ProcessedIsWhatWasFound` | ghost-shard-sdk/src/index.ts:259-276 | If and only if: after processing a batch the store holds what it held and, for each new address, the shard of its first announcement with the assets found there, neither spent nor pending |
| `SyncContents.SyncStoresTheAnnouncedAssets` | ghost-shard-sdk/src/index.ts:364-434 | A successful sync stores every newly announced shard with the assets of its first announcement from the cursor on, as corrected by the answers; it is absent exactly when reported spent |
| `SyncContents.SyncAddsOnlyWhatWasAnnounced` | ghost-shard-sdk/src/index.ts:364-434 | Every address a sync adds was announced in a log at or after the cursor, or the start block |
| `SyncContents.EveryRunStoresTheAnnouncedAssets` | ghost-shard-sdk/src/index.ts:364-434 | The same after any run from an empty wallet |
| `QueueSpec.RegisterKeepsCacheExactly` | ghost-services/src/relayer/queue.ts:57-64 | If and only if: registering keeps accumulator and locks in agreement exactly when the hash is not locked for another paymaster with a cost |
| `QueueSpec.ReleaseKeepsCacheExactly` | ghost-services/src/relayer/queue.ts:67-70 | If and only if: the same for releasing |
| `RelayQueue.Queue.UpdatePaymasterDebt` | ghost-services/src/relayer/queue.ts:48-54 | The loop over locks recomputes one paymaster's debt |
| `RelayQueue.Queue.RegisterLock` | ghost-services/src/relayer/queue.ts:57-64 | Lock set, debt recomputed |
| `RelayQueue.Queue.ReleaseLock` | ghost-services/src/relayer/queue.ts:67-70 | Lock deleted, debt recomputed |
| `RelayQueue.Queue.LoopHead` | ghost-services/src/relayer/queue.ts:164-170 | The next entry is taken up to its broadcast, or the worker stops |
| `RelayQueue.Queue.ProcessQueue` | ghost-services/src/relayer/queue.ts:160-170 | A second call while the worker runs does nothing |
| `RelayQueue.Queue.EnqueueRelay` | ghost-services/src/relayer/queue.ts:120-143 | Enqueue pushes and wakes the worker |
| `RelayQueue.Queue.BroadcastResolves` | ghost-services/src/relayer/queue.ts:170-200 | A hash settles the entry, locks its cost and starts the next entry |
| `RelayQueue.Queue.BroadcastRejects` | ghost-services/src/relayer/queue.ts:187-200 | A failure settles the entry without a lock and starts the next entry |
| `RelayQueue.Queue.ReceiptArrives` | ghost-services/src/relayer/queue.ts:219-228 | A receipt: status confirmed, lock released, debt recomputed |
| `RelayQueue.Queue.WatcherGivesUp` | ghost-services/src/relayer/queue.ts:235-241 | A timeout without a receipt has the same effect on status, lock and debt |
| `QueueProperties.StepIsOrdered` | ghost-services/src/relayer/queue.ts:120-203 | Every event keeps FIFO order, one outstanding broadcast, statuses, and an awake worker whenever an entry waits |
| `QueueProperties.StepIsSound` | ghost-services/src/relayer/queue.ts:48-249 | With fresh hashes every event also keeps locks = submitted relays and accumulator = their costs |
| `QueueProperties.EveryRunIsSound` | ghost-services/src/relayer/queue.ts:48-249 | In every reachable state the accumulator of each paymaster is the cost of its submitted relays |
| `QueueProperties.EventMovesRelays` | ghost-services/src/relayer/queue.ts:120-249 | The relays after each event, entry by entry: status, hash, paymaster and cost |
| `QueueProperties.DebtMovesByTheEvent` | ghost-services/src/relayer/queue.ts:48-249 | With fresh hashes the cached debt of each paymaster rises by the cost of a broadcast and falls by it at the end of its watcher, and moves at nothing else |
| `QueueProperties.OutcomeSettlesOne` | ghost-services/src/relayer/queue.ts:164-200 | Success or failure settles exactly the outstanding entry and the next one starts |
| `QueueProperties.OutcomesDrainTheQueue` | ghost-services/src/relayer/queue.ts:164-203 | As many outcomes as entries, of any kind, settle everything once, in order, and leave the worker idle |
| `QueueProperties.SharedHashLeavesStaleDebt` | ghost-services/src/relayer/queue.ts:57-64 | Counterexample: one hash for two paymasters leaves the first one's debt stale |
| `Escrow.TwoAdmittedRelaysOverCommit` | ghost-services/src/relayer/service.ts:101-130 | Counterexample to the claim that a deposit is never over-committed, while a relay waits: two relays of 60 pass against 100 and both get broadcast |
| `Escrow.TimedOutRelayIsForgotten` | ghost-services/src/relayer/queue.ts:235-241 | Counterexample when nothing waits: a careful run in which one watcher times out, after which the check admits a second relay of 60 against 100 although the first can still be mined |
| `Escrow.CommittedAgainstDebt` | ghost-services/src/relayer/queue.ts:48-70 | What can still be charged plus the locks of mined relays equals the cached debt plus what waits plus what the watchers forgot |
| `Escrow.CheckSufficesExactly` | ghost-services/src/relayer/service.ts:101-130 | If and only if: every relay the check admits stays within the deposit exactly when waiting and forgotten relays cost no more than the locks of relays already mined |
| `Escrow.CheckSufficesExactlyWhenNothingIsUnseen` | ghost-services/src/relayer/service.ts:101-130 | If and only if: when the receipts of all mined relays were seen, exactly when nothing of the paymaster waits and nothing timed out is still unmined |
| `Escrow.EventFollows` | ghost-services/src/relayer/queue.ts:160-249 | The life of a relay under every event: statuses only move forward, cost and paymaster never change, and only the outstanding relay becomes submitted |
| `Escrow.LocalCommits` | ghost-services/src/relayer/queue.ts:120-249 | Of all events of the queue, timeouts included, only an enqueue raises what can still be charged, and by no more than its cost |
| `Escrow.MinedFrees` | ghost-router-singleton/src/GhostRouter.sol:263-270 | Being mined takes a relay's cost out of what can still be charged |
| `Escrow.DepositsMoveByTheEvent` | ghost-router-singleton/src/GhostRouter.sol:104-116 | Deposits on chain move by what is charged, put in and taken out, and at nothing else |
| `Escrow.CarefulStepIsCovered` | ghost-services/src/relayer/service.ts:101-130 | One event of queue or chain keeps every deposit covering what is committed, for a relayer that enqueues only when admitted and nothing waits or is forgotten |
| `Escrow.EveryCarefulRunIsCovered` | ghost-services/src/relayer/service.ts:101-130 | Over whole runs from the empty queue, with transactions mined and charged, deposits and withdrawals: no deposit is over-committed and every transaction still to be mined finds its worst case in the deposit |
| `Escrow.WorstCaseCoversPrefundExactly` | ghost-services/src/relayer/service.ts:112-117 | If and only if: the worst case the check computes bounds the router's prefund exactly when the gas price has not risen since |
| `GasEngine.SlackIsTheBuffers` | ghost-services/src/common/gasEngine.ts:357-367 | What the quote leaves free is 15 % of the verification gas, 30 % of the inner gas and 40000; the verification gas is never negative |
| `GasEngine.LimitsFit` | ghost-services/src/common/gasEngine.ts:352-379 | The limits and their sum fit 32 bits under the simulation cap |
| `GasEngine.LimitsCoverTheEstimate` | ghost-services/src/common/gasEngine.ts:352-367 | preVerificationGas is the excess of the estimate over the metered gas, or the floor of 21000; the limits exceed both the estimate and the metered gas by at least 40000 |
| `GasEngine.ChargeIsExactWithinSlack` | ghost-services/src/common/gasEngine.ts:352-367 | If and only if: the router charges exactly the gas used, unclamped and unwrapped, exactly when the run meters no more than the simulation plus the slack (or gas is free) |
| `GasEngine.QuoteCoversCharge` | ghost-router-singleton/src/GhostRouter.sol:234-246 | A run that meters no more than its simulation leaves at least 40000 of the limits, and the paymaster pays exactly the charged gas |
| `GasEngine.ExtractAuthorizationList` | ghost-services/src/common/gasEngine.ts:147-185 | The authorizations of the first command of each shard, in order; none exactly without commands |
| `Bytes.DecodeEncode` | ghost-shard-sdk/src/keys.ts:8-18 | Decoding an encoding gives the number modulo the width |
| `Bytes.EncodeDecode` | ghost-shard-sdk/src/keys.ts:8-18 | Encoding a decoding gives the bytes |
| `Bytes.BytesToBigInt` | ghost-shard-sdk/src/keys.ts:8-12 | The shifting loop is big-endian decoding |
| `Bytes.BigIntToBytes` | ghost-shard-sdk/src/keys.ts:14-18 | The in-place loop from the last byte is big-endian encoding |
| `Metadata.SetAt` | ghost-shard-sdk/src/announce.ts:64-68 | A range of the buffer is overwritten, the rest stays |
| `Metadata.BuildHeader` | ghost-shard-sdk/src/announce.ts:64-68 | Fields written at their offsets make the 54-byte layout |
| `Metadata.Assemble` | ghost-shard-sdk/src/announce.ts:94-97 | Header, nonce and ciphertext behind one another |
| `Metadata.PackMetadata` | ghost-shard-sdk/src/announce.ts:35-103 | Header, nonce and ciphertext as laid out, or an error exactly when the identifier is negative or wider than 32 bytes |
| `Metadata.SenderComesBackExactly` | ghost-shard-sdk/src/announce.ts:109-140 | If and only if: the sender's text is recovered exactly when it has at most 26 bytes or the nonce does not start with the view tag |
| `Metadata.ParseAfterPack` | ghost-shard-sdk/src/discovery.ts:38-73 | Round trip: type, token and identifier come back for every packable asset, the sender under the condition above; another view tag is rejected |
| `Metadata.AnyBytesAreRead` | ghost-shard-sdk/src/discovery.ts:38-73 | Any bytes are read exactly when they start with the view tag; below 54 bytes they name no asset, otherwise one, ether for any type byte but 1 and 2 |
| `Stealth.SecretsAgree` | ghost-shard-sdk/src/keys.ts:99-113 | Sender and receiver compute the same shared secret |
| `Stealth.SecretIsDigestOfProduct` | ghost-shard-sdk/src/keys.ts:99-113 | The secret is the digest of the product of ephemeral and viewing key times the base point |
| `Stealth.GeneratedExactly` | ghost-shard-sdk/src/stealth.ts:36-50 | If and only if: exactly which ephemeral keys generate an address, and which address, ephemeral point and secret that is |
| `Stealth.ShardKeyOpensStealthPoint` | ghost-shard-sdk/src/keys.ts:115-135 | The derived key is the private key of the stealth point; it exists if and only if the digest is a valid scalar and does not cancel the spending key |
| `Stealth.RecipientOwnsEveryGeneratedAddress` | ghost-shard-sdk/src/stealth.ts:36-50 | Whatever address is generated for a wallet, the wallet derives the same address and holds its key |
| `Stealth.CandidatesAreHashes` | ghost-shard-sdk/src/keys.ts:69-79 | The candidates are the key, its hash, the hash of that, and so on |
| `Stealth.NormalizePrivateKey` | ghost-shard-sdk/src/keys.ts:69-79 | The first valid of 100 candidates, an error exactly when there is none |
| `Stealth.AnnouncedAssetIsDiscovered` | ghost-shard-sdk/src/discovery.ts:98-136 | Generate, pack, then trial decryption: the wallet finds exactly that address with exactly that asset |
| `Stealth.FoundExactly` | ghost-shard-sdk/src/discovery.ts:98-136 | If and only if: trial decryption finds something exactly when the metadata starts with the view tag and a key is derived, at the address of that key; another tag or no bytes find nothing |
| `Deposit.BuildCalls` | ghost-shard-sdk/src/transaction.ts:594-630 | Split i goes to pool address i, with a transfer and an announcement |
| `Deposit.TransfersShuffle` | ghost-shard-sdk/src/transaction.ts:632-634 | Shuffling calls is shuffling the outputs they carry |
| `Deposit.Interleave` | ghost-shard-sdk/src/transaction.ts:636-642 | Transfers at even, announcements at odd positions |
| `Deposit.PrepareDeposit` | ghost-shard-sdk/src/transaction.ts:532-649 | A fungible batch alternates, pays exactly what it announces as a multiset, pays each fresh address once, and totals the amount; an NFT batch is one transfer and its announcement; errors exactly for a missing token |
| `Deposit.BatchIsFaithful` | ghost-shard-sdk/src/transaction.ts:573-643 | The same for any two independent shuffles |

## Left out

- Floating point: `floor(randomFloat() * k)` is `w * k / 0xffffffff` on integers, and `floor(sqrt(n) * 0.5)` is the exact integer; rounding of doubles is not modelled.
- Probability and privacy: draws are arbitrary, nothing is said about how likely or how linkable an outcome is.
- Hashing, signatures, AES-GCM and the curve: signature recovery is a field of the command, encryption and the group are parameters with the laws stated in `Metadata.Ideal` and `Stealth.Laws`, keccak and HKDF are uninterpreted.
- Signing, authorizations' contents, ABI encoding, JSON-RPC, HTTP, retries, persistence to disk, event emitters and log decoding: their results are inputs.
- Text encoding: the sender's text is a byte string, and hex spellings of one address are one address.
- Ledger.TransfersSettle: assumes tokens that move exactly what is asked; balances of receivers are unbounded, so a 256-bit overflow of a credit is not modelled.
- GhostRouter.Router.OneCommand: commands run the transfer functions of GhostShard.sol; other code at a shard's address appears only as the actions of a called account.
- GhostRouter.Router.InnerExecuteMesh: the announcer is called without actions of its own; gas metering is a parameter (metered gas, inner gas, whether the call gas suffices).
- EndToEnd.TransferEndToEnd: recipients accept and do nothing else while they receive; for other behaviour `RouterProperties.EveryRunIsSound` and `RouterProperties.MeshIsAtomic` apply.
- SelectionProperties.PlanConservesExactly: amounts and dust thresholds are not negative and pooled balances are positive, as the selectors arrange.
- BalanceVerification.VerifyShardBalances: answers that do not decode, which make the source throw, are not modelled except as the fault after verification in `SyncClient.Client.SyncWithChain`.
- SyncClient.Client.SyncWithChain: syncs that overlap each other or other client calls are not modelled; between awaits nothing else runs.
- SyncSpec.EveryRunIsSound: importing a foreign state between syncs and logs without a block number are not part of runs.
- ShardStore.LiveShard: the ephemeral public key travels with the address and is not a field of its own.
- WalletTransfer.TransferLowersBalanceByAmount: NFT transfers are covered by `PlanProperties.NftPlan` and `NftSelection.NftIsSelectableExactlyWhenListed` only.
- RelayQueue.Queue.ReceiptArrives: time stamps, polling and a watcher that itself throws are not modelled.
- Escrow.EveryCarefulRunIsCovered: a mined transaction is charged no more than the cost the relayer computed for it, which holds while the gas price does not rise; replaced transactions are not modelled.
- GasEngine.QuoteCoversCharge: that a real run meters no more than its simulation is a hypothesis; revert decoding and the simulation's state overrides are left out.
- Deposit.PrepareDeposit: the pool of stealth addresses is a parameter; `Stealth.RecipientOwnsEveryGeneratedAddress` says what its addresses are.
- Stealth.FoundExactly: a log without any metadata field, which the source takes for a shard without assets, is not modelled; empty metadata is.
- Metadata.PackMetadata: token addresses have 20 bytes.
- Stealth.NormalizePrivateKey: key derivation by HKDF and the identity signature are left out.
- The frontend, the example scripts, registry helpers, meta-address encoding, configuration and ABI tables: no logic beyond tables and thin wrappers.
