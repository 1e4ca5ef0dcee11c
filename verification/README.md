# A verified model of the Subspace node core

This project models, in Dafny, the parts of a proof-of-replication blockchain node that decide what is final:

- the **ledger**: a tree of proposer blocks with its heads, its confirmed set, its timeslot index and its content index; staging a block confirms the ancestor six blocks below it and prunes that ancestor's rivals; confirming applies transactions to 64-bit balances and to a log (`MetaBlocks`, `Forks`, `ForkChoice`, `Pruning`, `Staging`, `Confirmation`, `Finality`, `Transactions`, `Supply`, `CanonicalOrder`, `Effects`, `StageEffects`, `LedgerRuns`, `Guarantees`, `Rewards`, `Pool`, `Payees`, and the mutable `Ledger`);
- **Sloth**: the modular square-root permutation (after eprint 2015/366), chained over the blocks and layers of a piece, with its sequential and its parallel decoder (`NumberTheory`, `Permutation`, `Bytes`, `Sloth`, `SlothLayers`, `SlothCodec`, `SlothDomain`);
- **epoch randomness** and the two clocks that drive it (`Epochs`, `BranchOrder`, `Tracker`, `Timer`, `Challenges`), and the whole node made of ledger, state log, tracker and clocks, fed by gossip, farming and sync (`WholeNode`, `NodeRuns`, `Intake`, `EarlyBlocks`, `NodeClock`, `NodeLedger`, `StateOfLedger`);
- the **frame codec** between peers (`Framing`);
- the **state log** with its chain of state blocks (`StateLog`, `StateRecovery`);
- the **tag query** and the range test of validation (`Plot`).

Each operation has a value-level definition that follows the source branch by branch. Where the source panics, the definition yields `Panic`, so "never panics" is a theorem and not an assumption. Code that updates fields or arrays in place is a class or a method whose contract ties the new state to that definition. The theorems are about the definitions: over all inputs, or over all runs of the state machine whose steps they are.

Hashes (block, proof, content and transaction ids, piece ids, Merkle roots, slot challenges) are values that differ whenever what they are the hash of differs. Ids are natural numbers where only equality and order matter.

## Main results

- **Finality.** In every run of admissible steps the confirmed blocks of a root form one path, everything else alive descends from its tip, and no confirmed block is ever removed or changed (`Guarantees.OnePathIsConfirmed`, `LedgerRuns.GuardedRunIsFinal`). The depth guard admits only blocks above that tip (`Guarantees.AcceptedExtendsTip`). The heads are exactly the leaves with their true heights, and no admissible step of the ledger panics (`Guarantees.HeadsAreLeaves`, `Guarantees.NeverPanics`). Each step does exactly this: it attaches the block, confirms its ancestor at the confirmation depth and removes the blocks that conflict with it, and the front head gives way only to a strictly higher one (`Guarantees.StepEffects`, `Guarantees.FrontMovesUp`).
- **The whole node.** The node checks gossiped blocks itself, so finality holds over every run whatever blocks it is sent, as long as those that pass all checks carry new ids and confirm blocks whose transactions are at hand (`NodeRuns.RunIsFinal`). When an event aborts the node is characterised exactly (`NodeRuns.AbortsIff`). A gossiped block whose slot has come does so if and only if its parent is unknown; or its parent is an earlier tx block and there is no head to compare it with; or it passes the parent checks and is of an epoch not reached, or is signed and without references, or passes every check up to the state block of its piece, which is not known; or it passes all checks and names a tx block as its parent. An early block is validated when its slot comes, before the round opens the epoch of that slot, so one that rightly claims a new epoch in its first slot aborts the node (`NodeRuns.BoundaryBlockAborts`).
- **What the node takes in.** Over every run a block gained from gossip or in a round of the timer was gossiped, and was acceptable when it was taken in: its epoch reached, signed, with its own coinbase first, claiming the randomness of the epoch before, in range, with a known state block and a valid proof, and on an earlier parent within the guard (`NodeRuns.ValidIff`, `EarlyBlocks.GainedWasGossiped`). An acceptable block that is new and in time is always taken in (`Intake.GossipTakesIff`). Blocks that come early are kept, in order, until the round of their slot and are processed in it (`EarlyBlocks.EarlyBlocksWait`, `EarlyBlocks.DueWereGossiped`, `Intake.TickTakes`). The ledger of every run of the node is that of a guarded run fed with exactly the blocks taken in and the credits received, so all theorems about guarded runs hold of the node (`NodeLedger.LedgerIsGuarded`).
- **State holds the accounts.** In every run of the whole node, reading the records back from its state blocks and pending bytes and replaying them gives exactly its accounts (`StateOfLedger.AccountsFromState`).
- **Supply.** In every run that does not abort, guarded or not and with credits taken over unchecked during sync, the balances sum to the rewards paid out and each credit moves funds at most once, as long as fewer than 2^64 rewards have been paid (`LedgerRuns.RunConservesSupply`). A confirmation does nothing, or everything: the log gains exactly the records of the tx blocks still to be applied and of the block itself, skipping only credits applied before or unpayable at their turn, and the accounts are the old ones with those records applied (`LedgerRuns.ConfirmIsAtomic`). It fails if and only if some credit, new at its turn, has a sender without an account (`CanonicalOrder.ConfirmSucceedsIff`).
- **Payees.** In every run of well-formed blocks each confirmation pays the coinbases of the tx blocks it applies, in order, and its own, each to the payee its block was staged with (`Payees.StepRewards`, `Payees.RewardsAreStaged`). Every balance is one reward for each coinbase paid to it, plus the credits received, less those sent (`Payees.RunBalances`).
- **Sloth.** For every prime that is 3 modulo 4 the permutation and its inverse undo each other on 1..p-1, and pieces survive any number of layers (`Permutation.InverseUndoesSqrt`, `Permutation.SqrtUndoesInverse`, `SlothCodec.PieceRoundTrip`). With the one layer the node uses, the bytes survive if and only if no xored block is 0. Encoding succeeds, for every piece, IV and number of layers, if and only if every block xored with its feedback is below the prime (`SlothDomain.PieceEncodesIff`). With more layers the same holds as long as at most one of the first two layers, and no later one, meets a 0 (`SlothLayers.FirstLayerDecides`, `SlothLayers.SecondLayerDecides`); losses in both can cancel, for every Sloth prime (`SlothLayers.LossesCanCancel`).
- **Epochs.** Branch lists are exactly the root-to-leaf paths of the recorded forest; over every run of both clocks every slot is announced with its own epoch and a challenge that never changes again, and an epoch's randomness is that of the proofs staged before the next epoch opened, whatever follows (`Epochs.BranchesAreRootToLeafPaths`, `Timer.EveryRunIsInStep`, `Timer.EpochRandomness`). So every challenge announced is the genesis seed in epoch 0, and later what the proofs staged for the epoch before decided (`Challenges.AnnouncedChallenge`). In the whole node those proofs are exactly the proposer blocks it staged, filed below their parents (`NodeClock.ClocksFollowBlocks`, `NodeClock.NodeAnnounces`).
- **Framing.** However the network cuts the stream, the messages delivered are those written if and only if each fits 16 bits and the last is not empty (`Framing.ReceivedIffFitAndLastNonEmpty`).
- **State log.** For every list of records whatsoever, they can be read back if and only if none is empty, none but the newest is longer than a block can hold, and the newest is below 65536 bytes and is not mistaken for one that fills the block (`StateRecovery.LosslessIff`).
- **Tag query.** The query returns exactly the tags within half the range on the 64-bit circle, each once and in ascending order, and each passes validation's range test (`Plot.FindByRange`, `Plot.FoundTagsPassRangeCheck`).

Where the code does not do what its comments or its purpose suggest, the model follows the code and a theorem says exactly when the two agree:

- `close` is commented to take the proof with most confirmations, but takes the first proof of a *shortest* branch. `Epochs.ShortestBranchWins` shows a case where that proof has no confirmations; `Epochs.ClosesOnCommonRootIff` shows that the choice is confirmed by every other proof if and only if no proof after the first came without its parent. A common root is more than most confirmations: it gives them, while a tie between two roots gives them without it (`Epochs.CommonRootIsMostConfirmed`).
- The square-root permutation sends 0 to p, which is not inverted (`Permutation.ZeroIsNotInverted`, `Permutation.RoundTripIffNonZero`).
- The account nonce is compared and never advanced, so in every run a known credit moves funds if and only if it is new, covered and has a nonce above 0 (`LedgerRuns.RunCreditMovesIff`); that credits are applied once rests on the applied ids.
- The tx blocks to apply are filtered before any of them is applied, so a tx block referenced twice is applied twice and its farmer is paid twice (`Effects.RepeatedReferencePaysTwice`). Within one confirmation every tx block is applied once if and only if no reference to a block still to be applied repeats (`Effects.AppliedOnceIffNoRepeats`). Nor is a reference asked to be a tx block, so a confirmed proposer block named by a later one is paid again (`Rewards.NamedProposerPaysTwice`). Over whole runs every reward is paid at most once if and only if every confirmed block was clean: not applied as a tx block before, and with no reference still to be applied that repeats, names a confirmed block or itself (`Rewards.RunPaysOnceIff`).
- Pruning panics when it meets the head of the longest chain; `Pruning.PruneSucceedsIff` shows that it does so if and only if that head is on a branch to be pruned, and the finality theorems show that this never happens in guarded runs.
- An empty message at the end of a stream waits for more bytes (`Framing.HoldsBackLastEmpty`).
- The range test of sortition and validation accepts every tag when its window wraps around 0; it is the distance test if and only if the window does not wrap (`Plot.RangeTestExactIffNoWrap`).

## Model

| member | source | states |
|---|---|---|
| MetaBlocks.SaveLinks | src/metablocks.rs:80-130 | saving a new block succeeds exactly when its parent is known or is genesis, and keeps `blocks` and the content index mutually inverse |
| MetaBlocks.SavePanicsIff | src/metablocks.rs:80-130 | for any block, new or not, saving fails if and only if it names a parent block that is not known |
| MetaBlocks.RemoveLinks | src/metablocks.rs:133-148 | removing succeeds exactly for a known block, returns it and keeps the indexes mutually inverse |
| MetaBlocks.RemoveUndoesSave | src/metablocks.rs:80-148 | saving a block without a parent block and removing it again gives back the same container |
| MetaBlocks.BlockStore.Save | src/metablocks.rs:80-130 | the in-place save equals its definition: same new maps, same metablock, same failures |
| MetaBlocks.BlockStore.Remove | src/metablocks.rs:133-148 | the in-place removal equals its definition |
| ForkChoice.PruneBlockIsWithout | src/ledger.rs:1245-1268 | pruning a block whose branch still stands and does not carry the front head never panics and takes exactly the block and its descendants out of every index at once |
| ForkChoice.PruneBlocksIsWithout | src/ledger.rs:1245-1268 | the same for a list of siblings, pruned one after the other |
| Pruning.PruneSucceedsIff | src/ledger.rs:330-343 | pruning siblings whose branches stand goes through if and only if the head of the longest chain is on none of them, and then takes out exactly those branches |
| Staging.UpdatedHeads | src/ledger.rs:296-327 | after a head update exactly the other heads and the new tip are listed, once each; the tip takes the front exactly when there was no head or it extends one and is strictly higher than the front |
| Staging.GrownHeads | src/ledger.rs:296-327 | attaching a block keeps the heads equal to the leaves with true heights and a front of maximal height |
| Staging.GuardSoundness | src/ledger.rs:664-670 | a parent within the confirmation depth of the highest block descends from every confirmed block of its root |
| Confirmation.KDeepIsAncestor | src/ledger.rs:837-858 | the loop over parent links reaches exactly the ancestor at the asked depth, or stops below a root |
| Confirmation.AttachStaged | src/ledger.rs:757-835 | attaching a fresh guarded block never panics and leaves at most its own six-deep ancestor to be confirmed |
| Confirmation.ConfirmPrunesRivals | src/ledger.rs:1216-1236 | confirming removes exactly the rivals of the confirmed block with their descendants, without a panic |
| Confirmation.ConfirmKeepsInv | src/ledger.rs:1216-1268 | after confirming and pruning, the whole chain invariant holds again |
| Finality.StageKeepsInv | src/ledger.rs:757-858 | one guarded staging step never panics, keeps the invariant and every confirmed block |
| Finality.TxBlockKeepsInv | src/ledger.rs:862-901 | staging a tx block keeps the invariant and every confirmed block |
| Finality.AcceptedIffGuarded | src/ledger.rs:636-671 | the parent checks of gossip and of arrival accept exactly the blocks within the depth guard whose parent is from an earlier timeslot |
| Finality.LocalParentIsFront | src/ledger.rs:413-438 | the parent of a locally farmed block is a highest live block, the one at the front, or that block's parent when the farmer made it in the same slot; genesis when there is none |
| Finality.LocalParentIsGuarded | src/ledger.rs:407-439 | the parent chosen for a locally farmed block always exists and always satisfies the guard |
| Finality.ConfirmedPath | src/ledger.rs:837-858 | exactly the ancestors of a root's highest block at or below the confirmation depth are confirmed, and every other live block descends from the highest of them |
| Finality.GuardedParentIsAboveTip | src/ledger.rs:664-670 | a guarded parent is the confirmed tip of its root or descends from it |
| Finality.BlocksByTimeslotIsExact | src/ledger.rs:229-239 | the lookup by timeslot never fails and returns exactly the live blocks of that slot, each once |
| Supply.ApplyConfirmedSound | src/ledger.rs:1093-1214 | confirming keeps the balances equal to a replay of the log, every logged credit covered by its sender, and no credit logged twice |
| Supply.ExactConserves | src/ledger.rs:1093-1206 | in unbounded arithmetic every log, self-transfers included, holds exactly what was minted |
| Supply.ReplayIsExact | src/ledger.rs:1093-1206 | while the minted supply fits 64 bits no balance ever wraps or underflows |
| Supply.SupplyIsMinted | src/ledger.rs:1093-1206 | the balances sum to the block reward times the coinbases applied |
| Supply.CreditMovesFundsIff | src/ledger.rs:1121-1174 | a known credit moves its amount, is logged and marked exactly when it is new, covered and above the nonce; otherwise nothing changes |
| Supply.NonceNeverAdvances | src/ledger.rs:1142-1159 | replaying any log leaves every nonce at 0 |
| CanonicalOrder.OrderIsCanonical | src/ledger.rs:1069-1091 | tx blocks are applied by timeslot, then proof id, exactly those referenced and not applied yet |
| CanonicalOrder.ConfirmIgnoresRefOrder | src/ledger.rs:1069-1183 | permuting the tx block references of a proposer block changes neither balances, log nor applied sets, nor whether it fails |
| CanonicalOrder.ConfirmSucceedsIff | src/ledger.rs:992-1214 | a block that passes the check phase is applied without a panic if and only if no credit, new at its turn, has a sender without an account then; it leaves exactly its tx blocks newly applied and itself last in the log |
| Effects.ConfirmAppliesAll | src/ledger.rs:1093-1214 | the accounts after a confirmation are the old ones with the added records applied, and the added records are exactly those of the tx blocks in canonical order, except skipped credits, and of the block |
| Effects.AppliedAsOftenAsReferenced | src/ledger.rs:1069-1183 | a tx block not applied before is logged exactly as often as it is referenced, an applied one not at all |
| Effects.AppliedOnceIffNoRepeats | src/ledger.rs:1069-1091 | within one confirmation every tx block still to be applied is applied once if and only if no reference to one repeats |
| Effects.RepeatedReferencePaysTwice | src/ledger.rs:1069-1120 | a block that passes the check phase with one tx block named twice, whose farmer ends with two rewards |
| LedgerRuns.StepKeepsSound | src/ledger.rs:757-1242 | every step that does not panic keeps the accounting sound and only adds to the log and the applied sets |
| LedgerRuns.RunConservesSupply | src/ledger.rs:1093-1206 | in every run, while the rewards paid fit 64 bits, the balances sum to the rewards paid, equal their unbounded counterparts, and no credit is applied twice |
| LedgerRuns.ConfirmIsAtomic | src/ledger.rs:931-1242 | a confirmation is refused exactly when the block is confirmed already or misses transactions, and then changes nothing; otherwise it adds exactly the block to the confirmed set and its tx blocks to the applied ones, the log gains exactly the records of those still to be applied and of the block, skipping only credits applied before or unpayable at their turn, and the accounts are the old ones with those records applied |
| LedgerRuns.RunCreditMovesIff | src/ledger.rs:1121-1174 | in every state of every run all nonces are 0, and a known credit moves funds if and only if it is new, covered and has a nonce above 0 |
| LedgerRuns.StepIsGood | src/ledger.rs:757-901 | an admissible step never panics, keeps every invariant of chain and accounts, and unsettles nothing confirmed |
| LedgerRuns.GuardedRunIsFinal | src/ledger.rs:931-938 | a block confirmed at any time of a guarded run stays confirmed, stored and unchanged ever after |
| Guarantees.HeadsAreLeaves | src/ledger.rs:296-343 | in every state of a guarded run `heads` lists exactly the childless live proposer blocks, once each, with true heights, and its front is highest |
| Guarantees.OnePathIsConfirmed | src/ledger.rs:837-858 | in every state of a guarded run each root with a block at height six or more has one confirmed path, ending six below its highest block, and all else alive descends from its tip; nothing is confirmed but live proposer blocks six below another of their root |
| Guarantees.AcceptedExtendsTip | src/ledger.rs:716-750 | a block that passes the parent checks extends the confirmed tip of its root or a descendant of it |
| Guarantees.NeverPanics | src/ledger.rs:1245-1268 | from every state of a guarded run every admissible event is processed by the ledger without a panic |
| Guarantees.FarmingContinues | src/ledger.rs:407-439 | every guarded run can be extended: a fresh block on the head the node picks for itself is admissible and is staged without a panic |
| Guarantees.IndexesAgree | src/ledger.rs:278-283 | in every state of a guarded run the two block indexes are inverse, heights follow parents, and the timeslot index is exact |
| StageEffects.StageDoes | src/ledger.rs:757-859 | staging a fresh guarded proposer block attaches it last in its slot, confirms exactly its ancestor at the confirmation depth, removes exactly the blocks of that root which conflict with a newly confirmed one, and moves the front only to a strictly higher block |
| StageEffects.TxStageDoes | src/ledger.rs:862-901 | staging a tx block stores it last in its slot and changes neither heads nor confirmed set nor any other block |
| Guarantees.StepEffects | src/ledger.rs:757-901 | every event of a guarded run has exactly these effects, and a credit has none on the chain |
| Guarantees.FrontMovesUp | src/ledger.rs:305-318 | over any stretch of a guarded run the front head is the same or strictly higher |
| Rewards.ConfirmPays | src/ledger.rs:1093-1206 | a confirmation pays the coinbase of each tx block as often as it applies it, and its own |
| Rewards.ConfirmPaysOnceIff | src/ledger.rs:1069-1206 | a confirmation keeps every reward paid at most once if and only if the block is clean |
| Rewards.RunPaysOnceIff | src/ledger.rs:931-1242 | in every run of blocks with their coinbase first and no proof, content or coinbase id shared, each reward is paid at most once if and only if every confirmation was clean |
| Rewards.NamedProposerPaysTwice | src/ledger.rs:1018-1054 | a confirmed proposer block named by a later one, whose farmer ends with two rewards although no reference repeats |
| Pool.StepPool | src/manager.rs:137-166 | a block puts its own coinbase, payee included, into the pool; a credit enters exactly when it is new and synced, or new, signed and payable by its sender; nothing else changes |
| Pool.StagedIsPooled | src/ledger.rs:777-781 | in every run of well-formed blocks the pool holds the coinbase of every staged block, unchanged, under the block's first reference |
| Pool.HoldsCreditIff | src/manager.rs:137-166 | in every run the pool holds a credit if and only if some event admitted it and no block's coinbase has its id |
| Pool.AvailableIffInPlace | src/ledger.rs:992-1061 | in every run a staged block passes the check phase if and only if each tx block it names is applied already, or stored with all its credits in the pool |
| Payees.ConfirmRewards | src/ledger.rs:1093-1206 | a confirmation logs as rewards the coinbases of the tx blocks it applies, in that order, and then its own |
| Payees.StepRewards | src/ledger.rs:757-1242 | every step of a run of well-formed blocks pays exactly that, with the coinbases as staged, or nothing when it confirms nothing |
| Payees.RewardsAreStaged | src/ledger.rs:777-781 | the reward logged for an id is to the payee of the staged block whose coinbase has that id |
| Payees.ExactIsEntitled | src/ledger.rs:1103-1206 | by any log an account holds one reward per coinbase to it, plus the credits to it, less those from it |
| Payees.RunBalances | src/ledger.rs:1103-1206 | in every run, while the rewards paid fit 64 bits, that is its balance |
| Payees.StepRaises | src/ledger.rs:931-1242 | a step changes a balance by one reward for each tx block it applies and for the block it confirms with this payee, and by the credits it logs |
| NodeRuns.ValidatePanicsIff | src/block.rs:33-198 | validation is fatal if and only if the epoch is not reached, or the block is signed and has no references, or it passes every check up to the state block of its piece and that is not known |
| NodeRuns.ValidIff | src/block.rs:33-198 | validation accepts if and only if the epoch is reached, the block is signed and starts with its own coinbase, it claims the randomness of the epoch before its own (the genesis seed in the first), it is in range, the state block of its piece is known, and its proof holds |
| NodeRuns.ReceiveAbortsIff | src/ledger.rs:636-677 | a gossiped block whose slot has come aborts the node exactly by its parent, by validation, or by naming a tx block as its parent |
| NodeRuns.ArriveAbortsIff | src/ledger.rs:710-754 | the same for an early block when its slot comes, validated before its parent is checked |
| NodeRuns.TickAbortsIff | src/timer.rs:43-62 | a timer round aborts if and only if an early block does at its turn; the epoch boundary and the challenge lookup after it never fail |
| NodeRuns.BoundaryBlockAborts | src/ledger.rs:187-225 | an early block that rightly claims a new epoch in its first slot aborts the node, because the round opens the epoch only after the early blocks |
| NodeRuns.StepAbortsIff | src/ledger.rs:496-510 | an admissible event aborts the whole node exactly when so characterised; otherwise ledger, state log, tracker and clocks keep all invariants, confirmed blocks and closed epochs |
| NodeRuns.AbortsIff | src/ledger.rs:579-754 | the same from every state of every run of the whole node |
| NodeRuns.RunIsFinal | src/ledger.rs:757-858 | over any stretch of a run of the whole node, whatever blocks are gossiped to it, confirmed blocks stay and closed epochs keep their randomness |
| Intake.GossipTakesIff | src/ledger.rs:579-679 | a gossiped block is taken in, and nothing else, if and only if it is new, in time, valid and on an earlier parent within the guard; otherwise ledger, clocks and state log stay as they are |
| Intake.TickTakes | src/ledger.rs:187-226 | a round takes in each early block of its slot exactly when it is acceptable at its turn, and nothing else |
| Intake.GainedWasAcceptable | src/ledger.rs:579-754 | in every run a block gained on gossip or in a round was acceptable when it was taken in |
| Intake.LocalTakes | src/manager.rs:330-352 | a locally farmed block is staged only when valid, and the store gains it and no other |
| Intake.SyncedTakes | src/manager.rs:592-612 | during sync every block is staged whatever validation says, and the store gains it and no other |
| EarlyBlocks.RecentIs | src/ledger.rs:587-596 | in every run the node has seen exactly the proofs of the blocks gossiped, or synced in their slot, so far |
| EarlyBlocks.GossipOnce | src/ledger.rs:587-596 | in every run a block gossiped again changes nothing |
| EarlyBlocks.EarlyBlocksWait | src/ledger.rs:612-628 | in every run what is kept for a slot is exactly the blocks gossiped ahead of it, in the order they came, until its round |
| EarlyBlocks.DueWereGossiped | src/ledger.rs:201-225 | in every run the round of a slot processes exactly the blocks gossiped ahead of it |
| EarlyBlocks.GainedWasGossiped | src/ledger.rs:579-754 | in every run a block gained on gossip or in a round was gossiped then or before, and acceptable when taken in |
| NodeClock.ClocksFollowBlocks | src/ledger.rs:820-835 | in every run of the whole node tracker and clocks are those of a run of the timer in which exactly the proposer blocks staged so far were filed, each in the epoch it claims, under its proof and below that of its parent |
| NodeClock.NodeAnnounces | src/timer.rs:41-79 | every challenge the whole node announces is the genesis seed or decided by the proposer blocks it staged for the epoch before; consecutive slots are announced, and the ledger's slot is the last of them |
| NodeLedger.LedgerIsGuarded | src/ledger.rs:757-901 | in every run of the whole node the ledger is that of a guarded run fed exactly with the blocks taken in, in order, and the credits received |
| NodeLedger.NodeBalances | src/ledger.rs:1103-1206 | in every run of the whole node, while the rewards paid fit 64 bits, every balance is the rewards to the account and the credits it received, less those it sent |
| StateOfLedger.RunFollows | src/ledger.rs:1162-1214 | in every run of the whole node the state log is the one it started with followed by the records of the ledger |
| StateOfLedger.AccountsFromState | src/state.rs:132-182 | in every run of the whole node the accounts are the replay of the records read back from state blocks and pending bytes |
| Ledger.Ledger.AddBlockToTimeslot | src/ledger.rs:278-283 | the in-place update equals its definition and touches nothing else |
| Ledger.Ledger.UpdateHeads | src/ledger.rs:296-327 | the search, extension and swap on `heads` equal their definition |
| Ledger.Ledger.PruneBranch | src/ledger.rs:330-343 | the scan removes the last matching head, and fails exactly when that is the front |
| Ledger.Ledger.PruneBlocksRecursive | src/ledger.rs:1245-1268 | the recursive removal equals its definition, including when it fails |
| Ledger.Ledger.HasAllTransactions | src/ledger.rs:992-1061 | the check phase answers whether the coinbase, the tx blocks and all their transactions are known and in place |
| Ledger.Ledger.OrderTxBlocks | src/ledger.rs:1069-1091 | grouping by timeslot and sorting by proof id gives the canonical order |
| Ledger.Ledger.ApplyTransaction | src/ledger.rs:1103-1174 | one transaction is applied, skipped or fatal exactly as defined |
| Ledger.Ledger.ApplyBlocks | src/ledger.rs:1093-1183 | the tx blocks are applied in order, each logged and marked |
| Ledger.Ledger.ApplyProposerBlock | src/ledger.rs:1185-1214 | the proposer is paid and its block logged |
| Ledger.Ledger.ConfirmBlock | src/ledger.rs:931-1242 | checking, ordering, applying, confirming and pruning in place equal one step of the state machine |
| Ledger.Ledger.StageProposerBlock | src/ledger.rs:757-859 | staging in place, with its loop to the six-deep ancestor, equals one step of the state machine |
| Ledger.Ledger.StageTxBlock | src/ledger.rs:862-901 | staging a tx block in place equals one step of the state machine |
| NumberTheory.Fermat | src/sloth.rs:118-152 | Fermat's little theorem, on which the exponents of the permutation rest |
| NumberTheory.ExactlyOneIsSquare | src/sloth.rs:118-141 | for p = 3 modulo 4 exactly one of a non-zero value and its negation is a square, namely when its half power is 1 |
| Permutation.InverseUndoesSqrt | src/sloth.rs:118-152 | decoding an encoded value in 1..p-1 gives it back, and the code is even exactly for residues |
| Permutation.SqrtUndoesInverse | src/sloth.rs:118-152 | encoding a decoded value in 1..p-1 gives it back |
| Permutation.ZeroIsNotInverted | src/sloth.rs:130-137 | 0 is encoded as p and p decodes to p |
| Permutation.RoundTripIffNonZero | src/sloth.rs:118-152 | below the prime exactly the non-zero values survive |
| Sloth.DecodeUndoesEncode | src/sloth.rs:155-216 | over any number of layers, with the feedback from the last block of a layer to the first of the next, decoding undoes encoding unless some xored block is 0 |
| Sloth.OneLayerRoundTrip | src/sloth.rs:155-216 | with one layer decoding undoes encoding if and only if no xored block is 0 |
| SlothLayers.FirstLayerDecides | src/sloth.rs:155-216 | if no later layer meets a 0, the round trip over any number of layers succeeds if and only if the first layer meets none |
| SlothLayers.SecondLayerDecides | src/sloth.rs:155-216 | if neither the first layer nor one after the second meets a 0, it succeeds if and only if the second meets none |
| SlothLayers.LossesCanCancel | src/sloth.rs:155-216 | for every Sloth prime, two blocks that meet a 0 in each of two layers and are decoded all the same |
| SlothCodec.PieceRoundTrip | src/sloth.rs:37-216 | the same for the bytes of a piece, with blocks read and written as zero-padded little-endian numbers |
| SlothCodec.OneLayerPieceRoundTrip | src/sloth.rs:155-216 | with one layer the bytes of a piece survive if and only if no xored block is 0 |
| SlothDomain.PieceEncodesIff | src/sloth.rs:155-188 | for every piece, IV and number of layers, encoding succeeds if and only if in every layer every block xored with its feedback is below the prime |
| SlothCodec.Cipher.WriteIntegers | src/sloth.rs:52-66 | the integers are written over the front of the piece, padded to whole blocks, and the rest is untouched |
| SlothCodec.Cipher.Encode | src/sloth.rs:155-188 | the loops over layers and blocks equal the definition; on failure the piece is unchanged |
| SlothCodec.Cipher.Decode | src/sloth.rs:191-216 | the backward loops equal the definition |
| SlothCodec.Cipher.DecodeParallel | src/sloth.rs:219-251 | for every order in which the block tasks run, the result equals that of the sequential decoder |
| Epochs.BranchesAreRootToLeafPaths | src/timer/epoch.rs:28-60 | after any additions with fresh ids, the branches are exactly the root-to-leaf paths of the recorded parent links, each once |
| BranchOrder.BranchesInOpeningOrder | src/timer/epoch.rs:28-60 | the branches stand in the order in which they were opened, each opened by a proof whose parent was no leaf |
| Epochs.OneRootIffParentsPresent | src/timer/epoch.rs:28-60 | all branches start at the first proof if and only if every later proof found its parent in the epoch |
| Epochs.ClosesOnCommonRootIff | src/timer/epoch.rs:63-106 | the closing proof starts every branch if and only if every later proof found its parent; it is then the first proof added |
| Epochs.ShortestBranchWins | src/timer/epoch.rs:75-95 | an epoch that closes on an unconfirmed proof although another has a confirmation |
| Epochs.CommonRootIsMostConfirmed | src/timer/epoch.rs:62-95 | a common root starts a longest branch, and a tie of two roots shows that the converse fails |
| Epochs.Epoch.AddProof | src/timer/epoch.rs:28-60 | the nested backward search extends, forks or opens a branch as defined |
| Epochs.Epoch.Close | src/timer/epoch.rs:63-106 | the map by length yields the first proof of the lowest-indexed branch of least length, or the digest of the current epoch; the branches are cleared |
| Tracker.AdvanceKeepsOk | src/timer/epoch_tracker.rs:15-41 | advancing never fails, opens one epoch, closes exactly the one that was current and open, and keeps all earlier randomness |
| Tracker.ProofKeepsOk | src/timer/epoch_tracker.rs:113-126 | adding a proof to a known epoch keeps which epochs exist and are closed, and all closed randomness |
| Tracker.LookupIffReached | src/timer/epoch_tracker.rs:75-104 | a challenge lookup succeeds exactly for the epochs up to the current one |
| Tracker.LookupIs | src/timer/epoch_tracker.rs:75-104 | the challenge of a reached slot is its own timeslot with the randomness of the epoch before, or with the genesis seed in epoch 0 |
| Tracker.ChallengeIsStable | src/timer/epoch_tracker.rs:75-104 | a challenge once given is given unchanged ever after |
| Tracker.EpochTracker.AdvanceEpoch | src/timer/epoch_tracker.rs:15-41 | the in-place advance equals its definition |
| Tracker.EpochTracker.AddProofToEpoch | src/timer/epoch_tracker.rs:113-126 | the in-place addition equals its definition, unknown epochs included |
| Tracker.EpochTracker.GetSlotChallenge | src/timer/epoch_tracker.rs:75-104 | the lookup gives the genesis seed in epoch 0 and the randomness of the epoch before in later ones, with the timeslot asked for, and fails exactly for epochs not reached |
| Timer.RoundKeepsStep | src/timer.rs:46-62 | the part of a timer round after its early blocks never meets a missing or open epoch and numbers its slot with timeslot / 32 |
| Timer.SyncKeepsStep | src/manager.rs:623-642 | leaving a slot during sync keeps the tracker on epoch timeslot / 32 |
| Timer.EveryRunIsInStep | src/timer.rs:33-82 | in every run of either clock with proofs staged at any time, the node is in step and every announced slot has its epoch and its final challenge; a run fails if and only if a proof is staged for an epoch not reached |
| Timer.EpochRandomness | src/timer/epoch_tracker.rs:15-41 | for all proofs staged, in whatever order and with or without their parents, the randomness of an epoch is the first proof of the first shortest branch of those staged before the next epoch opened, or the digest of that epoch when there are none, and never changes later |
| Timer.EpochClosesOnFirstProof | src/timer/epoch_tracker.rs:15-41 | when every later proof found its parent, that is the first proof staged |
| Challenges.SlotsAnnounced | src/timer.rs:33-82 | in every run sync counts the timeslots and then each round announces the next one, none left out and none twice |
| Challenges.LookedUp | src/timer/epoch_tracker.rs:75-104 | in every run the lookup of any reached epoch gives the seed in epoch 0, and later what the proofs staged for the epoch before decided until the next one opened |
| Challenges.AnnouncedChallenge | src/timer.rs:60-79 | in every run every slot announced carries its own timeslot, its epoch and that challenge |
| Timer.Sync | src/manager.rs:562-658 | the sync loop over any number of slots ends on the epoch of its timeslot and keeps closed epochs |
| Timer.Ticks | src/timer.rs:46-82 | without early blocks, the timer loop announces consecutive slots, each with its epoch and a challenge that stays valid |
| Framing.ChunkingDoesNotMatter | src/network.rs:208-264 | the messages extracted and the bytes left over do not depend on how the stream is cut |
| Framing.LeftoverBound | src/network.rs:223-253 | at most 65536 bytes are left after extraction from any input, so the read window is never empty |
| Framing.ReceivesAll | src/network.rs:191-206 | payloads that fit and end in a non-empty one are delivered in order with nothing left over |
| Framing.HoldsBackLastEmpty | src/network.rs:191-194 | a trailing empty payload is the only one not delivered and leaves its header behind |
| Framing.ReceivedIffFitAndLastNonEmpty | src/network.rs:191-264 | for every cut of the stream the payloads delivered are those written if and only if each fits the length field and the last is not empty |
| Framing.HeaderIsLittleEndian | src/network/nodes_container.rs:16-26 | headers are written and read as the length modulo 65536 in two little-endian bytes |
| Framing.WriteFrames | src/network/nodes_container.rs:16-26 | the sender writes the truncated little-endian length and the bytes of each payload in turn |
| Framing.Receiver.OnRead | src/network.rs:223-253 | one read with the extraction loop, the copy of the remainder and the buffer swap equals extraction from the pending bytes plus the chunk |
| Framing.Receiver.Receive | src/network.rs:208-264 | for every pattern of read sizes the loop delivers exactly the messages of the stream and stops only at its end |
| StateLog.EveryLogIsChained | src/state.rs:177-255 | after any records the state blocks form an unbroken chain of previous ids, stand at consecutive heights, and are found by height |
| StateLog.PieceFindsItsBlock | src/block.rs:162-170 | the i-th piece sent is numbered i, and the state block at height i / 2 commits to it |
| StateLog.PrefixIsBigEndian | src/state.rs:132-150 | the two bytes before a record are its length modulo 65536, high byte first |
| StateLog.GenesisFillsBlocks | src/state.rs:115-126 | records of 4094 bytes fill a state block two by two, leaving nothing pending after an even number |
| StateLog.State.SaveStateBlock | src/state.rs:230-242 | the in-place save equals its definition |
| StateLog.State.EncodePending | src/state.rs:177-227 | draining, padding, cutting and numbering pieces equal the definition |
| StateLog.State.Add | src/state.rs:132-174 | the three cases of a full, overfull or unfilled block equal the definition, and a bundle is returned exactly when one was sent |
| StateLog.State.GetStateBlockByHeight | src/state.rs:244-259 | the lookup through both maps equals its definition |
| StateLog.State.CreateGenesisState | src/state.rs:103-129 | for an even count exactly that many pieces come out, numbered from 0, with nothing pending, and the state is that of the generated records added in turn; an odd count is refused |
| StateRecovery.RecoversAll | src/state.rs:132-182 | while no record but the newest is too long, the blocks hold a prefix of the records and the pending bytes the rest |
| StateRecovery.LosslessIff | src/state.rs:132-182 | reading the blocks and the pending bytes gives back the records, for every list of them, if and only if none is empty, none but the newest exceeds 8190 bytes, and the newest is below 65536 bytes and fills the block exactly only if it really does |
| StateRecovery.PendingStaysWithinBlock | src/state.rs:179-182 | records of at most 8190 bytes never make the pending buffer outgrow a block, so the resize cuts nothing off and the records can be read back |
| Plot.NearWhenWrapped | src/plot.rs:208-248 | a window that wraps consists of both ends of the tag order and contains exactly the tags within half the range on the circle |
| Plot.FindByRange | src/plot.rs:195-267 | the cursor loops return exactly the entries within half the range of the target on the circle, none twice and in ascending order |
| Plot.InRangeIffNearOrWraps | src/block.rs:104-136 | the range test accepts a tag exactly when it is within half the range or the window wraps |
| Plot.RangeTestExactIffNoWrap | src/block.rs:104-136 | the range test is the distance test if and only if the window does not wrap |
| Plot.FoundTagsPassRangeCheck | src/ledger.rs:391-405 | every tag within half the range passes the range check of validation after local sortition into proposer and tx blocks |
| Plot.ProposersAreOneInFive | src/ledger.rs:394-395 | the range of proposer blocks is a fifth of the solution range, rounded down |
| Plot.SortitionIffNear | src/ledger.rs:391-405 | a solution becomes a proposer block exactly when its tag is within a tenth of the solution range or that window wraps, and it is then in the whole range too |
| Plot.RangeCheckIffNear | src/block.rs:104-136 | validation accepts a proposer block exactly within a tenth of the range and a tx block within half of it, or when that window wraps |

## Left out

- Guarded runs of the ledger assume what the network must provide: proof and content ids the node has not used, a parent within the guard, transactions at hand when a block is confirmed, and accounts for the senders of credits taken over unchecked. Runs of the whole node assume the same of blocks staged by sync, and of gossiped blocks only the ids and the transactions of those that pass all checks. Locally farmed blocks are not entered in the list of recent proof ids, so freshness is a hypothesis and not a consequence.
- Malformed keys, signatures and encodings: their parsing and decoding in validation (`src/block.rs:53-65`, `src/block.rs:188`) may be fatal too; the model takes them to be well formed.
- Roots are never pruned and skip the depth guard, so finality is stated for each root's tree.
- Cached gossip (`validate_block_from_cache`, `stage_cached_children`) does not enforce the depth guard and is not part of the runs; staging during sync does not either, and its blocks are assumed to meet it.
- The late arrival window of gossip, which as written rejects nothing; the early window is modelled with its 64-bit wrap-around.
- Retargeting of the solution range: floating-point arithmetic that does not touch the state modelled here.
- The mempool sets of unclaimed and unknown transactions and blocks.
- The state log inside the ledger is the list of records given to it; turning records into bytes is left to serialization.
- Signatures, SHA-256, HMAC, serialization and the Merkle tree library appear only as ids, flags and injective constructors; a malformed message is delivered as its bytes.
- The search for the Sloth prime: any prime that is 3 modulo 4 and fits a block is allowed.
- Sloth.DecodeUndoesEncode: gives one direction for several layers, because losses in several layers can cancel (`SlothLayers.LossesCanCancel`); the condition is exact for the single layer the node uses, and for more layers while at most one of the first two and no later one loses a block.
- SlothCodec.PieceRoundTrip: one direction for several layers, for the same reason.
- Builds with overflow checks: the 16-bit length arithmetic of the state log and the 64-bit balances wrap as in an optimized build; a checked build stops instead.
- Concurrency: locks make the modelled steps atomic; the parallel decoder is modelled by an arbitrary order of its tasks.
- Networking, reconnects, requests, RPC, IPC, wallet, console, disk and database internals, the partition of known peers, and the unimplemented stubs.
