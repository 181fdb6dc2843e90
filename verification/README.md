# A verified model of the chain state, the privacy circuit, and their clients

This project models four parts of the repository in Dafny and proves what they promise.

**The two-tier chain** (`lez/chain_state`). A node keeps a reorg-able head on top of an irreversible
final tier and is driven by adopted, produced, orphaned, finalized and restored blocks and by restarts,
in any order. The model has two forms. `ChainSpec` is the simple one: it holds only blocks, and every
state and tip is what replaying them gives. `ChainStates.ChainState` is the running one: a class with
the source's fields, whose cached head and final states are updated in place. Every method of the class
is proved to do what the simple form does, and the branches the source guards with `expect` are proved
unreachable.
On the simple form the project proves, for every sequence of events: validity, irreversibility,
agreement between nodes, exactly when the final tier follows the finalized stream, exactly which events
tell a restarted node from one that was never restarted, and exact stall accounting.

**The privacy-preserving circuit** (`lee/privacy_preserving_circuit`). A flat list of program outputs
is matched against a worklist of chained calls; account states, authorizations, PDA bindings and
claims are threaded from call to call; the result is emitted as public and private actions in an order
that hides their pairing. `CallTrees` relates the worklist to call trees, `Execution` describes one
account touched by one call, the modules after it prove properties of whole histories of touches, and
`ExecutionStates.ExecutionState` and `Circuit` are the imperative forms, proved against it.
`validate_execution` is modelled in full, including its 256-bit balance sums. `PrivateStates` records
what the circuit publishes and proves what holds over whole histories of transactions: an account is
created once, a state is spent once, and an update continues what an earlier transaction left.

**The anchor consistency check** and **the sequencer statistics and leader choice** are smaller
decision procedures with exact characterisations.

Everything foreign is a parameter. Hashes, transaction transitions, id derivations, commitments,
nullifiers, encryption and proof verification are arbitrary functions held in the datatypes
`Protocol`, `Prover`, `Derivations` and `Crypto`. Where a theorem needs the hash to be collision free,
it asks so of the delivered blocks only. A failed assertion of the circuit is a rejection (`None` or
`false`).

## Where the code and its promises part

- A finalized genesis block is not checked against a parent, but its parent hash is still looked up in
  the head. If it is not held itself and a held block has that hash, the held block is finalized in its
  place (`Following.StrayGenesisIsFinalized`). That is the only way it goes wrong: the final tier follows
  the finalized stream throughout a run if and only if no delivery of genesis meets this situation
  (`Following.FinalFollowsStreamIff`), and, if no later re-delivery of genesis meets it, ends as the stream
  if and only if the first delivery does not (`Following.FinalIsStreamIff`). A genesis whose parent nobody delivered never does
  (`Following.FinalFollowsStream`).
- A message id reused for another block at the same height is treated as a re-delivery before a
  restart and as a competitor after it (`Restart.ReusedMessageTellsApart`). The exact rule for one event
  is `Restart.RestartedAnswersIff`, that for a whole run `Restart.RestartIsInvisibleIff`: the restarted
  node can be told apart if and only if an event carries a message id that one of the two, and only one,
  holds another block of that height under.
- The consistency check documents that a block at or below the anchor id past the anchor slot betrays
  a reset. The code reports those below the anchor; the anchor block itself, served again later,
  passes (`Consistency.ReinscribedAnchorPasses`). `Consistency.HeaderVerdict` gives the exact rule.
- The combined validity window is promised to be non-empty. A window with no start and an end of zero
  is accepted although nothing satisfies it (`Derivation.AcceptedWindowNonEmpty`).
- Statistics that start without a sample become NaN for good if the first batch holds no success
  (`LatencyStatistics.FirstBatchDecides`). Calibration never makes such a record, it drops a client without
  a successful request; only a persisted file can hold one. The same records are what makes the choice of
  leaders panic (`LeaderChoice.RatiosSorted`).
- `latest_block_id` is replaced by the largest id of the last batch that has one, so it can go down
  (`LatencyStatistics.LatestGoesDownIff`).

## Model

| member | source | states |
|---|---|---|
| `Apply.ApplyBlockInPlace` | lez/chain_state/src/apply.rs:69-172 | the in-place transaction loop yields exactly the state or the first error of the block's replay step, error precedence included; on failure it leaves the state of the transactions before the failing one |
| `Apply.ExtendLinks` | lez/chain_state/src/apply.rs:82-120 | an applied block is one above the tip, well hashed, linked to the tip's hash, and becomes the tip |
| `Apply.ReplayContiguous` | lez/chain_state/src/chain.rs:299-309 | in any log that replays, ids are consecutive, every hash is the recomputed one, every block names its predecessor, and the tip id counts the blocks |
| `Apply.ReplayConcat` | lez/chain_state/src/chain.rs:299-309 | replaying in two stages is replaying in one |
| `Apply.ApplyUserTxsStops` | lez/chain_state/src/apply.rs:140-162 | the first failing transaction decides the block's error |
| `BlockEffects.BlockAppliesIff` | lez/chain_state/src/apply.rs:69-172 | a block applies and leads to a ledger if and only if it is well hashed, one above the tip and linked to it, ends with the clock transaction of its timestamp, is all public at genesis, and each of its transactions in turn, the clock included, takes one state to the next by its own transition |
| `BlockEffects.BlockFailsIff` | lez/chain_state/src/apply.rs:82-169 | it fails with an error if and only if that is the error of the first check it fails, at the index of the transaction that fails |
| `ChainLedgers.LedgerStep` | lez/chain_state/src/chain.rs:303-307 | every held head block applies on the ledger below it, so the replay cannot fail |
| `ChainLedgers.PushLedgers` | lez/chain_state/src/chain.rs:147-158 | truncating and pushing an applicable block keeps the chain valid, gives the extended ledger as head and leaves the final ledger alone |
| `ChainLedgers.TruncateLedgers` | lez/chain_state/src/chain.rs:181-186 | cutting the head leaves the final ledger and makes the head ledger the replay of what remains |
| `ChainLedgers.FinalizeLedgers` | lez/chain_state/src/chain.rs:249-258 | moving a head prefix into the final tier leaves the head ledger unchanged and advances the final ledger to the replay of that prefix |
| `ChainLedgers.AppendLedgers` | lez/chain_state/src/chain.rs:273-286 | a directly applied finalized block leaves both tiers at the extended ledger |
| `ChainLedgers.ChainHeights` | lez/chain_state/src/apply.rs:100-110 | tip ids count the blocks since the base and head ids are contiguous from the final tip |
| `ChainStates.ChainState.FromFinal` | lez/chain_state/src/chain.rs:46-54 | a restored state has consistent caches and an empty head |
| `ChainStates.ChainState.New` | lez/chain_state/src/chain.rs:40-42 | a fresh state has consistent caches and no blocks |
| `ChainStates.ChainState.HeadTip` | lez/chain_state/src/chain.rs:76-81 | the last head block, else the final tip, is the tip of the whole replay |
| `ChainStates.ChainState.ReplayHeadPrefix` | lez/chain_state/src/chain.rs:300-309 | the loop over the cached final state reaches the model's ledger at that head position, its failure branch being unreachable |
| `ChainStates.ChainState.ApplyAdopted` | lez/chain_state/src/chain.rs:111-162 | on cached states, same new chain and outcome as replaying everything from the base; caches stay exact; final fields untouched |
| `ChainStates.ChainState.ApplyProduced` | lez/chain_state/src/chain.rs:170-178 | refines the replaying form of producing |
| `ChainStates.ChainState.RederiveHead` | lez/chain_state/src/chain.rs:295-297 | restores an exact head cache from a stale one |
| `ChainStates.ChainState.RevertOrphan` | lez/chain_state/src/chain.rs:181-186 | refines the replaying form of orphaning |
| `ChainStates.ChainState.ApplyChannelUpdate` | lez/chain_state/src/chain.rs:190-207 | one truncation and the adoptions in order, outcomes aligned with the adopted blocks |
| `ChainStates.ChainState.RestoreHeadBlock` | lez/chain_state/src/chain.rs:215-220 | appends the block under its sentinel id, or reports the error with the log and final tier intact |
| `ChainStates.ChainState.FinalizeThroughHead` | lez/chain_state/src/chain.rs:250-258 | re-applying the drained blocks on the final tier cannot fail and moves exactly the prefix |
| `ChainStates.ChainState.ApplyFinalized` | lez/chain_state/src/chain.rs:225-247 | refines the replaying form of finalizing, stall included |
| `ChainStates.ChainState.ApplyFinalizedDirect` | lez/chain_state/src/chain.rs:262-292 | refines the direct form: idempotent re-delivery, rebase on success, stall record on failure |
| `ChainRuns.RunValid` | lez/chain_state/src/chain.rs:24-27 | after any events, restarts included, the head replays on the final tier with contiguous ids, so no replay of held blocks ever fails |
| `ChainRuns.AdoptExact` | lez/chain_state/src/chain.rs:104-162 | an adopted block applies if and only if it is above the final tip, not held, within reach, and valid on the replay below its own height; it then replaces exactly the blocks from that height on; otherwise nothing changes, and it counts as applied already if and only if it is held or not above the final tip, or is parked with the error it meets |
| `ChainRuns.ProduceExact` | lez/chain_state/src/chain.rs:164-178 | a produced block applies if and only if it is valid on the head ledger; it appends exactly one entry and never drops one; it counts as applied already if and only if it is not above the head tip |
| `ChainRuns.FinalizeExact` | lez/chain_state/src/chain.rs:222-292 | the whole new chain and outcome of a finalized block, by position: a held one finalizes the head up to its height; any other finalizes the head up to the first block with the hash it names as parent, if any, and is then appended, ignored as a re-delivery or parked, by its validity on the ledger so reached |
| `ChainRuns.FinalizeMoves` | lez/chain_state/src/chain.rs:222-292 | an applied one is at the final tip; one that is held or not applied leaves the log, the head tip and the head state as they were |
| `ChainRuns.FinalityIsIrreversible` | lez/chain_state/src/chain.rs:21-27 | over any run the finalized blocks grow only by appending |
| `ChainRuns.OrphanExact` | lez/chain_state/src/chain.rs:180-186 | a held orphan cuts the head below its own height; an unknown one does nothing |
| `ChainRuns.OrphanBatchIsEach` | lez/chain_state/src/chain.rs:188-202 | one truncation at the earliest orphan equals reverting the orphans one by one, unknown ones included |
| `ChainRuns.OrphanOrderIrrelevant` | lez/chain_state/src/chain.rs:188-202 | any reordering of the orphans gives the same chain |
| `ChainRuns.UpdateExact` | lez/chain_state/src/chain.rs:188-207 | an update reverts its orphans one by one and then adopts in order, the outcomes being those of the adoptions in the same order |
| `ChainRuns.RestoreExact` | lez/chain_state/src/chain.rs:209-220 | a restored block extends the head under its own hash as message id if it is valid there, and else changes nothing |
| `ChainRuns.StallTellsHistory` | lez/chain_state/src/chain.rs:311-317 | at every point of every run the stall record is present exactly when a finalized block was parked since the final tip last moved or the node restarted, records the first such block and error, and counts the later ones, saturating |
| `ChainRuns.RunEntries` | lez/chain_state/src/chain.rs:111-292 | nothing is ever in the log that was not delivered |
| `Agreement.SameTipSameContent` | lez/chain_state/src/apply.rs:82-120 | logs from one base whose last blocks share a hash have the same length and the same hashed content all the way down |
| `Agreement.ExtendReadsHashedFields` | lez/common/src/block.rs:71-79 | blocks equal in their hashed fields and hash have the same effect on every ledger |
| `Agreement.Agreement` | lez/chain_state/src/chain.rs:111-292 | two nodes from one initial state, under any two event streams with any restarts, have equal ledgers on any two tiers whose tips share a hash |
| `Following.FinalFollowsStreamIff` | lez/chain_state/src/chain.rs:222-292 | if the finalized deliveries, re-deliveries apart, form a chain from genesis, the final tier is that chain at every point of the run if and only if every delivery of genesis finds it held or finds no held block with the hash it names as parent |
| `Following.FinalIsStreamIff` | lez/chain_state/src/chain.rs:222-292 | with later re-deliveries of genesis like that, the final tier is that chain at the end if and only if the first delivery is too |
| `Following.FinalFollowsStream` | lez/chain_state/src/chain.rs:222-292 | and therefore always when nobody delivered the parent genesis names, with the ledger of the chain's replay |
| `Following.RepeatFollows` | lez/chain_state/src/chain.rs:262-271 | a re-delivered finalized block changes nothing, unless it names a held block as its parent |
| `Following.StrayIsFinalized` | lez/chain_state/src/chain.rs:235-246 | an unrooted genesis finalizes the head up to the block it names, and is itself parked or ignored |
| `Following.StrayGenesisIsFinalized` | lez/chain_state/src/chain.rs:237-246 | a two-event run whose final tier is not its finalized stream |
| `Likeness.SamePositionIff` | lez/chain_state/src/chain.rs:93-102 | two nodes with the same ledgers and held blocks find a block at the same place if and only if its message is not one that a single one of them holds another block of that height under |
| `Likeness.AdoptIff` | lez/chain_state/src/chain.rs:111-162 | the same condition is exact for adopting alike |
| `Likeness.OrphanIff` | lez/chain_state/src/chain.rs:181-186 | and for orphaning alike |
| `Likeness.FinalizeIff` | lez/chain_state/src/chain.rs:225-292 | and for finalizing alike, outcome and ledgers |
| `Likeness.AlikeForeverIff` | lez/chain_state/src/chain.rs:111-292 | fed the same events, such nodes stay indistinguishable throughout if and only if no event tells them apart |
| `Likeness.SeparatedRuns` | lez/chain_state/src/chain.rs:190-207 | an update's truncation and its adoptions may be observed as two updates |
| `Restart.RestartSucceeds` | lez/chain_state/src/chain.rs:209-220 | restoring the held head blocks on the final ledger never errs and reproduces both ledgers and all blocks |
| `Restart.BothStart` | lez/chain_state/src/chain.rs:46-54 | a node reopened in place and one built from the final ledger alone both qualify as the start |
| `Restart.RestartWithinRun` | lez/sequencer/core/src/lib.rs:163-205 | a restart as events of a run, reopening and restoring each held block, gives the restored chain |
| `Restart.RestartedAnswersIff` | lez/chain_state/src/chain.rs:93-102 | restarted and original node look up, adopt, orphan and finalize a block alike if and only if no block of another hash is held at its height under its message either before the restart or after it, but not both |
| `Restart.RestartIsInvisibleIff` | lez/sequencer/core/src/lib.rs:163-205 | from any valid chain, under any later events, the two are indistinguishable throughout if and only if no event tells |
| `Restart.RestartIsInvisible` | lez/sequencer/core/src/lib.rs:163-205 | and therefore always while a message carries one block per height: same outcomes, ledgers and blocks |
| `Restart.RestartAfterAnyRun` | lez/chain_state/src/chain.rs:209-220 | the same after any history since genesis |
| `Restart.ReusedMessageTellsApart` | lez/chain_state/src/chain.rs:93-102 | a message id reused at one height separates the two |
| `Programs.SumBalances` | lee/state_machine/core/src/program/mod.rs:541-553 | overflow counting represents the true sum and gives up exactly beyond 256 bits |
| `Programs.WrappedSumsCompare` | lee/state_machine/core/src/program/mod.rs:529-534 | two wrapped sums are equal exactly when the sums are |
| `Programs.IdSetSize` | lee/state_machine/core/src/program/mod.rs:764-773 | counting a set of ids decides whether ids repeat |
| `Programs.ValidateExecution` | lee/state_machine/core/src/program/mod.rs:670-762 | passes exactly the executions with distinct ids, matching lengths, allowed changes and preserved total balance; a reported error is true, and one about an account names the first offending one |
| `Programs.WellBehavedIff` | lee/state_machine/core/src/program/mod.rs:670-762 | the eight rules together: no account twice, one post state each, a program changing its own accounts freely but for nonce and owner, others' only by adding balance, the default account by any balance and data, an unowned non-default account never, and no balance made or lost |
| `CallTrees.WalkSound` | lee/privacy_preserving_circuit/src/execution_state.rs:118-207 | what the worklist accepts is the pre-order of a well-formed call forest, all outputs used, within the call limit |
| `CallTrees.WalkComplete` | lee/privacy_preserving_circuit/src/execution_state.rs:118-207 | and every such forest is accepted |
| `CallTrees.WalkIsCallTree` | lee/privacy_preserving_circuit/src/execution_state.rs:118-207 | acceptance is equivalent to the outputs being the pre-order listing of a call tree of at most eleven nodes, each proven and well behaved and naming the program, caller and instruction of the edge that made it; the visits are then its nodes |
| `CallTrees.ChildrenInOrder` | lee/privacy_preserving_circuit/src/execution_state.rs:187-189 | a node's children answer the calls it makes, in order, with its program as caller |
| `Execution.TouchAt` | lee/privacy_preserving_circuit/src/execution_state.rs:191-198 | every account of every call is touched in order, by the program called, for its caller and with the seeds passed on |
| `Execution.Record` | lee/privacy_preserving_circuit/src/execution_state.rs:509-546 | a recorded resolution is on record and every earlier one still is |
| `ExecutionSteps.MatchedSeedDerives` | lee/privacy_preserving_circuit/src/execution_state.rs:572-587 | the seed found is listed by the caller and derives the account in the stated form; none found means none derives it |
| `ExecutionSteps.SyncOneStates` | lee/privacy_preserving_circuit/src/execution_state.rs:258-280 | one accepted touch keeps one pre state per account, checks it against the last post state and settles the new one |
| `ExecutionSteps.SyncOneFlags` | lee/privacy_preserving_circuit/src/execution_state.rs:281-308 | the flag a returning account must carry, and the set of authorized accounts after it |
| `ExecutionSteps.SyncOneResolutions` | lee/privacy_preserving_circuit/src/execution_state.rs:313-377 | every resolution of an accepted touch is a true derivation and is on record |
| `ExecutionAcceptance.MatchedSeedExact` | lee/privacy_preserving_circuit/src/execution_state.rs:572-587 | the seed found is the first that derives the account in either form, and the form is public whenever that one derives it |
| `ExecutionAcceptance.CallerResolutionExact` | lee/privacy_preserving_circuit/src/execution_state.rs:572-599 | a returning account resolves through its caller if and only if some seed the caller listed derives it |
| `ExecutionAcceptance.TouchAcceptedIff` | lee/privacy_preserving_circuit/src/execution_state.rs:258-464 | exactly when a touch is accepted: the account arrives as it was left with the flag it is due, or new and, with a seed supplied from outside, unauthorized and derived from it; its claim is allowed; and what it resolves contradicts nothing on record |
| `ExecutionAcceptance.TouchRecordsExactly` | lee/privacy_preserving_circuit/src/execution_state.rs:509-546 | an accepted touch puts what it resolves on record and nothing else |
| `ExecutionHistory.StatesAreThreaded` | lee/privacy_preserving_circuit/src/execution_state.rs:274-279 | an account enters each call exactly as its previous call settled it |
| `ExecutionHistory.LastSettles` | lee/privacy_preserving_circuit/src/execution_state.rs:463 | the final post state is what the account's last call settled |
| `ExecutionHistory.FirstSeenKept` | lee/privacy_preserving_circuit/src/execution_state.rs:310-379 | the pre state on record is the one of the first touch, at a position that never changes |
| `ExecutionHistory.AuthorizationExact` | lee/privacy_preserving_circuit/src/execution_state.rs:561-610 | a flag is set if and only if the first-seen flag was or some return up to now matched a seed of its immediate caller |
| `ExecutionProperties.ResolutionsRecorded` | lee/privacy_preserving_circuit/src/execution_state.rs:38-46 | every resolution anywhere in an accepted transaction derives its account and is still on record at the end |
| `ExecutionProperties.SeedsResolveOnce` | lee/privacy_preserving_circuit/src/execution_state.rs:502-546 | one (program, seed) stands for one account per transaction, and a private position has one (program, seed) |
| `ExecutionProperties.OwnerIsClaimer` | lee/privacy_preserving_circuit/src/execution_state.rs:382-463 | the final owner is the last claimer, or the first-seen owner |
| `ExecutionProperties.ClaimedAtMostOnce` | lee/privacy_preserving_circuit/src/execution_state.rs:382-388 | with real program ids no account is claimed twice |
| `ExecutionProperties.ClaimedCameInDefault` | lee/state_machine/core/src/program/mod.rs:730-738 | a claimed account came into that call as the default account |
| `ExecutionAcceptance.ClaimsRestOnAuthority` | lee/privacy_preserving_circuit/src/execution_state.rs:382-460 | in an accepted history every claim is on an account without owner, and on a public one needs its authorization or the claiming program's derivation, on a private PDA the derivation under the keys supplied |
| `ExecutionAcceptance.PublicClaimIsGranted` | lee/privacy_preserving_circuit/src/execution_state.rs:397-421 | so a public account is claimed only if its history granted authorization or it is the claimer's PDA |
| `ExecutionAcceptance.PdaClaimsRecorded` | lee/privacy_preserving_circuit/src/execution_state.rs:407-459 | a PDA claim is on record at the end, for the account and for a private position |
| `ExecutionAcceptance.ExternalSeedsRecorded` | lee/privacy_preserving_circuit/src/execution_state.rs:313-377 | so is a seed supplied from outside, which derives the account, and the account came in unauthorized |
| `ExecutionProperties.OnlyOwnerSpends` | lee/state_machine/core/src/program/mod.rs:690-728 | an owned account touched by no call of its owner keeps owner, data and nonce and can only gain balance |
| `ExecutionProperties.GainsTelescope` | lee/privacy_preserving_circuit/src/execution_state.rs:258-280 | what the accounts gain overall is the sum of what the touches gain |
| `ExecutionProperties.BalanceConserved` | lee/privacy_preserving_circuit/src/execution_state.rs:175-185 | balances are conserved through any accepted call tree |
| `Derivation.IntersectExact` | lee/privacy_preserving_circuit/src/execution_state.rs:78-105 | the combined window holds exactly where every output's window holds |
| `Derivation.AcceptedWindowNonEmpty` | lee/state_machine/core/src/program/mod.rs:350-363 | an accepted window is non-empty except for no start with an end of zero |
| `Derivation.OverlapIff` | lee/privacy_preserving_circuit/src/execution_state.rs:78-105 | the combined window is accepted if and only if every start lies before every end |
| `Derivation.DeriveIff` | lee/privacy_preserving_circuit/src/execution_state.rs:59-246 | a transaction is derived if and only if its windows overlap, its outputs list a call tree, its touches are accepted in order, its private PDAs are all bound, and no account is left modified but unowned |
| `Derivation.UnownedIsDefault` | lee/privacy_preserving_circuit/src/execution_state.rs:224-243 | an account leaves an accepted transaction unowned only as the unchanged default account |
| `Derivation.OwnedStaysOwned` | lee/state_machine/core/src/program/mod.rs:697-703 | an account that comes in owned keeps its owner |
| `Derivation.AcceptedConserves` | lee/privacy_preserving_circuit/src/execution_state.rs:59-246 | an accepted transaction conserves the sum of balances |
| `ExecutionStates.ExecutionState.constructor` | lee/privacy_preserving_circuit/src/execution_state.rs:64-116 | the position map holds exactly the keys supplied for private PDAs; everything else is empty |
| `ExecutionStates.ExecutionState.AssertFamilyBinding` | lee/privacy_preserving_circuit/src/execution_state.rs:509-528 | rejects exactly a different account under the same pair |
| `ExecutionStates.ExecutionState.BindPrivatePdaPosition` | lee/privacy_preserving_circuit/src/execution_state.rs:530-546 | rejects exactly a different pair at the same position |
| `ExecutionStates.ExecutionState.ResolveAuthorization` | lee/privacy_preserving_circuit/src/execution_state.rs:561-610 | the flag, the recorded bindings and the authorized set of the specification |
| `ExecutionStates.ExecutionState.SyncTouch` | lee/privacy_preserving_circuit/src/execution_state.rs:258-464 | accepts and updates as the specification of one touch |
| `ExecutionStates.ExecutionState.ValidateAndSyncStates` | lee/privacy_preserving_circuit/src/execution_state.rs:249-465 | accepts and updates as the specification of one call |
| `ExecutionStates.ExecutionState.DrainCalls` | lee/privacy_preserving_circuit/src/execution_state.rs:118-207 | the loop terminates and accepts exactly when the walk and the whole history of touches are accepted |
| `ExecutionStates.ExecutionState.DeriveFromOutputs` | lee/privacy_preserving_circuit/src/execution_state.rs:59-246 | accepts exactly the transactions of the specification and holds their execution state and windows |
| `CircuitOutputs.NoteRederives` | lee/privacy_preserving_circuit/src/output.rs:36-257 | every field of the note of a position: the keys supplied there and the seed bound there, which re-derive its account id; the derived post state with the initial or next nonce; the view tag; and the nullifier and root of the creation or of the state the account came in with |
| `CircuitOutputs.EmitIff` | lee/privacy_preserving_circuit/src/output.rs:33-258 | accounts emit if and only if each may: a regular private one authorized and under its keys, a new PDA unauthorized, an updated PDA authorized unless its seed came from outside, every PDA bound, every new account default |
| `CircuitOutputs.EmittedIff` | lee/privacy_preserving_circuit/src/output.rs:13-267 | the same for whole transactions: emitted if and only if derived, with one identity per account, each of which may |
| `CircuitOutputs.EmitPlaces` | lee/privacy_preserving_circuit/src/output.rs:33-258 | every account emits exactly one action, public action or note of its own, at the place its position gives it, and there are no others |
| `CircuitOutputs.EmissionFaithful` | lee/privacy_preserving_circuit/src/output.rs:33-258 | the emitted balances add up to the derived ones |
| `CircuitOutputs.OutputFaithful` | lee/privacy_preserving_circuit/src/output.rs:13-267 | in an accepted transaction every account emits its one action, a private one as a note whose supplied keys and bound seed re-derive the account's id, and public posts plus committed private posts sum to the first-seen balances |
| `CircuitOutputs.ObfuscateOutputOrdering` | lee/privacy_preserving_circuit/src/output.rs:269-284 | nullifiers and commitments ascend, the commitments are the same, every nullifier keeps its root and note |
| `CircuitOutputs.AnySortObfuscates` | lee/privacy_preserving_circuit/src/output.rs:270-283 | the same of any sort of actions and commitments, whatever it does with ties |
| `CircuitOutputs.CanonicalForm` | lee/privacy_preserving_circuit/src/output.rs:269-284 | every permutation of the actions and every re-pairing of commitments gives the same output |
| `CircuitOutputs.OrderIsHiddenIff` | lee/privacy_preserving_circuit/src/output.rs:277-279 | the output is determined if and only if equal nullifiers only occur with equal contents |
| `Circuit.AccountIsPublished` | lee/privacy_preserving_circuit/src/output.rs:309-345 | every private account's note is published, encrypted to its viewing key under the ephemeral key of its id, seed and new nonce, and so is a commitment to its new state |
| `Circuit.DummyIsPublished` | lee/privacy_preserving_circuit/src/output.rs:286-303 | every dummy is published under the nullifier and commitment its seeds give |
| `Circuit.PublishedCount` | lee/privacy_preserving_circuit/src/output.rs:260-266 | and nothing else is |
| `Circuit.RecipientRecovers` | lee/privacy_preserving_circuit/src/output.rs:309-345 | from the published actions alone, whoever can open a note decrypts exactly its account and kind, re-derives exactly its account id and finds the matching commitment among the published ones |
| `Circuit.ComputeCircuitOutput` | lee/privacy_preserving_circuit/src/output.rs:13-267 | emits exactly the specified actions, sealed and reordered, no post state ever missing |
| `Circuit.RunCircuit` | lee/privacy_preserving_circuit/src/main.rs:7-25 | the whole circuit outputs exactly for the accepted transactions, and outputs their emission |
| `PrivateStates.CountUnique` | lee/state_machine/src/validated_state_diff/mod.rs:535-538 | counting different values decides whether a list repeats one |
| `PrivateStates.PrivateState.constructor` | lee/state_machine/src/state/mod.rs:120-132 | a new state holds the dummy commitment, its root and no nullifier |
| `PrivateStates.PrivateState.CheckCommitmentsAreNew` | lee/state_machine/src/state/mod.rs:345-355 | passes exactly when none of the commitments is in the tree |
| `PrivateStates.PrivateState.CheckNullifiersAreValid` | lee/state_machine/src/state/mod.rs:357-373 | passes exactly when no nullifier is recorded and every root is a recorded one |
| `PrivateStates.PrivateState.ExtendCommitments` | lee/state_machine/src/state/mod.rs:46-52 | appends the commitments in order and records the root once, after the last |
| `PrivateStates.PrivateState.Transition` | lee/state_machine/src/validated_state_diff/mod.rs:342-423 | accepts exactly what passes the checks on private actions, records it, and otherwise changes nothing |
| `PrivateStates.NullifiedOnce` | lee/state_machine/src/state/mod.rs:357-366 | over any history no nullifier is published twice |
| `PrivateStates.RecordedExactly` | lee/state_machine/src/state/mod.rs:202-227 | the sets hold what was there and what was published, in order, and the root after every transaction, and nothing else |
| `PrivateStates.HistoryAcceptedIff` | lee/state_machine/src/state/mod.rs:345-373 | a history is accepted transaction by transaction if and only if, as a whole, every private transaction publishes something, no nullifier and no commitment occurs twice or was there before, and every root referred to is one the tree had before |
| `PrivateStates.NotesNullifyOnce` | lee/state_machine/src/state/mod.rs:357-366 | nor do two notes anywhere in a history of proven transactions share one, reordering notwithstanding |
| `PrivateStates.CreatedAtMostOnce` | lee/state_machine/core/src/nullifier.rs:104-112 | over any history of proven transactions no private account is created twice, by whatever identity variants |
| `PrivateStates.SpentAtMostOnce` | lee/state_machine/core/src/nullifier.rs:93-102 | nor is any state of a private account updated from twice, unless secret keys collide into one account id |
| `PrivateStates.UpdateSpendsRecorded` | lee/privacy_preserving_circuit/src/output.rs:347-357 | the state an update comes in with had its commitment recorded before, given a sound membership proof |
| `PrivateStates.UpdateContinuesNote` | lee/privacy_preserving_circuit/src/output.rs:347-357 | that state is the one some earlier transaction's note left the account in, or one of the initial set, given binding commitments |
| `Consistency.AnchorConsistencyCheck.CheckFrontier` | lez/chain_state/src/consistency.rs:193-198 | an open verdict becomes the frontier verdict; a reached one stays |
| `Consistency.AnchorConsistencyCheck.Observe` | lez/chain_state/src/consistency.rs:202-212 | after each message the verdict is that of the whole stream so far |
| `Consistency.VerdictSticks` | lez/chain_state/src/consistency.rs:202-212 | a verdict once reached never changes |
| `Consistency.SameChainIsConsistent` | lez/chain_state/src/consistency.rs:119-165 | a slot-ordered stream with increasing ids holding the anchor at its slot is found consistent |
| `Consistency.FrontierDecides` | lez/chain_state/src/consistency.rs:306-315 | a missing channel, and one that ends before the anchor slot, is reported as that whatever it serves |
| `Consistency.HeaderVerdict` | lez/chain_state/src/consistency.rs:119-165 | the complete decision for an anchor with a header on any stream: the first block at or past the slot that is not an older one on the slot decides, with the mismatch reported; without one there is no verdict |
| `Consistency.ReinscribedAnchorPasses` | lez/chain_state/src/consistency.rs:141-150 | the anchor block served again past its slot is taken as consistent |
| `Consistency.HeaderlessVerdict` | lez/chain_state/src/consistency.rs:123-133 | an anchor without header is decided by the first message at or past its slot |
| `LatencyStatistics.Statistics.ApplyUpdates` | lez/wallet/src/multi_client.rs:45-81 | the in-place update is the specified one |
| `LatencyStatistics.CumulateSums` | lez/wallet/src/multi_client.rs:409-446 | the batch fold gives the sample's size, sum and squares |
| `LatencyStatistics.AvgExact` | lez/wallet/src/multi_client.rs:720-727 | the incremental average is the mean of old sample and batch together |
| `LatencyStatistics.VarExact` | lez/wallet/src/multi_client.rs:743-768 | the incremental variance is the population variance of both together |
| `LatencyStatistics.BatchesExact` | lez/wallet/src/multi_client.rs:45-81 | any split into batches leaves mean, variance and size of the whole sample |
| `LatencyStatistics.FirstBatchDecides` | lez/wallet/src/multi_client.rs:45-81 | from an empty sample this holds if and only if the first batch has a success; otherwise NaN for good |
| `LatencyStatistics.LatestExact` | lez/wallet/src/multi_client.rs:54-57 | a batch without a success keeps the recorded block id, any other sets it to the largest one reported |
| `LatencyStatistics.LatestOfBatches` | lez/wallet/src/multi_client.rs:54-57 | after any batches it is the largest id of the last batch with a success |
| `LatencyStatistics.LatestGoesDownIff` | lez/wallet/src/multi_client.rs:55-57 | the recorded block id drops exactly when a batch reports ids and all are lower |
| `LatencyStatistics.ErrorsTotal` | lez/wallet/src/multi_client.rs:54 | errors count the failures of all batches, saturating |
| `LeaderChoice.TruncateIsFilter` | lez/wallet/src/multi_client.rs:656-682 | on a sorted list, cutting at the first key above a bound is filtering by it |
| `LeaderChoice.ErrorRatioExact` | lez/wallet/src/multi_client.rs:769-777 | the error ratio is the share of failed requests, between 0 and 1, and not a number exactly without any |
| `LeaderChoice.UpToDateExact` | lez/wallet/src/multi_client.rs:610-646 | kept are the metered clients no metered one is ahead of, as often as they are listed |
| `LeaderChoice.EligibleExact` | lez/wallet/src/multi_client.rs:648-682 | eligible are those of them whose ratio is at most the mean of all of theirs |
| `LeaderChoice.RatioSumIsSum` | lez/wallet/src/multi_client.rs:648-655 | the mean is taken over the ratios of the listed clients, one by one |
| `LeaderChoice.SomeoneAtMostAverage` | lez/wallet/src/multi_client.rs:648-655 | some client's error ratio is at most the average |
| `LeaderChoice.BestAreBest` | lez/wallet/src/multi_client.rs:684-706 | everyone left out scores no better than anyone chosen |
| `LeaderChoice.RatiosSorted` | lez/wallet/src/multi_client.rs:657-670 | sorting by a comparison that fails on NaN panics exactly when two or more are compared and one ratio is not a number, and sorts otherwise |
| `LeaderChoice.CutIsCut` | lez/wallet/src/multi_client.rs:648-682 | the cut at the computed average, NaN included, is the cut at the average |
| `LeaderChoice.ChooseLeaders` | lez/wallet/src/multi_client.rs:605-707 | chooses the best of exactly the eligible clients, never nobody, and panics exactly when two or more are up to date and one has neither sample nor error |

## Left out

- Block ids are unbounded. The source panics when a tip id would pass the 64-bit maximum; since a tip id counts the applied blocks (`ChainLedgers.ChainHeights`), that takes 2^64 - 1 of them.
- `head_state_mut`, which bypasses the cache invariant, and anything done after the fatal error of `restore_head_block`.
- Restarts are modelled on the final ledger and head blocks the node holds; a persisted snapshot that lags behind them, and the check of the replayed head state against the stored one, are not.
- Programs.ValidateExecution: does not state which of several broken rules is reported, because the circuit rejects on any of them.
- PrivateStates.PrivateState.Transition: signatures, nonces, public account ids and the validity windows of a transaction are not modelled; the Merkle tree is an arbitrary function from leaves to a root, and that a verified proof means a run of the circuit is a hypothesis (`Proven`) of the lemmas.
- CircuitOutputs.ObfuscateOutputOrdering: works on sequence values, so update in place of the output vectors is not captured; byte strings are compared as 256-bit numbers.
- LeaderChoice.ChooseLeaders: does not state the order among clients with equal score; latency average plus deviation is an arbitrary real-valued score.
- LatencyStatistics.AvgExact: floating point rounding is not modelled; arithmetic is over the reals with NaN for nothing divided by nothing.
- Ledger state, transaction execution, SHA-256, borsh, ML-KEM and proof verification are parameters without laws.
- `verify_chain_consistency`: channel reads and timeouts around the modelled checker.
- Networking, calibration and locking of the multi-sequencer client.
- The multisig program, wallets, explorer, indexer, storage and serialization.
