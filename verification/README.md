# Tandem verifier: a Dafny model

This project models the consensus core and the ingestion path of the Tandem verifier and proves what they are for.

Tandem tracks two-party objects on Bitcoin. A block reducer reads marker outputs, recognises spends of 20,000-sat carrier
outputs, validates CREATE, MARK, ROTATE, CLOSE and REFUND transactions, ends the objects whose carriers are spent any other
way, and commits every block to an event root, an object-state root and a chained root. A store keeps the reducer state,
one inverse journal entry per height and two query projections. A worker follows a Bitcoin node, rolling back and catching up.

## How the model is built

- **Reducer.** `Types`, `Marker`, `Validators`, `Roots` and `Reducer` are the program's own branches, constants and checked
  32/64-bit operations as functions on values. `LiveState.LiveChain` is the state as a mutable object; its methods follow
  the source's order of updates and are proved equal to those functions.
- **Store.** `Tables` holds the database tables with their primary keys, unique and foreign keys and bigint conversions.
  `Database.Store` runs each transaction statement by statement on a private copy and publishes it on commit. A commit can
  be lost, or succeed without being acknowledged.
- **Worker.** `Worker` and `Ingestion.Coordinator` run one pass against a block source that may answer anything.
- **Hashes.** SHA256, hash160 and curve membership are arbitrary functions carried in a `Crypto` record, so every theorem
  holds for all of them. Binding results assume no collision only within the finite set of strings that the two compared
  computations hash; read backwards, unequal inputs with equal roots exhibit two of those strings with one hash.
- **Faithful runs.** Results about money and lineage carry a record of the outputs made by applied blocks
  (`Ledger.FaithfulTx`, `FaithfulRuns.GoodRun`): txids are new, prevouts are distinct and unspent, prevouts made in the run
  resolve to their recorded value, script and height, heights fit a signed 64-bit integer, object keys do not collide.
  Everything under "every run" below needs none of this.

Three places where the code does not do what one might expect, each with its exact condition:

- The refund maturity check compares an overflowed addition as absent, so it passes near the top of the u64 range. It means
  "52,560 blocks deep" for all confirmations exactly when the height is at most 2^64 - 52,560
  (`Validators.MaturityGuardExact`, `Validators.MaturityGuardOverflows`).
- `verify_merkle_levels` accepts lists that the `merkle` loop never produces, such as a width-one level before the last.
  What it accepts is the loop's run exactly when the last level is the only one of width one
  (`MerkleLevels.CheckerAgreesWithLoop`, `MerkleLevels.WidthConditionIsNeeded`).
- A pass, or a retry, does not always bring the store to the node's chain, because a failed `rollback_tip` is not followed by
  a reload and a failed reload keeps the old state. One failure-free pass converges exactly under the condition of
  `Convergence.PassConverges`. Two or more do exactly when the world is not `Recovery.Stuck`: worker and store disagree and
  the worker wants to roll back a store without a tip, or already stands at the node's best block, or waits for an INIT the
  node does not have (`Recovery.RetryConverges`). No pass, under any faults, changes a stuck world, and in the last two cases
  each pass reports success (`Recovery.StuckForever`). Each case is reached through a lost acknowledgement
  (`Recovery.LostRollbackStrands`, `Recovery.FlipBackHides`, `Recovery.LostInitHides`), and a restart resolves all of
  them (`Recovery.RestartRecovers`).

## Model

| member | source | states |
|---|---|---|
| `Marker.ParserInvertsPrinter` | crates/tandem-core/src/marker.rs:46-70 | a script is detected and strictly parsed to a payload iff it is OP_RETURN plus the shortest push of that payload, which starts with the magic, has 7 to 80 bytes and the exact length of any defined opcode |
| `Marker.ParsePrinted` | crates/tandem-core/src/marker.rs:155-197 | parsing a printed payload returns it with version, network and opcode in their places |
| `Marker.PrintParsed` | crates/tandem-core/src/marker.rs:155-197 | whatever parses was printed: no second encoding of a payload is accepted |
| `Marker.DetectionExact` | crates/tandem-core/src/marker.rs:155-197 | broad detection, both ways: a candidate is what some announced push of at least the magic shows, complete, truncated or with trailing bytes, in any of the four push forms |
| `Marker.FieldBytes` | crates/tandem-core/src/marker.rs:98-108 | a 32-bit field read at an offset is the integer whose little-endian bytes stand there |
| `MarkerSelection.CandidatesExact` | crates/tandem-core/src/reducer.rs:434-448 | the markers of a transaction are exactly the detected outputs within 32 bits, in strictly increasing output order, an INIT shape counting only in the configured INIT transaction |
| `MarkerSelection.ConfiguredInitCandidate` | crates/tandem-core/src/reducer.rs:434-448 | a configured INIT with one well-formed marker has exactly that candidate, and it parses to the printed payload |
| `MarkerSelection.AttemptedExact` | crates/tandem-core/src/reducer.rs:1261-1270 | the event type of an invalid attempt is that of its opcode byte under version 1, otherwise INVALID |
| `MarkerSelection.PopulationExact` | crates/tandem-core/src/reducer.rs:1272-1284 | the reported namespace is bytes 8 to 40 of a complete version-1 payload with the exact length of an operation other than INIT, otherwise zero |
| `Types.CarrierDecoderInvertsPrinter` | crates/tandem-core/src/types.rs:560-581 | `carrier_revealed_keys` accepts a witness script iff it is the 2-of-2 script of the keys it returns, and those keys are unique |
| `Types.KeyDecoderExact` | crates/tandem-core/src/types.rs:539-557 | a key input is accepted iff it spends the key-hash output of the signing key it reveals, with an empty script and two witness items |
| `Types.CarrierKeysExact` | crates/tandem-core/src/types.rs:584-588 | a carrier input is accepted iff it spends the hash of the 2-of-2 script it reveals, of two signing keys in ascending order |
| `Primitives.LexLessExact` | crates/tandem-core/src/types.rs:29-30 | the byte order of keys and hashes: the first differing byte decides, and a proper prefix comes first |
| `Validators.AcceptedIsJustified` | crates/tandem-core/src/reducer.rs:486-798 | what every accepted operation establishes for the run invariants: input and output counts, the new carrier output, the spent object at input 0 with an earlier confirmation, the next sequence, the phase |
| `Validators.MaturityGuardExact` | crates/tandem-core/src/reducer.rs:812-826 | the maturity check means "at least 52,560 blocks deep" for every earlier confirmation iff the height leaves room for the addition |
| `Validators.MaturityGuardOverflows` | crates/tandem-core/src/reducer.rs:812-826 | an immature carrier that passes the check at the top of the u64 range |
| `Rules.ReasonIsLeastBrokenRule` | crates/tandem-core/src/reducer.rs:486-798 | a single-marker transaction is valid iff it breaks no rule of a table stated on its fields and payload bytes, sharing no check with the validators, and otherwise reports the least code among all rules it breaks |
| `Rules.EventCarriesLeastBrokenRule` | crates/tandem-core/src/reducer.rs:399-431 | a transaction with one marker and at most one spent carrier emits exactly one event, valid iff no rule is broken, and otherwise carrying the least code among all rules broken |
| `Rules.InitReasonIsLeastBrokenRule` | crates/tandem-core/src/reducer.rs:222-290 | the same for the configured INIT |
| `InitPhase.InitBlockExact` | crates/tandem-core/src/reducer.rs:99-142 | a block applied while INIT is awaited contains the configured INIT, and runs from its own height with exactly the heights written at bytes 7 to 11 and 11 to 15 of the marker iff no rule is broken, otherwise has failed with the least rule broken |
| `InitPhase.RunPhaseExact` | crates/tandem-core/src/reducer.rs:222-290 | the same for the lifecycle of every run and the INIT of its first block |
| `InitPhase.FailedInitReports` | crates/tandem-core/src/reducer.rs:1131-1171 | a failed INIT block changes no map and reports exactly one invalid event about the configured INIT, with its reason, first marker, attempted type and the deployment's namespace |
| `Dispatch.RefundExact` | crates/tandem-core/src/reducer.rs:800-843 | a markerless one-carrier spend with one input and two outputs is a refund iff the refund rules hold on its fields and bytes, key 0 paid first, and otherwise ends the object as a bad refund; up to signed 64-bit heights the depth is at least 52,560 |
| `Dispatch.DispatchExact` | crates/tandem-core/src/reducer.rs:293-432 | what is emitted for every number of markers and spent carriers: how many events, of which class, with which reason, event index and namespace, and the exit of every spent object |
| `EventContents.AcceptedIsLawful` | crates/tandem-core/src/reducer.rs:845-897 | every accepted operation has version 2, no locktime, RBF sequences, earlier confirmed prevouts, all inputs signed, its own network and namespace, and the right keys |
| `EventContents.TransactionDescribed` | crates/tandem-core/src/reducer.rs:900-1203 | every event a transaction emits describes it: MARK and CLOSE commitments and sequences as they stand in the payload, keys as the inputs reveal them, INIT's spec hash, zero elsewhere, with the block's hash and height and the transaction's ids and marker index |
| `EventContents.RunDescribed` | crates/tandem-core/src/reducer.rs:900-1203 | the same for every event of every run |
| `Reducer.ClassifyFacts` | crates/tandem-core/src/reducer.rs:293-432 | what each outcome of the dispatch says about the carriers the transaction spends |
| `Reducer.AcceptedIsApplicable` | crates/tandem-core/src/reducer.rs:916-968 | an accepted CREATE finds a running protocol and an accepted MARK a counter with room: the `unreachable!` and the `expect` cannot fire |
| `Reducer.ProcessKeepsBounded` | crates/tandem-core/src/reducer.rs:965-968 | every transaction keeps the chapter counter at most the sequence and changes nothing but the two maps |
| `LiveState.LiveChain.TerminateObject` | crates/tandem-core/src/reducer.rs:1247-1259 | in-place termination equals its specification |
| `LiveState.LiveChain.TerminateCarriers` | crates/tandem-core/src/reducer.rs:1205-1244 | the sort-and-exit loop equals exiting all spent objects in key order, with consecutive sub-indices and no failing conversion |
| `LiveState.LiveChain.ApplyValidOperation` | crates/tandem-core/src/reducer.rs:900-1043 | the four in-place updates and their events equal their specification |
| `LiveState.LiveChain.ProcessTransaction` | crates/tandem-core/src/reducer.rs:293-432 | the in-place dispatch equals classifying first and executing the verdict |
| `LiveState.LiveChain.ApplyBlock` | crates/tandem-core/src/reducer.rs:90-185 | total on every block whose counts fit 32 bits; an error leaves every field unchanged; a success is the specified state and journal entry |
| `LiveState.LiveChain.DisconnectBlock` | crates/tandem-core/src/reducer.rs:193-199 | restores the journal entry iff it identifies the current tip, otherwise changes nothing |
| `EventLog.BlockEventsOrdered` | crates/tandem-core/src/roots.rs:32-45 | every block's events are strictly increasing in (tx_index, event_index, sub_index): the root's sort is a no-op and the primary key cannot clash |
| `EventLog.ExitsInKeyOrder` | crates/tandem-core/src/reducer.rs:1215-1216 | the exits of one transaction are sorted by object key |
| `EventLog.LogDeterminesState` | crates/tandem-core/src/reducer.rs:900-1043 | for every run, an interpreter that sees only event fields and the phase heights rebuilds exactly the `objects` and `active` maps |
| `EventLog.AwaitingIffEmpty` | crates/tandem-core/src/reducer.rs:99-121 | a run awaits INIT exactly while no block is applied |
| `LocalInvariant.RunKeepsLocal` | crates/tandem-core/src/reducer.rs:900-1043 | every run: identities, vout-1 index keys, lifecycle coherence, phases and counter bounds |
| `Heights.BranchTips` | crates/tandem-core/src/reducer.rs:201-220 | every run: blocks are linked at consecutive heights, the tip fields name the last block, no object is younger than the tip |
| `Heights.ApplyOutcome` | crates/tandem-core/src/reducer.rs:201-220 | exactly when a block applies, and exactly which error it reports otherwise |
| `Ledger.TransitionKeepsLedger` | crates/tandem-core/src/reducer.rs:900-1043 | carrier backing and index agreement survive any step that has the effect of one transaction |
| `Transitions.CreateSpendsNoCarrier` | crates/tandem-core/src/reducer.rs:505-534 | an accepted CREATE spends no active carrier although its validator never looks at the carrier |
| `Transitions.NoSpentCarrierStaysActive` | crates/tandem-core/src/reducer.rs:293-432 | one faithful transaction: every spent active object advances once to output 1 or ends with this txid, every other object is unchanged, no input stays indexed |
| `InsideBlocks.InvariantInside` | crates/tandem-core/src/reducer.rs:99-152 | the run invariant holds before every transaction of every block that leaves the protocol running, and the last of these states holds the committed maps |
| `InsideBlocks.EveryTransactionIsSafe` | crates/tandem-core/src/reducer.rs:293-432 | the same for every transaction of every block of every faithful run, those of the INIT block included, together with its value balance |
| `InsideBlocks.IndexInsideBlocks` | crates/tandem-core/src/reducer.rs:634-634 | before every such transaction the index is sound and whatever it reports is spent at its current outpoint, so the "not the current outpoint" rejections are unreachable: an inactive predecessor is reported only when no carrier is spent |
| `Conservation.ValueIsConserved` | crates/tandem-core/src/reducer.rs:543-573 | every accepted CREATE, MARK, ROTATE, CLOSE and REFUND has inputs = outputs + a positive fee over unbounded integers, and CREATE and ROTATE debits differ by exactly fee mod 2 |
| `Lineage.LinearLogView` | crates/tandem-core/src/reducer.rs:952-1041 | a linear log alone fixes every object's last state, and its ending events count the objects no longer active |
| `FaithfulRuns.RunHoldsInvariant` | crates/tandem-core/src/reducer.rs:90-185 | every state of every faithful run satisfies backing, index agreement, linear lineage, carrier ages and log agreement |
| `RunTheorems.PhasesHold` | crates/tandem-core/src/reducer.rs:279-289 | every run: no object before `h_open`, `h_open` at least 1,008 blocks after INIT, founding iff created before `h_close` |
| `RunTheorems.IndexAgreement` | crates/tandem-core/src/reducer.rs:450-463 | `active` is the bijection between active objects and outpoints, keys have vout 1, the zero outpoint never matches, its size is the active counter, and a lookup returns the active object sitting at that outpoint |
| `RunTheorems.CarriersAreBacked` | crates/tandem-core/src/types.rs:767-781 | every active outpoint is an unspent 20,000-sat output paying its object's keys; locked value is 20,000 times the active counter |
| `RunTheorems.OneStepPerBlock` | crates/tandem-core/src/reducer.rs:861-871 | `create_height + state_seq` never exceeds the tip height |
| `RunTheorems.LineageIsLinear` | crates/tandem-core/src/reducer.rs:952-1041 | the log of a faithful run is one chain per object ending in the stored object, and `all_objects - active_objects` counts the ending events |
| `RunTheorems.EveryEventFollows` | crates/tandem-core/src/reducer.rs:812-826 | each event consumes its predecessor's successor, counted steps raise the sequence by one in a later block, a refund falls at least 52,560 blocks after its carrier |
| `RunTheorems.EndsAreFrozen` | crates/tandem-core/src/reducer.rs:1247-1259 | between any two states of a run identity fields never change and an ended object never changes again |
| `RunTheorems.FoundingIsConstant` | crates/tandem-core/src/reducer.rs:922-922 | the founding objects and `founding_created` never change once the next height is at or past `h_close` |
| `Founding.FoundingCountsEvents` | crates/tandem-core/src/types.rs:767-781 | `founding_created` is the number of logged CREATE events below `h_close` |
| `Roots.Merkle` | crates/tandem-core/src/roots.rs:121-139 | the padding loop terminates and equals the recursive Merkle root |
| `Commitments.TreeBinding` | crates/tandem-core/src/roots.rs:121-139 | equal tree hashes under a node tag mean equal trees unless a hashed string collides |
| `Commitments.BuildInjective` | crates/tandem-core/src/roots.rs:121-139 | odd-leaf duplication loses nothing: distinct leaves of any two lengths building the same tree are the same list |
| `Commitments.EventPreimageInjective` | crates/tandem-core/src/roots.rs:6-29 | the fixed-width event encoding is injective |
| `Layouts.DecodeEncoded` | crates/tandem-core/src/roots.rs:6-29 | round trip: a decoder by byte offset and code number reads every event back from its 371-byte leaf |
| `Layouts.ObjectLayout` | crates/tandem-core/src/roots.rs:48-72 | where each field of an object leaf stands, the outpoint hidden once the object has ended |
| `Layouts.BlockRootLayout` | crates/tandem-core/src/roots.rs:98-119 | where each field of a chained-root preimage stands |
| `Layouts.KeyLayouts` | crates/tandem-core/src/types.rs:312-348 | the exact preimages of namespaces, object keys, Merkle nodes and empty roots |
| `Commitments.EventRootBinding` | crates/tandem-core/src/roots.rs:32-45 | two strictly ordered event lists of any lengths with equal roots are equal |
| `ChainBinding.ObjectPreimageInjective` | crates/tandem-core/src/roots.rs:48-72 | object leaves determine the object, `genesis` included through its key |
| `ChainBinding.ObjectRootBinding` | crates/tandem-core/src/roots.rs:75-94 | coherent object maps of one binding with equal roots are equal |
| `RunTheorems.ObjectRootBindsState` | crates/tandem-core/src/roots.rs:75-94 | reachable states with equal object roots have identical `objects` and `active` maps |
| `ChainBinding.ChainedRootBinding` | crates/tandem-core/src/roots.rs:98-119 | two runs under any bindings with equal chained roots have the same binding, length, and per-height hash, events, roots, counters and objects |
| `ChainBinding.SameHistorySameMaps` | crates/tandem-core/src/reducer.rs:154-168 | such runs also end with the same `objects` and `active` maps |
| `FinalStates.ChainedRootBindsState` | crates/tandem-core/src/types.rs:729-747 | equal chained roots make the final states equal in every field but the phase heights, which no commitment carries; equal outright iff the opening heights are, and always when the INIT transactions have the same outputs |
| `MerkleLevels.VerifyMerkleLevels` | crates/tandem-cli/src/main.rs:365-394 | accepts iff each level is the pair hashes of the one before and the last starts with the expected root |
| `MerkleLevels.CheckerAgreesWithLoop` | crates/tandem-cli/src/main.rs:365-394 | when only the last level has width one, acceptance iff the levels are the loop's vectors and the root is the expected one |
| `MerkleLevels.WidthConditionIsNeeded` | crates/tandem-cli/src/main.rs:365-394 | an accepted list that is not the loop's, when a width-one level comes earlier |
| `ReplayCommand.ReplayBlocks` | crates/tandem-cli/src/main.rs:482-512 | succeeds iff the blocks replay and every expected root tuple is the clean one, and then reports exactly the journal's roots, counts and final state |
| `Database.Store.ApplyBlock` | crates/tandem-verifier/src/store.rs:78-152 | statement by statement equal to the specified transaction; all tables move or none do, under each fault |
| `Database.Store.RollbackTip` | crates/tandem-verifier/src/store.rs:155-194 | equal to the specified rollback, with its result and the tables under each fault |
| `Database.Store.Open` | crates/tandem-verifier/src/store.rs:41-67 | binds an empty database, loads a bound one, refuses another deployment unchanged, with its result and the tables under each fault of its commit |
| `Database.InsertEventRows` | crates/tandem-verifier/src/store.rs:125-144 | the insertion loop equals the specification and stops at the first violated constraint |
| `Database.RebuildObjects` | crates/tandem-verifier/src/store.rs:365-389 | the delete-and-reinsert loop equals the specification |
| `PathIndependence.SyncExact` | crates/tandem-verifier/src/store.rs:365-389 | for every reachable state the projection rebuild succeeds and holds exactly one row per object |
| `PathIndependence.CommitExact` | crates/tandem-verifier/src/store.rs:78-152 | a commit succeeds iff the guard saw the state the block was reduced from, the height fits a bigint and the hash is new; event and object keys never clash; a success extends the mirrored branch by the block |
| `PathIndependence.RollbackExact` | crates/tandem-verifier/src/store.rs:155-194 | a rollback always finds a matching journal entry and leaves exactly the tables of the branch without its tip |
| `PathIndependence.JournalAt` | crates/tandem-core/src/reducer.rs:154-185 | every journal entry is the delta of its block on the clean replay of its own prefix |
| `Histories.PathIndependent` | crates/tandem-verifier/src/store.rs:78-194 | after any history of submissions from any client state, faults, rollbacks and reopenings, every table is that of a clean replay of the surviving branch |
| `Histories.SameBranchSameTables` | crates/tandem-verifier/src/store.rs:78-194 | two histories with the same surviving branch hold the same canonical rows |
| `Histories.JournalRowsAreClean` | crates/tandem-verifier/src/store.rs:100-123 | every stored row's `before`, events, event root, object root, chained root and counters are those of its own prefix |
| `Histories.RollbackNeverFails` | crates/tandem-verifier/src/store.rs:163-175 | no history leads to a missing or mismatched journal entry |
| `Histories.EveryBlockAccountedFor` | crates/tandem-verifier/src/store.rs:181-193 | each committed block is on the branch or in `reorg_journal`, with multiplicity |
| `Histories.CarrierQueryAgrees` | crates/tandem-verifier/src/store.rs:237-247 | on a faithful branch the SQL carrier query and the in-memory index agree on every outpoint |
| `Histories.ProjectionIsCurrent` | crates/tandem-verifier/src/store.rs:365-389 | the object projection holds exactly the current objects, every column read off the stored object |
| `Worker.RollbackShrinks` | crates/tandem-verifier/src/ingest.rs:143-167 | a rollback that continues the loop removes a journal row, so the loop terminates |
| `Ingestion.Coordinator.ReconcileReorg` | crates/tandem-verifier/src/ingest.rs:143-167 | the rollback loop terminates and equals its specification |
| `Ingestion.Coordinator.CatchUp` | crates/tandem-verifier/src/ingest.rs:115-132 | the height loop equals its specification, including the reload or restore after a failed commit |
| `Ingestion.Coordinator.RunOnce` | crates/tandem-verifier/src/ingest.rs:86-141 | a whole pass equals its specification |
| `WorkerRuns.ReconcileKeeps` | crates/tandem-verifier/src/ingest.rs:143-167 | whatever the source answers and whichever rollback faults strike, the store still mirrors a branch, the `tip hash` expects never fire, and the only store error is a lost commit |
| `WorkerRuns.CatchUpKeeps` | crates/tandem-verifier/src/ingest.rs:115-132 | the same for catching up; a failed commit whose reload works leaves worker and store in agreement |
| `WorkerRuns.LifeKeeps` | crates/tandem-verifier/src/ingest.rs:58-141 | over every sequence of passes and restarts the worker is the replay of the stored branch, of its parent, or of an extension, and agrees with the store while no acknowledgement is lost for good |
| `Convergence.Aligned` | crates/tandem-verifier/src/ingest.rs:148-155 | a branch whose tip is on the node's chain is the chain's own segment from the INIT block |
| `Convergence.PassConverges` | crates/tandem-verifier/src/ingest.rs:86-167 | from any reachable worker and store, a failure-free pass succeeds at the clean replay from the INIT height to the best height (or the fresh state without INIT) iff the worker agrees with the store, or has a tip off the chain while the store has one to roll back |
| `Convergence.LifeThenPass` | crates/tandem-verifier/src/ingest.rs:58-141 | that condition is exact at the end of every life |
| `Convergence.UnsyncedCatchUp` | crates/tandem-verifier/src/store.rs:95-98 | a worker that disagrees with the store never changes the store while catching up, and a pass it completes changes nothing |
| `Recovery.ResyncsOtherwise` | crates/tandem-verifier/src/ingest.rs:119-129 | a reachable world that neither converges nor is stuck is stopped by the compare-and-swap guard and reloads into agreement |
| `Recovery.StuckIsUnchanged` | crates/tandem-verifier/src/ingest.rs:86-167 | a pass in a stuck world changes nothing under any faults, and reports success unless the worker's tip is off the chain |
| `Recovery.StuckForever` | crates/tandem-verifier/src/ingest.rs:58-141 | the same for every number of passes |
| `Recovery.RetryConverges` | crates/tandem-verifier/src/ingest.rs:58-141 | from any reachable worker and store, two or more failure-free passes end at the clean replay iff the world was not stuck |
| `Recovery.LifeThenRetry` | crates/tandem-verifier/src/ingest.rs:58-141 | that condition is exact at the end of every life |
| `Recovery.RestartRecovers` | crates/tandem-verifier/src/store.rs:41-67 | after a restart from any reachable world, stuck or not, one failure-free pass converges |
| `Recovery.LostRollbackStrands` | crates/tandem-verifier/src/ingest.rs:157-161 | an unacknowledged rollback of the store's only block leaves every later pass failing, wherever the worker's tip off the chain is |
| `Recovery.FlipBackHides` | crates/tandem-verifier/src/ingest.rs:148-161 | an unacknowledged rollback followed by the node returning to the old tip leaves every pass succeeding over a store without that block |
| `Recovery.LostInitHides` | crates/tandem-verifier/src/ingest.rs:122-129 | an unacknowledged INIT commit with a failed reload, followed by the loss of INIT, leaves every pass succeeding over a store that keeps the abandoned block |

## Left out

- JSON-RPC, deserialization and ECDSA checks (`rpc.rs`): the block source is a parameter and `signatures_valid` a field.
- Ed25519 signing and canonical JSON (`signer.rs`), HTTP routing (`api.rs`), startup, timers and configuration.
- Serde, hex and JSONB round trips and display-order hashes: stored values are the values themselves.
- The mempool overlay and worker health: neither feeds back into the state; a failing overlay update would only turn a finished pass into an error.
- SQL text, locks and isolation: each transaction is atomic and serialized; release-identity columns and timestamps are not stored.
- The other read queries (`roots_at`, `object`, `events`, `invalid_events`, `reorgs`, `stats`): plain reads of tables whose contents are characterised above.
- The rest of the command line: file reading, fixture JSON and hash comparisons.
- The `prefix_complete` flag of a marker candidate, which every detected candidate has set.
- The inner mathematics of SHA256, hash160 and secp256k1.
- Blocks with more than 2^32 - 1 inputs or outputs in one transaction: excluded by `Reducer.BlockFits`, as the event encoding and the block-size limit do.
- Validators.AcceptedIsJustified: omits signatures, revealed keys, fee split and change, which `Rules.ReasonIsLeastBrokenRule` states in full.
- Convergence.PassConverges: block hashes are assumed to identify blocks among the stored branch and the node's chain, and INIT to confirm at most once on that chain.
