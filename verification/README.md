# VerifierLab, verified

VerifierLab runs adversarial campaigns against reward verifiers on one machine: it meters
what its workers spend, stores every artifact under the hash of its canonical JSON,
minimizes the exploits it finds, and takes a run through freeze, adjudication and label
release. This project models the parts of it that carry state across calls, processes and
crashes, and proves what they promise over every input, every interleaving and every
crash point. `dafny verify dfyconfig.toml` checks all of it.

How the parts fit together:

- `Ledger`, `LedgerLaws`: the metering ledger. A class whose methods are proved equal to
  functions on its abstract state, and laws over every run of those calls, raising calls
  included.
- `Launcher`, `LauncherLaws`, `LauncherCrash`, `LauncherCapacity`, `LocalLauncher`: the
  local launcher. Each unit is a reserving segment and a settling segment around one await;
  a run is any interleaving of segments of all units, cancellations and crashes, where a
  crash keeps any prefix of the durable writes of the segment it interrupts.
  `LocalLauncher` is the class whose methods are those segments.
- `Utf8`, `JsonNumbers`, `CanonicalJson`, `CanonicalOrder`, `JsonText`, `ContentStore`:
  canonical JSON from Python value to bytes and back, what the order of dicts can decide,
  and the store built on it.
- `DeltaDebug`, `Exploits`: ddmin, causal analysis and the exploit report. An oracle is
  told the number of the call, so it may answer differently each time; a law says where it
  needs an oracle that does not.
- `BeamHeap`, `BeamHistory`, `BeamSearch`, `SchemaMigration`: heapq as a list heap, the
  beam against everything ever pushed, checkpoints of both schema versions, and the
  migration registry.
- `HashChain`, `Chronology`: hash-linked logs, and predictions and outcomes filed through one.
- `RunProtocol`, `RunLaws`, `RunTheorems`, `Interruptions`, `Adjudication`, `AttackPlane`,
  `RunDirectory`: freeze, adjudicate and release as sequences of durable writes that may
  stop after any of them. `RunDirectory` is the class that makes those writes.
- `LabelVault`, `TabularQ`, `Splits`: label access, Q-learning over real numbers, and split
  assignment through a shuffled order.

Hashes, MACs and the cipher are parameters. A theorem that needs one of them to be
one-to-one says so in its `requires`, or ends in "or these two contents collide".

What the proofs found, where the code does less than its documentation says. Each is
a theorem below, with the exact condition where it is a question of one:

- A `BudgetExceeded` raised while a worker's events are merged releases the same voucher
  twice (`LauncherLaws.AbortReleasesOnceExactly`).
- The query charged to force a raise can push spent plus reserved past the limit when the
  capacity is gone only because of reservations (`LauncherLaws.ReservationOvercommitsExactly`,
  with a run in `LauncherCapacity.ForcedQueryPassesTheLimit`). So can the snapshots in the
  middle of settling a worker that sent no events
  (`LauncherCapacity.RebuiltSnapshotsExactly`, with a run in
  `LauncherCapacity.InterruptedRebuildPassesTheLimit`).
- `restore_spend` without events passes `reconcile` only when no whole counter was restored
  and the two float counters are within its tolerance of zero
  (`LedgerLaws.RestoredSpendReconciles`), and `merge_events` accepts negative amounts
  (`LedgerLaws.MergeRefundsNothing`).
- A str key and another key with the same text tie in `canonicalize`'s sort, so insertion
  order can choose the error: exactly when both are at the least text that offends, and the
  str key's own value fails with another error (`CanonicalOrder.ReorderingChoosesExactly`;
  `CanonicalJson.TiedKeysChooseTheError` shows a dict).
- The chronology's own check cannot see rows cut off the end
  (`HashChain.TruncationVerifies`).
- A freeze that stops between its manifest and its seal can never be sealed
  (`Interruptions.FreezeLostExactly`, `RunTheorems.StrandedForever`). One that stops between
  its seal and its lock is never compared with its work units again: units may be added, and
  its release still gets a receipt (`AttackPlane.ReleaseBoundExactly`,
  `AttackPlane.CutBeforeLockGetsReceipt`).
- The vouchers in flight at a crash stay reserved for every later coordinator
  (`LauncherCapacity.LostForGood`).
- An adjudication that is run again seals other commitments exactly when some unit has
  neither a nonce nor an id (`Interruptions.SameSealsExactly`).
- A beam checkpoint without a version is restored as version 1 but refused by
  `migrate_artifact` (`BeamSearch.RestoresAgreeExactly`).

## Model

| member | source | states |
|---|---|---|
| Ledger.ProvenanceLedger.Add | src/verifierlab/budgets/ledger.py:164-247 | each `add_*` under either policy: what is charged, logged, flagged, written and raised, as one function of the state before |
| Ledger.ProvenanceLedger.Merge | src/verifierlab/budgets/ledger.py:249-326 | a worker's batch, the release of its voucher and the overrun checks, in that order, with the snapshots they write |
| Ledger.ProvenanceLedger.RaiseIfOverAfterMerge | src/verifierlab/budgets/ledger.py:328-360 | one overrun per exceeded dimension in the fixed order; under STOP the first of them is raised |
| Ledger.ProvenanceLedger.Reserve | src/verifierlab/budgets/ledger.py:97-140 | the voucher granted for a request and a count of pending workers, and the reservation it adds |
| Ledger.ProvenanceLedger.Release | src/verifierlab/budgets/ledger.py:142-157 | gives a voucher back, never below zero reserved |
| Ledger.ProvenanceLedger.LoadPersisted | src/verifierlab/budgets/ledger.py:390-407 | brings back counters, reservations and log from the last snapshot |
| Ledger.ProvenanceLedger.Reconcile | src/verifierlab/budgets/ledger.py:479-535 | the mismatches listed are exactly the dimensions whose counter the log does not explain |
| LedgerLaws.RunReconciles | src/verifierlab/budgets/ledger.py:479-535 | over every run of calls that records no charge by hand the log explains the counters to the last digit, in memory and in every snapshot ever written |
| LedgerLaws.RunConsistentExactly | src/verifierlab/budgets/ledger.py:479-535 | after any run of calls `reconcile` finds nothing exactly when, in every dimension, the drift at the start and the charges recorded by hand cancel to within its tolerance |
| LedgerLaws.RecordConsistentExactly | src/verifierlab/budgets/ledger.py:159-162 | a row recorded by hand keeps `reconcile` silent exactly when it adds no drift beyond the tolerance of 1e-9 on the two float counters |
| LedgerLaws.RestoredSpendReconciles | src/verifierlab/budgets/ledger.py:409-439 | counters restored without events pass `reconcile` exactly when the whole ones are zero and the two floats within its tolerance of zero |
| LedgerLaws.RunNeverRefunds | src/verifierlab/budgets/ledger.py:362-383 | counters never fall along a run's snapshots, and the last snapshot mirrors the memory |
| LedgerLaws.MergeRefundsNothing | src/verifierlab/budgets/ledger.py:262-300 | a merge lowers no counter exactly when its amounts sum to at least zero in every dimension |
| LedgerLaws.MergeAllTotals | src/verifierlab/budgets/ledger.py:249-326 | after any merges each counter is what it was plus the worker totals |
| LedgerLaws.MergeOrderIrrelevant | src/verifierlab/budgets/ledger.py:249-326 | order, batching and releases of worker logs do not change the final counters |
| LedgerLaws.MergeChargesAllThenStops | src/verifierlab/budgets/ledger.py:249-360 | a merge charges everything even when it raises, records one overrun per exceeded limit, and raises exactly under STOP with a limit exceeded |
| LedgerLaws.StopOvershootsOnce | src/verifierlab/budgets/ledger.py:226-247 | under STOP a run of adds passes a limit at most once, by less than the amount of that add |
| LedgerLaws.UnitAddsStayWithin | src/verifierlab/budgets/ledger.py:226-247 | unit adds never pass a whole limit |
| LocalLauncher.LocalLauncher.BeginUnit | src/verifierlab/execution/local.py:258-308 | the reserving segment: cancelled, already finished, probe, voucher, with its disk writes |
| LocalLauncher.LocalLauncher.SettleUnit | src/verifierlab/execution/local.py:314-419 | the settling segment: merge or rebuild the meters, release, persist, write the unit file, or the BudgetExceeded handler |
| LocalLauncher.LocalLauncher.FailUnit | src/verifierlab/execution/local.py:420-446 | the segment after a worker failure |
| LocalLauncher.LocalLauncher.Cancel | src/verifierlab/execution/local.py:197-209 | cancels one handle, or all that are pending or running |
| LauncherLaws.NeverOverCommits | src/verifierlab/execution/local.py:236-485 | over every interleaving, spent plus reserved queries stay within the limit; up to the first BudgetExceeded the reservations are exactly the vouchers in flight; at the end they are back where they started |
| LauncherLaws.NobodyStarves | src/verifierlab/execution/local.py:279-302 | with capacity for the pending units every voucher is worth at least one query, whatever the order, and the forced query is never charged |
| LauncherLaws.FairShare | src/verifierlab/budgets/ledger.py:121-130 | the share of the remaining capacity leaves a query for each unit still to reserve |
| LauncherLaws.FreshStartIsSound | src/verifierlab/execution/local.py:139-164 | the starting states the two theorems above begin from |
| LauncherLaws.ReservationOvercommitsExactly | src/verifierlab/execution/local.py:289-294 | when the forced query breaks the limit, exactly |
| LauncherLaws.AbortReleasesOnceExactly | src/verifierlab/execution/local.py:410-419 | when the BudgetExceeded handler leaves the right reservation, exactly |
| LauncherLaws.DoubleReleaseHappens | src/verifierlab/execution/local.py:410-419 | two vouchers, one overrun, no reservation left |
| LauncherLaws.SettleReserved | src/verifierlab/execution/local.py:314-377 | which reservation a settlement leaves, raising or not |
| LauncherLaws.SettleCharges | src/verifierlab/execution/local.py:314-377 | the ledger calls of a settlement charge what the result claims, in each of the six dimensions, with or without events |
| LauncherCrash.CrashNeverRefunds | src/verifierlab/execution/local.py:378-392 | over every run with crashes the disk reconciles, no counter falls, and the unit files never claim more of any dimension than the ledger on the disk shows |
| LauncherCrash.CrashBetweenSegmentsLosesNothing | src/verifierlab/execution/local.py:139-164 | a crash between segments leaves the same counters, reservations, log and available capacity |
| LauncherCapacity.CrashFreesNothing | src/verifierlab/execution/local.py:139-164 | over every run with crashes, a crash inside a segment leaves the next coordinator at most the capacity there was before the segment, or at most what the whole segment would have left |
| LauncherCapacity.NeverOverCommitsAcrossCrashes | src/verifierlab/execution/local.py:236-485 | with crashes, spent plus reserved queries stay within the limit in memory and on the disk, and each coordinator reserves what it found on the disk plus its vouchers |
| LauncherCapacity.VouchersLost | src/verifierlab/execution/local.py:139-164 | over runs without a BudgetExceeded each crash leaves at least the vouchers of the units it does not interrupt reserved for good, and exactly the vouchers in flight if it falls between segments |
| LauncherCapacity.LostForGood | src/verifierlab/execution/local.py:139-164 | no later work gets that capacity back |
| LauncherCrash.FinishedUnitsNeverRunAgain | src/verifierlab/execution/local.py:214-225 | a unit with a result file is never dispatched or filed again |
| LauncherCrash.ConsistentWhenReconciled | src/verifierlab/execution/local.py:378-392 | the consistency check before a unit file is written never fires on a reconciled ledger |
| LauncherCapacity.MergedSnapshotsWithin | src/verifierlab/execution/local.py:314-345 | the snapshots of a merge stay within the limit |
| LauncherCapacity.RebuiltSnapshotsExactly | src/verifierlab/execution/local.py:346-377 | when every snapshot of a rebuild stays within the limit, exactly |
| LauncherCapacity.ForcedQueryPassesTheLimit | src/verifierlab/execution/local.py:289-294 | three units on a limit of two queries: a run that ends with three spent or reserved |
| LauncherCapacity.InterruptedRebuildPassesTheLimit | src/verifierlab/execution/local.py:346-377 | a crash inside a rebuild after which the next coordinator finds three queries spent or reserved on a limit of two |
| Utf8.Utf8RoundTrip | src/verifierlab/artifacts/canonical.py:58-58 | what encodes decodes to itself |
| Utf8.EncodeFailsExactly | src/verifierlab/artifacts/canonical.py:58-58 | encoding fails exactly on a surrogate |
| JsonNumbers.IntRoundTrip | src/verifierlab/artifacts/canonical.py:51-57 | a printed integer reads back as itself, whatever cannot continue it follows |
| JsonNumbers.FloatRoundTrip | src/verifierlab/artifacts/canonical.py:51-57 | a float printed by repr, fixed or with an exponent, reads back as that float and never as an integer |
| CanonicalJson.SortIsSorted | src/verifierlab/artifacts/canonical.py:38-38 | entries sort by the code points of str(key) |
| CanonicalJson.CanonicalizeIsCanonical | src/verifierlab/artifacts/canonical.py:14-43 | every object of the result has strictly increasing keys, at every depth |
| CanonicalJson.InsertionOrderIgnored | src/verifierlab/artifacts/canonical.py:14-43 | the order dicts were filled in decides neither acceptance nor the result |
| CanonicalOrder.NoTiesNoChoice | src/verifierlab/artifacts/canonical.py:14-43 | where no str key shares its text with a key that is not a str, the order decides nothing, the error included |
| CanonicalOrder.ReorderingChoosesExactly | src/verifierlab/artifacts/canonical.py:38-41 | filling one dict in another order changes what is raised exactly when, at the least key text that offends, there are both a key that is not a str and a str key whose value fails with another error |
| CanonicalOrder.OrderChoosesExactly | src/verifierlab/artifacts/canonical.py:14-43 | at every depth, which errors some order of the dicts inside a value brings out, exactly |
| CanonicalJson.SameStructureSameValue | src/verifierlab/artifacts/canonical.py:14-43 | values with one canonical structure are the same up to list against tuple and dict order |
| CanonicalJson.CanonicalIsSettled | src/verifierlab/artifacts/canonical.py:14-43 | canonicalizing what was canonical changes nothing |
| JsonText.StringRoundTrip | src/verifierlab/artifacts/canonical.py:51-57 | every text, escapes included, reads back from its literal |
| JsonText.ReadRendered | src/verifierlab/artifacts/canonical.py:46-58 | the reader undoes the printer on every canonical value, with anything after it that cannot continue a number |
| JsonText.DumpsRoundTrip | src/verifierlab/artifacts/canonical.py:46-58 | the bytes read back as `canonicalize(v)` |
| JsonText.SameBytesExactly | src/verifierlab/artifacts/canonical.py:46-58 | two accepted values have the same bytes exactly when they have the same content |
| JsonText.DumpsIsStable | src/verifierlab/artifacts/canonical.py:46-58 | loading and dumping again gives the same bytes |
| JsonText.DumpsFailsExactly | src/verifierlab/artifacts/canonical.py:46-58 | a canonical value fails to encode exactly when a string or key has a lone surrogate |
| ContentStore.ContentAddressedStore.PutBytes | src/verifierlab/artifacts/cas.py:38-69 | names content by its digest and leaves a taken name alone |
| ContentStore.ContentAddressedStore.GetBytes | src/verifierlab/artifacts/cas.py:76-84 | bad digest, missing object, integrity failure, or content that hashes to the name |
| ContentStore.ContentAddressedStore.PutJson | src/verifierlab/artifacts/cas.py:71-74 | stores the canonical bytes, or raises and stores nothing |
| ContentStore.ContentAddressedStore.GetJson | src/verifierlab/artifacts/cas.py:86-88 | the structure read from verified bytes |
| ContentStore.FetchIsStable | src/verifierlab/artifacts/cas.py:38-84 | an answer once given is given after any later puts, and hashes to its name |
| ContentStore.PutsOnlyAdd | src/verifierlab/artifacts/cas.py:38-69 | no run of puts changes or removes an object |
| ContentStore.PutAllFetches | src/verifierlab/artifacts/cas.py:38-84 | after any puts each content is fetched back, or a collision is in the store |
| ContentStore.OnlyWhatWasPut | src/verifierlab/artifacts/cas.py:38-69 | nothing else is stored |
| ContentStore.JsonRoundTrip | src/verifierlab/artifacts/cas.py:71-88 | `get_json(put_json(v)) == canonicalize(v)` |
| ContentStore.DigestIsStable | src/verifierlab/artifacts/cas.py:71-88 | fetching a JSON object and putting it back gives the same name |
| ContentStore.DigestIdentifies | src/verifierlab/artifacts/canonical.py:66-68 | digests agree exactly for the same content, or a collision |
| DeltaDebug.Ddmin | src/verifierlab/minimization/delta.py:20-50 | terminates for every oracle within 1 + L(L-1)ceil(log2 L) calls on a selection of the steps; for a steady one the result is interesting, non-empty and 1-minimal |
| DeltaDebug.CausalBranchAnalysis | src/verifierlab/minimization/delta.py:53-69 | marks exactly the steps whose removal loses the failure |
| DeltaDebug.MinimalIsAllNecessary | src/verifierlab/minimization/delta.py:53-69 | on a 1-minimal list it marks every step |
| DeltaDebug.NecessaryStepsSurvive | src/verifierlab/minimization/delta.py:101-153 | for a monotone failure, steps marked on the original survive minimization |
| Exploits.HoldsWithoutStatus | src/verifierlab/exploits/dimensions.py:94-121 | a predicate that holds for an evaluated status holds without one, and only on an accepted trajectory |
| Exploits.HoldsOnFullStatus | src/verifierlab/exploits/dimensions.py:94-121 | with every dimension evaluated it holds exactly when a recorded violation is violated again |
| Exploits.MinimizeExploit | src/verifierlab/minimization/delta.py:85-163 | an interesting original always gets a report that says its failure is preserved, by a minimal trajectory |
| BeamHeap.PushKeepsHeap | src/verifierlab/attacks/inference.py:233-234 | heappush keeps the heap property, comparing only entries with different counters |
| BeamHeap.PopKeepsHeap | src/verifierlab/attacks/inference.py:240-241 | heappop keeps it too |
| BeamHeap.RootIsLeast | src/verifierlab/attacks/inference.py:170-172 | what heappop removes is the least entry by score, then counter |
| BeamHeap.RebuildFixesHeaps | src/verifierlab/attacks/inference.py:288-294 | pushing a heap's list back in order rebuilds the very same list |
| BeamHistory.LearnKeepsBest | src/verifierlab/attacks/inference.py:216-261 | after any rounds of pushing and pruning the beam is a heap of exactly the best k of everything ever pushed |
| BeamHistory.BatchingIrrelevant | src/verifierlab/attacks/inference.py:216-261 | how the pushes were cut into rounds does not matter |
| BeamHistory.DroppedAreBelow | src/verifierlab/attacks/inference.py:240-241 | every entry dropped is below every entry kept, and the beam is full |
| BeamSearch.BeamSearch.Initialize | src/verifierlab/attacks/inference.py:176-189 | seeds are pushed at score zero, not pruned |
| BeamSearch.BeamSearch.ProposeWithBroker | src/verifierlab/attacks/inference.py:216-248 | the proposal is the earliest best candidate; when learning, the beam is then the best of its history; an evaluation that raises leaves what was pushed; a negative width raises |
| BeamSearch.BeamSearch.Observe | src/verifierlab/attacks/inference.py:250-261 | the rewarded score is pushed for the last action and the beam pruned |
| BeamSearch.BeamSearch.PruneBeam | src/verifierlab/attacks/inference.py:240-241 | pruning leaves the best of the history, or fails exactly for a negative width |
| BeamSearch.BeamSearch.Checkpoint | src/verifierlab/attacks/inference.py:263-276 | whatever learner restores it ends with every saved field of this one |
| BeamSearch.BeamSearch.Restore | src/verifierlab/attacks/inference.py:278-299 | an unknown version changes nothing; two tied actions raise halfway, with the numbers replaced; otherwise every saved field and the stored entries pushed in order |
| BeamHeap.ComparableRebuilds | src/verifierlab/attacks/inference.py:287-294 | without two different actions under one score and counter no push raises, and the heap holds just the stored entries |
| BeamSearch.CheckpointRoundTrip | src/verifierlab/attacks/inference.py:263-299 | `restore(checkpoint())` gives back every saved field and the identical heap list |
| BeamSearch.RestoresAgreeExactly | src/verifierlab/artifacts/schema_registry.py:122-236 | restoring directly and migrating with `migrate_artifact` first agree on what they accept and what it becomes exactly when the checkpoint names its version, or cannot be restored at all |
| SchemaMigration.MigrateArtifact | src/verifierlab/artifacts/schema_registry.py:187-236 | the loop over registered steps with every error it can raise |
| SchemaMigration.MigrationKeepsMaturity | src/verifierlab/artifacts/schema_registry.py:108-119 | for any table of migrations, success reaches the target version and no maturity label is changed, added or dropped |
| SchemaMigration.ShippedMigratesExactly | src/verifierlab/artifacts/schema_registry.py:180-236 | when the shipped migrations succeed, exactly; the guard of 16 never fires |
| HashChain.AppendKeepsVerified | src/verifierlab/assurance/deployment.py:64-103 | appending at the tip keeps a log verified |
| HashChain.TipDeterminesLog | src/verifierlab/assurance/deployment.py:64-127 | verified logs with the same tip are equal, or show a collision or a preimage of the genesis value |
| HashChain.TruncationVerifies | src/verifierlab/assurance/deployment.py:108-127 | a log cut at the end still verifies |
| HashChain.AppendAfterTruncationBreaks | src/verifierlab/assurance/deployment.py:58-74 | a writer that still holds the old tip breaks the shortened log |
| HashChain.ReadEvents | src/verifierlab/assurance/deployment.py:108-127 | raises exactly on an unverified log, at its first bad row |
| HashChain.VerifyAuditChain | src/verifierlab/labels/vault.py:342-354 | the list of mismatches is empty exactly for a verified log |
| Chronology.DeploymentRoot.RegisterPrediction | src/verifierlab/assurance/deployment.py:277-336 | refuses a prediction with an outcome, else appends and then validates and files |
| Chronology.DeploymentRoot.IngestOutcome | src/verifierlab/assurance/deployment.py:339-391 | appends, checks the order and the timestamps, then validates and files |
| Chronology.RunKeepsSound | src/verifierlab/assurance/deployment.py:277-391 | over every sequence of calls, raising ones included, each filed outcome stands after its prediction by last index, and the chain verifies |
| Chronology.CallsExactly | src/verifierlab/assurance/deployment.py:277-391 | exactly which calls append an event and which succeed, in any sound state |
| Chronology.IngestRaisesOnly | src/verifierlab/assurance/deployment.py:135-151 | the order checks of an ingest never fail in such a run |
| Chronology.MatchOutcomes | src/verifierlab/assurance/deployment.py:438-456 | the report skips no pair, and matched plus censored are the predictions with an outcome |
| RunDirectory.RunDirectory.WriteTipIndex | src/verifierlab/campaigns/lifecycle.py:101-173 | the transition guard, then record, index and copy in that order |
| RunDirectory.RunDirectory.AttackRun | src/verifierlab/campaigns/engine.py:316-396 | an attack run files the units that have no file yet and leaves the others; its tip starts a new chain |
| RunDirectory.RunDirectory.FreezeRun | src/verifierlab/campaigns/engine.py:445-683 | the writes of a freeze, in order, and what it refuses |
| RunDirectory.RunDirectory.AdjudicateRun | src/verifierlab/labels/adjudication_service.py:52-187 | the writes of an adjudication, unit by unit, and what it refuses |
| RunDirectory.RunDirectory.ReleaseLabels | src/verifierlab/campaigns/engine.py:711-838 | the writes of a release, and what it refuses |
| RunTheorems.RunKeepsInv | src/verifierlab/campaigns/engine.py:445-790 | over every run, each operation cut after any write: lifecycle at or past freeze means FROZEN, RELEASED means FROZEN and at least adjudicated, the audit log verifies, and every tip names the tip before it and resolves in the store |
| RunTheorems.LabelsReleasedExactly | src/verifierlab/campaigns/lifecycle.py:83-98 | `labels_released` holds exactly when RELEASED exists |
| RunTheorems.RunIsOnward | src/verifierlab/labels/vault.py:177-181 | after a release no run changes the commitments or labels, and from freeze on the tip chain only grows |
| RunTheorems.SealAndLockStay | src/verifierlab/campaigns/engine.py:448-450 | once the manifest says frozen, no run of cut operations adds or changes the seal or the attack-plane lock |
| AttackPlane.UnitsStay | src/verifierlab/execution/local.py:211-230 | no run of cut operations changes or removes a work unit that is there; units are only added |
| RunTheorems.StrandedForever | src/verifierlab/campaigns/engine.py:448-450 | a run frozen but not sealed is never sealed and gets no receipt |
| AttackPlane.ReleaseBoundExactly | src/verifierlab/campaigns/engine.py:669-732 | over every run from an empty directory, a release that succeeds has the work-unit tree of its freeze exactly when that freeze got as far as writing its lock |
| AttackPlane.CutBeforeLockGetsReceipt | src/verifierlab/campaigns/engine.py:669-838 | after a freeze cut between seal and lock, work units may be added and the release still succeeds with a receipt |
| Interruptions.FreezeLostExactly | src/verifierlab/campaigns/engine.py:456-667 | a freeze is stranded exactly when it stops between its manifest and its seal |
| Interruptions.SameSealsExactly | src/verifierlab/labels/adjudication_service.py:120-131 | two adjudications with different random draws seal the same commitments exactly when every unit has a nonce or an id |
| Interruptions.CrashedAdjudicationSealsTheSame | src/verifierlab/labels/adjudication_service.py:52-187 | an adjudication cut after any write and run again: before its manifest it seals the same and ends as if it had not been cut; from its manifest on it is refused, with everything sealed |
| Adjudication.AdjudicationSealsEveryUnit | src/verifierlab/labels/adjudication_service.py:96-151 | every unit with a trajectory ends with its commitment, its sealed label and its side file |
| Adjudication.ReleaseCopiesEveryUnit | src/verifierlab/campaigns/engine.py:737-759 | the release copies every adjudicated unit with its label |
| Adjudication.ProtocolCompletes | src/verifierlab/campaigns/engine.py:445-838 | freeze, adjudicate and release without interruption raise nowhere and end released, sealed and receipted, with three more tips on the chain |
| LabelVault.LabelVault.CommitLabel | src/verifierlab/labels/vault.py:154-239 | who may commit and when, what is written, and the audit row |
| LabelVault.LabelVault.FreezeVault | src/verifierlab/labels/vault.py:241-261 | freezing, idempotent and audited |
| LabelVault.LabelVault.ReleaseVault | src/verifierlab/labels/vault.py:263-285 | releasing, only after a freeze |
| LabelVault.LabelVault.GetLabel | src/verifierlab/labels/vault.py:287-319 | who may read and when, and the audit row of each denial and read |
| LabelVault.RunKeepsSound | src/verifierlab/labels/vault.py:127-135 | after any calls the audit log verifies and RELEASED means FROZEN |
| LabelVault.RunStaysSealed | src/verifierlab/labels/vault.py:204-221 | no calls write a label in the clear |
| LabelVault.LabelsAreFixed | src/verifierlab/labels/vault.py:177-181 | once released, or frozen with no adjudicator calling, the labels never change |
| LabelVault.ReadsWhatWasCommitted | src/verifierlab/labels/vault.py:287-319 | exactly which roles read a committed label after any calls that do not commit under its name again, and that they get what was committed, with its tier |
| TabularQ.TabularQTrainer.Train | src/verifierlab/attacks/rl.py:107-119 | one update, or a refusal when frozen |
| TabularQ.LearnedWithin | src/verifierlab/attacks/rl.py:107-119 | rewards within R keep every value within R / (1 - gamma), over any training |
| TabularQ.RepetitionLearns | src/verifierlab/attacks/rl.py:107-119 | k repetitions of one transition learn exactly r * (1 - (1 - alpha)^k) |
| TabularQ.TabularQTrainer.Evaluate | src/verifierlab/attacks/rl.py:162-171 | the first listed action with the best known key, else the first action |
| TabularQ.TabularQTrainer.Act | src/verifierlab/attacks/rl.py:94-105 | explores or exploits, with each way it can raise; frozen, it is `evaluate` |
| TabularQ.TabularQTrainer.Freeze | src/verifierlab/attacks/rl.py:157-160 | freezes and stops exploring |
| TabularQ.FreezeHoldsExactly | src/verifierlab/attacks/rl.py:67-175 | a frozen trainer stays frozen at its table throughout a run exactly when every call is a train, a freeze, or a restore of a frozen checkpoint of that table |
| TabularQ.TrainingRefusedExactly | src/verifierlab/attacks/rl.py:108-119 | no transition changes the table exactly when the trainer is frozen |
| TabularQ.TabularQTrainer.Initialize | src/verifierlab/attacks/rl.py:67-84 | sets parameters with their defaults, lists every operation with every amount and thaws, but keeps the table; the list is never empty |
| TabularQ.TabularQTrainer.Checkpoint | src/verifierlab/attacks/rl.py:125-134 | restoring it into any trainer gives back table, parameters and flag, and the actions if there are any |
| TabularQ.TabularQTrainer.Restore | src/verifierlab/attacks/rl.py:140-151 | replaces the table and the flag, and what else the checkpoint holds |
| Splits.SplitCounts | src/verifierlab/campaigns/splits.py:64-77 | counts sum to the units; each split but the last gets what it asks for as far as that is left |
| Splits.AssignSplitIndices | src/verifierlab/campaigns/splits.py:46-91 | each position is written once through the shuffled order, and every name gets exactly its total |
| Splits.MaterializeUnits | src/verifierlab/campaigns/splits.py:114-138 | the rows of the manifest, and under each name its ids in order |
| Splits.ViewsAgree | src/verifierlab/campaigns/splits.py:179-189 | for unique ids a unit is grouped under a split exactly when its lookup says so |
| Splits.SplitsPartition | src/verifierlab/campaigns/splits.py:114-131 | every id is in exactly one group |

## Left out

- Wall-clock budgets, timestamps, uuids and file order: parameters where a record needs them.
- Files, fsync, locks, process pools and the event loop: only the order of durable writes and
  their atomicity is kept; one append to a log with its tip counts as one write.
- The second write of each unit's result file, which adds its name in the store, and the
  launcher's checkpoint.json: a unit file is written once here.
- SHA-256, HMAC, AES-GCM and the keyring: parameters; no cryptographic property is proved.
- Aliasing of Python dicts and lists: an action, a trajectory or a payload is a value here.
- Aliases of dimension names and of worker result fields: a worker's result arrives parsed;
  a result so malformed that it raises in the middle of a settlement is not modelled.
- Ledger.ProvenanceLedger.RaiseIfOverAfterMerge: leaves out the last limit in the order,
  wall time, which needs a clock.
- LedgerLaws.MergeChargesAllThenStops: is about the six metered limits; a wall-time limit can
  also make a merge raise.
- LedgerLaws.RunNeverRefunds: claims that the disk mirrors the memory without the `stopped`
  flag, because an add sets that flag after its write.
- The worker's own metering and flush: taken as the assumption that it spends at most its
  voucher.
- Float rounding, infinities and NaN: a float in canonical JSON is its shortest decimal, and
  scores, budgets and Q-values are real numbers.
- JSON beyond the printer's output: the NaN and Infinity tokens, the limit on integer
  digits, and the recursion limit. `canonicalize` is modelled on exact built-in types.
- The `.meta.json` beside a stored object, and `put_model`.
- Mutation of actions and the brokerless `propose` of the beam: candidates are arbitrary.
- BeamSearch.BeamSearch.Restore: when two tied actions make it raise, does not say which
  part of the beam is then in place.
- BeamSearch.CheckpointRoundTrip: claims the saved fields only; the last proposed action is
  not in a checkpoint, so an observation right after a restore is filed under another one.
- Contents of the freeze seal bundle, the chronology evidence and the receipt: only the
  order of their writes, and the digest of the work units in the lock.
- Lifecycle states after label release: no code writes them; the transition table has them.
- Container backends, capability negotiation, registrations, custody, statistics, reports,
  the CLI and the exploit case builder: single-branch checks and plumbing.
- TabularQ.TabularQTrainer.Checkpoint: hands out a copy of the table, where the source hands
  out the live one; the generator's state is not modelled.
- Lower-casing and stripping of split names: the rules for tier and holdout come in as
  functions.
