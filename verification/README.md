# Verified model of intar's control and release logic

This project models the parts of the intar repository whose correctness spans many calls, crashes or concurrent
processes, and proves what every run of them keeps. It is written for Dafny 4.11; `dafny verify dfyconfig.toml`
checks all of it.

* **Host agent** (`DesiredState`, `Reconcile`, `ReconcileProofs`, `RestartProofs`, `HostRuns`, `Relay`,
  `ControlConnection`, `Drain`): how a desired state document is checked, cached and applied, how local VMs converge to
  it, what a restart finds, which terminal targets the relay may reach, and how the drain marker fences admissions.
* **Chunked images** (`ImageManifest`): the manifest checks and the identity hash of a sparse image.
* **Boot benchmark** (`SampleIds`, `BenchmarkPlan`, `PlanProofs`, `PlanCounts`, `PlanAcceptance`, `WorkloadIntervals`,
  `AcceptanceGate`, `Campaign`, `CampaignProofs`, `CampaignSessions`, `CampaignHost`): the randomised schedule and its
  two independent checks, workload evidence, the release gate, and the campaign driver over resumes and crashes.
* **Database tools** (`MigrationLedger`, `HostReferences`): the generated-migration ledger under lost responses, and the
  prefix trick that keeps child rows alive across a table rebuild.
* **Builder** (`BuildJobs`, `AdmissionSessions`, `StrandedSessions`): reconciling build jobs, and the shared table of
  upload sessions.
* **Web bundle** (`ImportClosure`): the static import closure and its byte budget.

`Wrappers`, `Text`, `Sorting` and `Histories` are shared helpers.

Imperative sources are classes and methods with loops, each proved against a specification function; protocols are
step functions over events, with lemmas about every event sequence. What the code asks of the outside is a parameter:
SHA-256 is an arbitrary function `sha`, clocks are integers or functions `clock`, random shuffles are permutations given
by the caller, answers of the host, the database, the network and child processes are `Env`, `Fate`, `Inventory`,
`Moment` and `BatchOutcome` values, and crashes are events or points at which an effect sequence is cut.

Callees outside the modelled files are represented by the contract their callers and their own source show. The VM manager
stores trimmed names and run IDs, refuses unsafe keys, deletes asynchronously and may refuse a create. A database batch
is atomic. Appending one observation line is atomic. Local relay targets drop expired entries before each assignment and
hold a bounded number of them.

## Findings

* A version floor survives only a restart that can read the cached row. `RegressionExactlyAfterLostReload` gives the exact
  condition for a stored version to go back and `UnreadableRestartLosesTheFloor` a run that does it. A start reads
  the row twice, so this can happen on a host with VMs too (`RegressionWithAVm`); `RegressionIffRowLost` says when.
* Reconciling converges if and only if Running names and run IDs are safe keys, although validation accepts any
  non-blank text (`ConvergesIffNamesAreSafe`).
* A settled host can refuse to restart when a name or run ID is padded: `SettledPassesSurviveIffNoStrays` is the exact
  condition, `PaddedNameRefusesRestart` an input.
* A crash can leave a host that no restart brings back (`RefusedForGood`): between caching a document and applying it
  (`StuckWhileCaching`), and also after applying it in full, while a deleted VM is still being cleaned up
  (`StuckWhileCleaning`). `CrashSurvivedIff` is the exact condition at any point; `CrashWhileCachingIff`,
  `CrashWhilePurgingIff`, `CrashAfterPassIff` and `PendingDeletesDecide` say what it means at each of them.
* The image identity ignores every chunk behind the first out-of-order one; `validate` never lets such a list through
  (`IdentityIgnoresTheDisorderedTail`, `PassingChunksAreOrdered`).
* A failed `set(false)` can re-admit work: the marker is gone although the call returned an error (`FailedResetReadmits`);
  `AdmittedWithoutResetIff` says exactly when.
* A build session can be stranded in the table: the job leaves it to a running publication, which gives up before it
  takes it (`EarlyPublishFailureStrandsSession`); `StrandedIff` says exactly when, over every run, and
  `StrandedPersists` that only a new request for the build helps.
* `create_plan` accepts a repeated condition and over-long sample IDs that `load_plan` refuses; `PlannedLoads` gives the
  exact condition. A serial block longer than the participant list is created and loaded, and refused only by the driver
  (`PlannedRuns`, `LoadableButNotRunnable`).
* Half of the samples within the p50 target do not make the median meet it when the count is even
  (`HalfWithinIsNotEnough`, exact condition in `MedianMeaning`); the failure parity rule of the gate never decides
  (`ParityNeverDecides`).
* The comment in the driver says a leaked run cannot disappear behind a resumed campaign. It can: a crash after a launch
  or an abort that writes no record hides a run (`CrashHidesARun`, `HostTimeAbortHidesARun`). `HidesARunIff` is the exact
  condition for a session, and `SessionsSafeIffNoneHides` what it means for every later batch. A run accepted after the
  driver stopped waiting is hidden even behind a clean record (`LateRunIsHidden`); `HidesAStartedRunIff` and
  `HostSafeIffNoneHides` are the exact conditions counted in started runs.
* The tool that builds a rehearsal prefix has no ledger check; `PrefixRunLeavesAPrefixIff` says when a rerun is safe.

## Model

| member | source | states |
|---|---|---|
| Text.TrimMeaning | crates/intar-agent/src/bridge/transport.rs:112-162 | trimming leaves nothing exactly for blank text and changes nothing exactly for text without outer white space, which is what the validators test |
| Text.SafeKeysAreTrimmed | crates/intar-agent/src/vm/manager/state.rs:284-288 | a safe key is never blank and is stored unchanged by a manager that trims |
| ImageManifest.LittleEndianRoundTrip | crates/intar-contracts/src/catalog.rs:262-283 | fixed-width little-endian fields give the integer back, so they are injective on their width |
| ImageManifest.RawSizesPartitionTheImage | crates/intar-contracts/src/catalog.rs:247-260 | every counted chunk is non-empty and fits a chunk, and the chunk sizes add up to the image exactly when the saturating count did not saturate, in particular up to 64 GiB |
| ImageManifest.SumIsClippedPrefix | crates/intar-contracts/src/catalog.rs:255-260 | the first n chunk sizes cover exactly the first n chunks of the image, clipped at its end |
| ImageManifest.EncodeThenDecode | crates/intar-contracts/src/catalog.rs:306-338 | decoding the hex form of a digest gives the digest back |
| ImageManifest.DecodeThenEncode | crates/intar-contracts/src/catalog.rs:306-338 | encoding a decoded lowercase hex digest gives the text back |
| ImageManifest.DecodeSha256 | crates/intar-contracts/src/catalog.rs:306-315 | succeeds exactly on 64 lowercase hex digits, and the bytes encode back to the input; otherwise the digest error |
| ImageManifest.ComputeZeroChunkSha256 | crates/intar-contracts/src/catalog.rs:294-304 | hashing in 64 KiB blocks with a shrinking remainder is the hash of exactly that many zero bytes |
| ImageManifest.ZeroChunkCache.Digest | crates/intar-contracts/src/catalog.rs:286-292 | the cached digest is always the digest of that many zero bytes, and the cache stays correct |
| ImageManifest.DigestOfIndex | crates/intar-contracts/src/catalog.rs:268-279 | one step of the merge yields the dense digest of the index and keeps the iterator at the next listed chunk |
| ImageManifest.HashInput | crates/intar-contracts/src/catalog.rs:262-283 | the one-pass merge feeds the hasher the header and the dense records of every index, for every chunk list, consumes every chunk of the ordered prefix, and fails exactly when one of its digests is unreadable |
| ImageManifest.ComputeImageId | crates/intar-contracts/src/catalog.rs:262-283 | the identity is the hash of the dense image described by the longest ordered prefix of the chunk list |
| ImageManifest.PeekFindsTheListedChunk | crates/intar-contracts/src/catalog.rs:268-279 | peeking at the sparse list finds the chunk of an index if and only if the ordered prefix lists one |
| ImageManifest.OrderedListIsListed | crates/intar-contracts/src/catalog.rs:262-283 | an ordered list decides the identity in full |
| ImageManifest.IdentityIgnoresTheDisorderedTail | crates/intar-contracts/src/catalog.rs:262-283 | chunks behind the first out-of-order one do not influence the identity |
| ImageManifest.CheckChunks | crates/intar-contracts/src/catalog.rs:222-239 | the loop with a remembered previous index reports no error exactly when every chunk passes, else the error of the first failing one |
| ImageManifest.PassingChunksAreOrdered | crates/intar-contracts/src/catalog.rs:222-239 | comparing neighbours orders the whole list: chunks pass exactly when indexes strictly increase below the count and every chunk is well formed |
| ImageManifest.Validate | crates/intar-contracts/src/catalog.rs:204-244 | accepts exactly the valid manifests, and an error names the first failing check in source order |
| ImageManifest.OneValidId | crates/intar-contracts/src/catalog.rs:204-283 | every well-shaped manifest has exactly one image ID that makes it valid |
| ImageManifest.FlattenIsInjective | crates/intar-contracts/src/catalog.rs:262-283 | concatenated 40-byte records can be taken apart again |
| ImageManifest.PreimageDeterminesImage | crates/intar-contracts/src/catalog.rs:204-338 | two valid manifests hash the same bytes if and only if they have the same virtual size and the same dense digest at every index |
| ImageManifest.ListedDigest | crates/intar-contracts/src/catalog.rs:222-283 | the dense digest of a valid manifest is the listed one with the right raw size, or the zero digest |
| ImageManifest.IdentityIsExact | crates/intar-contracts/src/catalog.rs:204-338 | valid manifests of one image share the identity; sharing it without being one image exhibits a SHA-256 collision; manifests of one image differ only in encoded fields and in listing or omitting zero chunks |
| DesiredState.ValidateDesiredState | crates/intar-agent/src/bridge/transport.rs:112-162 | one pass with a name set and a run map accepts exactly the documents with a valid header, valid entries, distinct names and one identity per run |
| DesiredState.TrackName | crates/intar-agent/src/bridge/transport.rs:112-162 | the name set stays the set of names seen, and a hit means the document repeats a name |
| DesiredState.TrackRun | crates/intar-agent/src/bridge/transport.rs:112-162 | the run map stays consistent with the entries seen, and a mismatch means a run has two identities |
| DesiredState.ValidateDesiredTransition | crates/intar-agent/src/bridge.rs:941-966 | accepts exactly the documents in which every run present before and after keeps its owner, does not go back in generation, and keeps the execution of an equal generation |
| DesiredState.RedeliveryAllowedIffUniform | crates/intar-agent/src/bridge.rs:941-966 | a redelivered document passes its own transition check exactly when each of its runs has one identity |
| DesiredState.Agent.HandleDesiredState | crates/intar-agent/src/bridge.rs:482-513 | the new durable row and memory are those of the delivery step, and the document is applied exactly when it was accepted and nothing interrupted it |
| DesiredState.Agent.Start | crates/intar-agent/src/bridge.rs:599-642 | process start loads the stored document when the row is readable and valid, else starts empty |
| DesiredState.RunsKeepCopiesInSync | crates/intar-agent/src/bridge.rs:482-535 | over every run of deliveries, crashes and reloading restarts the stored row is the last accepted document, memory equals it while running, every accepted document is valid and follows its predecessor |
| DesiredState.VersionsNeverDecrease | crates/intar-agent/src/bridge.rs:482-535 | over every such run the durable version never decreases, nor does the running one, memory is never ahead of the database, and a version names one document forever |
| DesiredState.MemoryIsEmptyOrStored | crates/intar-agent/src/bridge.rs:482-642 | over all runs, unreadable restarts included, memory is empty or equals the stored document and the row's version is its document's |
| DesiredState.RegressionExactlyAfterLostReload | crates/intar-agent/src/bridge.rs:530-642 | a delivery moves the stored version back exactly when memory is empty and an acceptable older document arrives |
| DesiredState.UnreadableRestartLosesTheFloor | crates/intar-agent/src/bridge.rs:599-642 | on every host one unreadable restart lets version 1 replace version 2 |
| DesiredState.RunLineage | crates/intar-agent/src/bridge.rs:941-966 | over every run of the agent with reloading restarts: while a run ID stays in every accepted document its VMs keep one owner, never go back in generation, and one generation is one execution |
| DesiredState.LineageIsForgottenInAGap | crates/intar-agent/src/bridge.rs:941-966 | with one empty document in between, any valid document is accepted after any other of lower version, whatever runs they share |
| Reconcile.VmManager.Purge | crates/intar-agent/src/bridge.rs:658-694 | exactly the VMs that no Running entry of the same run keeps are deleted, whatever the order |
| Reconcile.VmManager.ApplyDesiredState | crates/intar-agent/src/bridge.rs:658-722 | an invalid document changes nothing; a valid one purges, then reconciles every Running entry, and reports exactly the entries that failed |
| Reconcile.VmManager.ReconcileEach | crates/intar-agent/src/bridge.rs:658-722 | the second loop is the fold of the single reconcile over the Running entries, and a failure does not stop it |
| ReconcileProofs.StepIsLocal | crates/intar-agent/src/bridge.rs:724-816 | reconciling a safely named entry changes nothing but its own name: a matching VM stays, a mismatching or expired one is deleted, a free name gets the entry's record exactly when keys are usable and the create is not refused |
| ReconcileProofs.FoldIsLocal | crates/intar-agent/src/bridge.rs:658-816 | distinct names make the loop act on each name once, independently of the other entries |
| ReconcileProofs.PassIsLocal | crates/intar-agent/src/bridge.rs:658-816 | what a pass does under one name depends on that name's record and entry only |
| ReconcileProofs.KeptMeansRunAgrees | crates/intar-agent/src/bridge.rs:658-694 | a VM survives the first loop exactly when a Running entry of its name has its run ID |
| ReconcileProofs.ReportsAreExact | crates/intar-agent/src/bridge.rs:658-722 | the reported failures are exactly the entries that fail on their own name, in order |
| ReconcileProofs.RoundOutcome | crates/intar-agent/src/bridge.rs:658-816 | after a settled pass a name holds a VM exactly when it kept a wanted one or created one, and every VM left is wanted |
| ReconcileProofs.TwoRoundsAt | crates/intar-agent/src/bridge.rs:658-816 | after two settled passes a live Running name holds a matching VM and no other name holds any |
| ReconcileProofs.ThirdRoundIsIdle | crates/intar-agent/src/bridge.rs:658-816 | a third pass changes nothing in any environment |
| ReconcileProofs.ConvergesIffNamesAreSafe | crates/intar-agent/src/bridge.rs:658-816 | two settled passes make the host exactly the document if and only if its Running names and run IDs are safe keys |
| RestartProofs.ValidateRestart | crates/intar-agent/src/bridge.rs:828-855 | a restart is accepted exactly when there are no persisted VMs, or the stored document is valid and every VM is attributable to it |
| RestartProofs.RestartIffSpelledOut | crates/intar-agent/src/bridge.rs:828-855 | with a valid stored document a restart is accepted if and only if every VM reads word for word like an entry of it |
| RestartProofs.FoldHasOrigin | crates/intar-agent/src/bridge.rs:658-816 | from any managed host and without any assumption on names, every record that survives a pass was created by an entry of the document or was kept by it, and no later entry of its name disagreed |
| RestartProofs.SettledPassesSurviveIffNoStrays | crates/intar-agent/src/bridge.rs:658-855 | a restart is accepted after every settled pass from every managed host, with any creates refused, if and only if whatever an entry may store, and no later entry of that stored name clears, is spelled out by the document |
| RestartProofs.SafeNamesLeaveNoStrays | crates/intar-agent/src/bridge.rs:828-855 | safe Running names and run IDs are enough for that |
| RestartProofs.PaddedNameRefusesRestart | crates/intar-agent/src/bridge.rs:828-855 | one VM called " a" on an empty host: the pass stores "a" and the restart is refused |
| RestartProofs.ClearedStrayIsHarmless | crates/intar-agent/src/bridge.rs:658-722 | a stray that a later entry clears is gone once the pass has settled, although nothing spells it out |
| RestartProofs.UnsettledPassIff | crates/intar-agent/src/bridge.rs:658-816 | after a pass of safely named entries, with cleanups still pending, everything left is spelled out if and only if each record the document does not spell out was cleaned up while the pass ran |
| HostRuns.RunsKeepInv | crates/intar-agent/src/main.rs:116-122 | over every run of deliveries, deletes that begin and finish, crashes at any point of a pass and gated starts: the stored row is a valid document, memory is lost or equal to it, a remembered document without strays spells out every VM not being deleted, and an agent that came up without its row has a row that spells out them all |
| HostRuns.CrashSurvivedIff | crates/intar-agent/src/bridge.rs:828-855 | after any run and a crash at any point, in the middle of a pass or with cleanups pending, the next start succeeds if and only if the stored document spells out every persisted VM, those being deleted included |
| HostRuns.PendingDeletesDecide | crates/intar-agent/src/vm/manager/cleanup.rs:115-123 | once a pass of a document without strays is complete, a crash is survived if and only if the document spells out every VM being deleted |
| HostRuns.CrashWhilePurgingIff | crates/intar-agent/src/bridge.rs:658-722 | a crash during the deletes of a pass is survived if and only if the new document spells out every VM, except those already cleaned up |
| HostRuns.CrashWhileCachingIff | crates/intar-agent/src/bridge.rs:482-513 | a crash between caching a document and applying it is survived if and only if the new document keeps, with the same run, owner, execution and generation, every entry of the current one under which its VM exists, and spells out every VM being deleted |
| HostRuns.CrashAfterPassIff | crates/intar-agent/src/bridge.rs:658-816 | a crash right after a completed pass of safely named entries is survived if and only if every VM the document does not spell out was cleaned up while the pass ran |
| HostRuns.RefusedForGood | crates/intar-agent/src/main.rs:116-122 | once a start with a readable row is refused, no sequence of deliveries, deletes, crashes and restarts changes the row or the VMs or brings the agent up |
| HostRuns.HostRunsAreAgentRuns | crates/intar-agent/src/bridge.rs:482-642 | the agent part of every host run is a run of the agent alone, so what holds over those holds on every host |
| HostRuns.RegressionIffRowLost | crates/intar-agent/src/bridge.rs:599-642 | over every run a delivery moves the stored version back if and only if the last start got past the gate but did not load the row, no document was accepted since, and this one is valid, storable and older |
| HostRuns.LostRowKnowsAll | crates/intar-agent/src/main.rs:116-122 | at that point the newer stored document spells out every VM of the host |
| HostRuns.StuckWhileCaching | crates/intar-agent/src/bridge.rs:482-513 | a reachable host with a running VM that a document without it and one crash before applying it leave unable to start |
| HostRuns.StuckWhileCleaning | crates/intar-agent/src/vm/manager/api.rs:818-821 | a reachable host that applied such a document in full and crashes before the cleanup has finished: it cannot start either |
| HostRuns.RegressionWithAVm | crates/intar-agent/src/bridge.rs:120-135 | a reachable host with a running VM whose stored version goes back: the gate reads the row, the bridge cannot |
| Relay.RelayRunner.CheckRequest | crates/intar-agent/src/relay.rs:54-100 | the request checks accept exactly valid credentials with few enough distinct, valid, unexpired assignments under that identity |
| Relay.RelayRunner.Apply | crates/intar-agent/src/relay.rs:38-172 | the new session is that of the apply step: kept for the same connection with only assigned targets, replaced otherwise, and dropped on any failure or without credentials |
| Relay.RelayRunner.AssignEach | crates/stargate-core/src/relay.rs:289-330 | the assign loop inserts one target after the other and fails at the first that expired or has no room |
| Relay.ApplyGrantsOnlyAssignments | crates/intar-agent/src/relay.rs:54-172 | after a successful apply every target was assigned by this request with its deadline, under the request's identity and lease |
| Relay.AssignLoopInvariant | crates/stargate-core/src/relay.rs:289-350 | during the loop every entry is an assignment already made or a retained one still to be renewed |
| Relay.OnlyExpiryFailsAnAcceptedRequest | crates/intar-agent/src/relay.rs:54-172 | an accepted request fails exactly when one of its assignments expired meanwhile; capacity never fails it |
| Relay.CapacitySuffices | crates/stargate-core/src/relay.rs:289-330 | the bounded target table always has room for the assignments of an accepted request |
| Relay.ReachableIsLastGrant | crates/intar-agent/src/relay.rs:38-181 | over every run of applies, task ends and closes, what is reachable was assigned by the last successful apply under its identity, and nothing is after a failed or credential-less apply or a close |
| ControlConnection.CollectAssignments | crates/intar-agent/src/bridge.rs:873-939 | the loop collects the assignment of each grantable entry and gives up when a grantable VM has no address |
| ControlConnection.AssignmentsAreGrantable | crates/intar-agent/src/bridge.rs:873-939 | exactly the Running, unexpired, identity-matched, terminal-ready entries are assigned |
| ControlConnection.UpdateGrants | crates/intar-agent/src/bridge.rs:857-939 | a relay update either ends the connection or leaves only targets granted by the current message and inventory |
| ControlConnection.ReachableOnlyByCurrentDocument | crates/intar-agent/src/bridge.rs:264-358 | from any document recovered from disk, over every run of connections, messages, inventory changes, expiries and disconnects, targets exist only while a document accepted on this connection is current, under the relay identity of that message |
| ControlConnection.ReachableTargetIsLive | crates/intar-agent/src/bridge.rs:329-358 | a reachable target names a Running entry of the current document with a live lease, and matches it in VM, owner, execution and generation |
| Drain.StepKeepsInv | crates/intar-agent/src/drain.rs:22-65 | every lock, marker, failure or death step of any process keeps the fence invariant |
| Drain.RunsKeepInv | crates/intar-agent/src/drain.rs:22-65 | the fence invariant holds after every interleaving |
| Drain.FenceHolds | crates/intar-agent/src/drain.rs:22-65 | in every interleaving a held admission means no drain marker, admissions exclude a running set, at most one set runs, and a completed set(true) leaves the marker and no admission |
| Drain.RemovedOnlyBySetFalse | crates/intar-agent/src/drain.rs:55-65 | the marker goes away only by a set(false) that removes it, also one that then fails |
| Drain.MarkerStaysUntilRemoved | crates/intar-agent/src/drain.rs:55-65 | once present the marker stays until such a step |
| Drain.DrainLastsUntilReset | crates/intar-agent/src/drain.rs:45-65 | after a completed set(true) no admission succeeds before a later set(false) removed the marker and is over |
| Drain.AdmittedWithoutResetIff | crates/intar-agent/src/drain.rs:45-65 | after a completed set(true) and without a completed set(false) since, an idle process would be admitted if and only if a set(false) removed the marker and then failed or died, no set(true) wrote it again, and no set holds the lock |
| Drain.FailedResetReadmits | crates/intar-agent/src/drain.rs:55-65 | a set(false) that fails in the directory sync has already re-admitted work |
| ImportClosure.CollectStaticImportClosure | apps/web/scripts/check-ui-bundle.ts:225-253 | terminates on every graph, returns exactly the reachable chunks, and fails exactly when a reachable chunk is missing |
| ImportClosure.PushImports | apps/web/scripts/check-ui-bundle.ts:242-249 | pushes all imports of a chunk or names one that does not exist |
| ImportClosure.ExploredIsExact | apps/web/scripts/check-ui-bundle.ts:225-253 | an empty worklist means the collected set is exactly the reachable set |
| ImportClosure.ReachableIsLeast | apps/web/scripts/check-ui-bundle.ts:225-253 | every set that contains the entry and is closed under imports contains every path |
| ImportClosure.ExactClosureIsLeast | apps/web/scripts/check-ui-bundle.ts:225-253 | the result contains the entry, is closed, and lies in every such set |
| ImportClosure.TotalWithout | apps/web/scripts/check-ui-bundle.ts:208-216 | the byte total does not depend on the iteration order |
| ImportClosure.SumGzipBytes | apps/web/scripts/check-ui-bundle.ts:208-216 | the reduce yields the total of the closure, counting unknown sizes as zero |
| ImportClosure.IncrementalBytesAddUp | apps/web/scripts/check-ui-bundle.ts:208-223 | bytes of App plus the bytes a route adds are the bytes of their union |
| BuildJobs.BuilderDb.ReconcileDesiredBuilds | crates/intar-builder/src/jobs.rs:11-42 | job rows become those of the row function for the desired list, and the count is the number of distinct desired IDs without a row |
| BuildJobs.BuilderDb.DropUndesired | crates/intar-builder/src/jobs.rs:22-26 | exactly the rows without a desired build are deleted |
| BuildJobs.BuilderDb.QueueOne | crates/intar-builder/src/jobs.rs:28-40 | one build inserts, refreshes or leaves its own row and no other |
| BuildJobs.BuilderDb.QueueDesired | crates/intar-builder/src/jobs.rs:28-41 | the second loop leaves every row as the fold of the desired builds of its ID |
| BuildJobs.CountsDistinctNewIds | crates/intar-builder/src/jobs.rs:28-41 | the insert counter counts distinct new IDs, duplicates included once |
| BuildJobs.LastBuildWins | crates/intar-builder/src/jobs.rs:28-40 | a job in progress or done keeps its row; every other job ends queued with the last desired payload of its ID |
| BuildJobs.ProgressIsPreserved | crates/intar-builder/src/jobs.rs:28-40 | a row that is not failed and already has every desired payload of its ID is untouched |
| BuildJobs.UntouchedOrFresh | crates/intar-builder/src/jobs.rs:28-40 | a row is either untouched, and then needed no refresh, or was queued afresh with the last payload |
| BuildJobs.RowSettles | crates/intar-builder/src/jobs.rs:28-40 | running the loop again on its own result gives the same row |
| BuildJobs.ReconcileIsIdempotent | crates/intar-builder/src/jobs.rs:11-42 | after a reconcile the job IDs are the desired IDs, and a second call at the same time changes nothing, duplicates included |
| AdmissionSessions.SessionTable.BuildAdmissionSession | crates/intar-builder/src/build_worker.rs:25-38 | returns the build's session, opening one nobody else has on first use, fails exactly when it cannot open one, and leaves every other build alone |
| AdmissionSessions.SessionTable.Take | crates/intar-builder/src/build_worker.rs:40-46 | returns the build's session if it has one; afterwards it is under no build, and every other build keeps its own |
| AdmissionSessions.StepKeepsPlaces | crates/intar-builder/src/build_worker.rs:17-54 | every step of every worker leaves each opened session in exactly one place |
| AdmissionSessions.SessionsAreAccountedFor | crates/intar-builder/src/build_worker.rs:17-54 | in every interleaving each opened session is in exactly one place: one build of the table, one worker's hand, or the log once |
| AdmissionSessions.TakenOnlyByEndOrPublish | crates/intar-builder/src/build_worker.rs:232-238 | a session leaves the table exactly when its own ending job or its publication takes it |
| AdmissionSessions.PublishedIffReturned | crates/intar-builder/src/build_worker.rs:919-943 | in every run Published is reported, or about to be, for exactly the sessions whose publication returned success while holding them |
| StrandedSessions.LeftAloneIffDeferred | crates/intar-builder/src/build_worker.rs:232-238 | in every run a session is in the table without a job of its build exactly when the last job left it to a running publication and no job or publication has come for it since |
| StrandedSessions.StrandedPersists | crates/intar-builder/src/build_worker.rs:17-54 | a session in the table without any worker of its build and without pending work stays where it is under every event, until the desired state queues the build again |
| StrandedSessions.StrandedStep | crates/intar-builder/src/build_worker.rs:178-206 | a session becomes stranded exactly when, left alone, the last worker of its build settles the row and queues nothing, or the row is dropped while nobody works on it |
| StrandedSessions.StrandedIff | crates/intar-builder/src/build_worker.rs:227-238 | in every run a session is stranded if and only if a job deferred it, all work on the build then ended with nothing queued again, and the desired state has not asked for the build since |
| StrandedSessions.EarlyPublishFailureStrandsSession | crates/intar-builder/src/build_worker.rs:621-700 | a reachable run that strands a session: the job sees the publication running, which gives up before it takes the session, and the job settles |
| HostReferences.RunPrefixes | tools/database/preserve-host-references.ts:24-27 | the prefix updates succeed exactly when all listed tables exist, and prefix every reference in them |
| HostReferences.RunRestores | tools/database/preserve-host-references.ts:29-32 | the restore updates cut the prefix length off every reference of the listed tables |
| HostReferences.RunCore | tools/database/preserve-host-references.ts:28 | dropping the deferral pragmas of the migration does not change what it does |
| HostReferences.RunRebuild | tools/database/preserve-host-references.ts:14-35 | the generated rebuild is refused by a restricting reference, else applies cascade and set-null to the references of dropped hosts and keeps the hosts |
| HostReferences.PrefixedRowsAreSafe | tools/database/preserve-host-references.ts:20-27 | when no host ID starts with the prefix, prefixed rows reference no host, survive the drop, and are restored exactly |
| HostReferences.BatchMeaning | tools/database/preserve-host-references.ts:14-35 | for every table list the batch aborts exactly on a prefix clash, a missing table or a refused drop, else only unlisted tables suffer the referential actions |
| HostReferences.HarmIsChange | tools/database/preserve-host-references.ts:3-7 | the drop changes a table exactly when it references a host |
| HostReferences.OutcomeUnchanged | tools/database/preserve-host-references.ts:3-12 | the outcome equals the database exactly when no unlisted table references a host |
| HostReferences.PreservedExactlyWhenListed | tools/database/preserve-host-references.ts:3-35 | the transaction leaves the whole database as it was exactly when it aborts or every table with references is listed |
| MigrationLedger.IncreasingLedgerReadsBack | tools/database/generated-d1-schema.ts:71-98 | sorted by creation time, the ledger of an increasing stream is the stream |
| MigrationLedger.FilterIsSuffixIffIncreasing | tools/database/apply-generated-migrations.ts:63-91 | the timestamp filter selects the rest of the stream after every ledger prefix if and only if the journal timestamps strictly increase |
| MigrationLedger.FilterIsSuffix | tools/database/apply-generated-migrations.ts:63-91 | for an increasing stream the filter after k markers is exactly the list from k on |
| MigrationLedger.D1.ApplyPending | tools/database/apply-generated-migrations.ts:161-179 | the loop applies pending migrations in order and stops at the first that is not acknowledged |
| MigrationLedger.BatchesExtendThePrefix | tools/database/apply-generated-migrations.ts:161-179 | whatever happens to the batches, the database is a longer prefix of the stream, the whole when all are acknowledged |
| MigrationLedger.RunExtendsThePrefix | tools/database/apply-generated-migrations.ts:63-91 | one start keeps the database a prefix, never shrinks it, and returns evidence only for the full stream |
| MigrationLedger.EmptyLedgerIsRefused | tools/database/apply-generated-migrations.ts:63-91 | an empty ledger is refused and left alone |
| MigrationLedger.RunFromPrefix | tools/database/apply-generated-migrations.ts:63-179 | from a non-empty prefix the tool runs exactly the batches of the rest of the stream and then verifies in full |
| MigrationLedger.LedgerIsAlwaysAPrefix | tools/database/apply-generated-migrations.ts:63-179 | over any number of starts with failed batches and lost responses the database is exactly a prefix of the stream, so every migration takes effect at most once and in order |
| MigrationLedger.AcknowledgedRunCompletes | tools/database/apply-generated-migrations.ts:161-179 | a start whose batches are all acknowledged reaches the full stream and returns evidence |
| MigrationLedger.PrefixVerifies | tools/database/generated-d1-schema.ts:71-98 | the verifier accepts every non-empty prefix, and the full stream when it must be complete |
| MigrationLedger.D1.ApplyPrefix | tools/database/apply-generated-migrations.ts:129-159 | replays the first migrations from the beginning, refuses a count outside the stream, and stops at the first batch that is not acknowledged |
| MigrationLedger.FreshPrefixRun | tools/database/apply-generated-migrations.ts:129-159 | on an empty database whatever happens leaves a prefix, the asked one when the tool returns |
| MigrationLedger.PrefixRunLeavesAPrefixIff | tools/database/apply-generated-migrations.ts:129-159 | on a database that holds a prefix, a rerun leaves a prefix if and only if that prefix is empty or the first batch does not go through |
| SampleIds.SampleIdsAreInjective | tools/vm-boot-benchmark.py:732-735 | equal sample IDs mean equal scenario, condition, implementation and ordinal, for any scenario names |
| SampleIds.GroupIdsAreInjective | tools/vm-boot-benchmark.py:818-819 | equal launch group IDs mean the same group number and condition |
| SampleIds.PaddedHasValue | tools/vm-boot-benchmark.py:735 | a zero-padded number reads back as the number, also beyond the padding |
| SampleIds.ConditionsAreSuffixFree | tools/vm-boot-benchmark.py:51-78 | no condition name ends another, so the condition can be read off the end of an ID |
| SampleIds.SampleIdIsSafeIffShort | tools/vm-boot-benchmark.py:227-259 | a planned sample ID passes the ID pattern exactly when it has at most 128 characters |
| SampleIds.GroupIdIsSafeIffShort | tools/vm-boot-benchmark.py:227-259 | a launch group ID passes the ID pattern exactly when it has at most 128 characters |
| BenchmarkPlan.OrderBlocks | tools/vm-boot-benchmark.py:791-807 | the block order is, per condition, the shuffled pairs with their first implementation |
| BenchmarkPlan.AppendGroup | tools/vm-boot-benchmark.py:821-845 | one launch group holds one sample per offset with its ordinal, ID and participant |
| BenchmarkPlan.BuildSchedule | tools/vm-boot-benchmark.py:808-845 | the schedule is both implementations of every block in order, numbered consecutively |
| BenchmarkPlan.CreatePlan | tools/vm-boot-benchmark.py:738-845 | a plan is made exactly when the counts divide, every condition is known, fits the block size and has enough participants; it is the planned schedule |
| BenchmarkPlan.CollectGroups | tools/vm-boot-benchmark.py:997-999 | the group map holds exactly the samples of each launch group, in schedule order |
| BenchmarkPlan.CountCells | tools/vm-boot-benchmark.py:982-985 | the cell map counts the samples of each cell |
| BenchmarkPlan.CheckEntries | tools/vm-boot-benchmark.py:958-981 | the loop with a seen set passes exactly when sample IDs are distinct and every entry is well formed |
| BenchmarkPlan.CheckCells | tools/vm-boot-benchmark.py:986-996 | the cell check passes exactly when every planned cell has the planned count and no other cell has samples |
| BenchmarkPlan.LoadPlan | tools/vm-boot-benchmark.py:886-1010 | accepts exactly the plans with distinct well-formed IDs, full cells, uniform groups of block size and distinct participants in concurrent groups |
| BenchmarkPlan.JoinsGroup | tools/vm-boot-benchmark/campaign.ts:368-374 | a sample may join a group exactly when the longer group still has one condition, one concurrency and no participant twice |
| BenchmarkPlan.PlanGroups | tools/vm-boot-benchmark/campaign.ts:348-379 | the driver accepts exactly the plans whose entries and groups pass its own rules, and its groups are those of the schedule |
| PlanProofs.GroupIsOnePart | tools/vm-boot-benchmark.py:808-845 | with distinct group IDs each launch group of a schedule is exactly one of its parts |
| PlanProofs.BlockOrderDiffers | tools/vm-boot-benchmark.py:791-807 | for every shuffle, distinct conditions and scenarios give pairwise different blocks |
| PlanProofs.SameIdSameSample | tools/vm-boot-benchmark.py:817-845 | two planned samples with one ID are the same sample of the same launch group |
| PlanProofs.FlatIdsDiffer | tools/vm-boot-benchmark.py:808-845 | no sample ID occurs twice in the schedule |
| PlanCounts.ShuffleKeepsWeight | tools/vm-boot-benchmark.py:795-799 | a shuffle does not change how many samples a scenario gets |
| PlanCounts.PlannedCellCount | tools/vm-boot-benchmark.py:791-845 | for every shuffle and choice, a cell of a planned scenario gets the planned sample count once for each time its condition is listed |
| PlanCounts.CellsLoadIffConditionsDistinct | tools/vm-boot-benchmark.py:986-996 | the cell check of a created plan passes exactly when no condition is listed twice |
| PlanAcceptance.GroupRunsIffParticipantsSuffice | tools/vm-boot-benchmark.py:822-825 | a serial group repeats a participant exactly when it is longer than the participant list; a concurrent one never does |
| PlanAcceptance.GroupLoadsIffIdSafe | tools/vm-boot-benchmark.py:997-1010 | a created group passes the group check exactly when its ID is well formed |
| PlanAcceptance.LongestSample | tools/vm-boot-benchmark.py:808-845 | the longest ID of every cell is really planned |
| PlanAcceptance.PlannedIdsAreDistinct | tools/vm-boot-benchmark.py:732-845 | for every shuffle and choice the sample IDs of a plan with distinct conditions are unique |
| PlanAcceptance.PlannedLoads | tools/vm-boot-benchmark.py:738-1010 | for every shuffle and choice, a created plan loads if and only if no condition repeats and the longest sample ID of every cell fits 128 characters |
| PlanAcceptance.PlannedRuns | tools/vm-boot-benchmark/campaign.ts:348-379 | the driver accepts a loadable created plan if and only if no serial block is longer than the participant list |
| PlanAcceptance.LoadableButNotRunnable | tools/vm-boot-benchmark/campaign.ts:371-373 | eight serial samples in one block over four participants: created, loaded, refused by the driver |
| WorkloadIntervals.FoldEvents | tools/vm-boot-benchmark.py:1781-1797 | the event loop keeps the open times and the closed intervals of the event prefix, per job and workload |
| WorkloadIntervals.AddOpen | tools/vm-boot-benchmark.py:1798-1808 | each job still open adds one interval without end, nothing else is added, and the number of intervals meeting the window grows by exactly the open jobs that do |
| WorkloadIntervals.FoldWorkloadIntervals | tools/vm-boot-benchmark.py:1771-1808 | the intervals of a workload are exactly the closed ones and one open one per open job of the events in time order, and for any window as many of them meet it as closed intervals and open jobs do |
| WorkloadIntervals.CoverageIsActivity | tools/vm-boot-benchmark.py:1771-1808 | an instant lies in an interval of a job if and only if some start at or before it has no later end before it, or it is an end time |
| WorkloadIntervals.IntervalsAreActivity | tools/vm-boot-benchmark.py:1771-1808 | the same for the returned lists and any event order |
| WorkloadIntervals.CoversMeansOverlap | tools/vm-boot-benchmark.py:1811-1823 | the window test holds exactly when some instant of the window lies in the interval |
| WorkloadIntervals.ChooseEvidence | tools/vm-boot-benchmark.py:1845-1854 | picks a covering interval with the earliest start, or nothing exactly when none covers |
| WorkloadIntervals.CollectEvidence | tools/vm-boot-benchmark.py:1842-1862 | after the loop every required workload is either missing and unproven, or has evidence: the earliest interval meeting the window and how many do |
| WorkloadIntervals.WorkloadOverlap | tools/vm-boot-benchmark.py:1826-1879 | succeeds exactly when the key is known and every required workload has an interval meeting the window; the evidence is the earliest with the overlap count, the events counted are the required ones up to the end of the window, and the error lists exactly the missing workloads |
| WorkloadIntervals.ProvenMeansActive | tools/vm-boot-benchmark.py:1826-1879 | a workload is proven exactly when one of its jobs was active at some instant of the window |
| WorkloadIntervals.ChosenEvidenceRechecks | tools/vm-boot-benchmark.py:2187-2212 | the chosen evidence always passes the later recheck of the observation |
| AcceptanceGate.NearestRankMeaning | tools/vm-boot-benchmark.py:2227-2232 | the nearest-rank p95 meets a target exactly when at least 95% of the values do |
| AcceptanceGate.MedianMeaning | tools/vm-boot-benchmark.py:2235-2245 | the median meets a target if and only if more than half of the values do, or exactly half do and the closest values on both sides of the target average at most the target |
| AcceptanceGate.TieMiddle | tools/vm-boot-benchmark.py:2235-2245 | with exactly half of the values within the target, the two middle values are the largest within and the smallest above it |
| AcceptanceGate.HalfWithinIsNotEnough | tools/vm-boot-benchmark.py:2235-2245 | two values, one within the target, with a median above it |
| AcceptanceGate.SortedRank | tools/vm-boot-benchmark.py:2227-2232 | the k-th smallest value is within a bound exactly when more than k values are |
| AcceptanceGate.ReportGroup | tools/vm-boot-benchmark.py:2291-2327 | the group report counts failures and leaks and collects the times of the successes of the cell |
| AcceptanceGate.CountsMean | tools/vm-boot-benchmark.py:2291-2300 | successes and failures add up, and the counters are zero exactly when no observation failed or leaked |
| AcceptanceGate.CellReasons | tools/vm-boot-benchmark.py:2423-2472 | the cell loop adds no reason exactly when every planned cell is clean |
| AcceptanceGate.ParityReasons | tools/vm-boot-benchmark.py:2473-2503 | the parity loop adds no reason exactly when no pair has more candidate than baseline failures |
| AcceptanceGate.ParityNeverDecides | tools/vm-boot-benchmark.py:2473-2503 | when every cell is clean, no pair has a new candidate failure, so the parity loop never adds the only reason |
| AcceptanceGate.NothingMissingFillsCells | tools/vm-boot-benchmark.py:2537-2563 | when every planned sample is observed, each cell has exactly its planned number of observations |
| AcceptanceGate.ReasonsMean | tools/vm-boot-benchmark.py:2394-2534 | the loops find no reason exactly when the gate's meaning holds in terms of planned and observed samples |
| AcceptanceGate.AcceptanceReport | tools/vm-boot-benchmark.py:2394-2534 | reports no reason exactly when the plan is no smoke plan, all samples are observed, nothing leaked, no candidate failed and every candidate cell meets both targets |
| AcceptanceGate.CheckObservations | tools/vm-boot-benchmark.py:2537-2550 | the observation loop passes exactly when every observation is planned for its own cell and none repeats |
| AcceptanceGate.BuildReport | tools/vm-boot-benchmark.py:2537-2565 | a report exists exactly for well-recorded observations that are complete or may be incomplete, and it passes exactly when the gate's meaning holds |
| AcceptanceGate.PassMeansMeasured | tools/vm-boot-benchmark.py:2394-2534 | a passing gate means every candidate cell measured all its samples successfully, at least half within the p50 target and at least 95% within the p95 target |
| Campaign.Driver.ExecuteBatch | tools/vm-boot-benchmark/campaign.ts:737-783 | a batch launches its runs and learns the IDs that are reported before the wait ends, in order |
| Campaign.Driver.TeardownAll | tools/vm-boot-benchmark/campaign.ts:932-966 | each run is destroyed, not needed or recorded as a cleanup failure, and the outcomes are returned in order |
| Campaign.Driver.RunBatch | tools/vm-boot-benchmark/campaign.ts:1231-1296 | a batch is the batch function: launch, host-time abort without teardown, else teardown of all and records up to the first refusal |
| Campaign.Driver.RunGroup | tools/vm-boot-benchmark/campaign.ts:1182-1310 | batches of the group's concurrency run until one stops the campaign, and a cleanup failure becomes one abort |
| Campaign.Driver.RunCampaign | tools/vm-boot-benchmark/campaign.ts:1135-1310 | the campaign starts exactly when no recorded teardown failed, skips recorded samples, and ends as the campaign function says |
| CampaignProofs.NoBatchStartsOverALiveRun | tools/vm-boot-benchmark/campaign.ts:1182-1310 | in every campaign a batch starts only when every run learned before was confirmed gone, and without an abort none is left |
| CampaignProofs.BatchLeaves | tools/vm-boot-benchmark/campaign.ts:1231-1296 | the runs a batch leaves on the host are exactly all it learned when host time is missing, else those whose cleanup was not confirmed |
| CampaignSessions.CrashedSessionIsSafe | tools/vm-boot-benchmark/campaign.ts:1182-1310 | a crash after any effect keeps that guarantee |
| CampaignSessions.OneRecordPerSample | tools/vm-boot-benchmark.py:1960-1963 | over any sequence of sessions, each crashing anywhere, the observations only grow and hold at most one record per sample |
| CampaignSessions.FailedTeardownStopsEverySession | tools/vm-boot-benchmark/campaign.ts:1135-1147 | once a failed teardown is on record no later session has any effect |
| CampaignProofs.RecordedSamplesAreNotRerun | tools/vm-boot-benchmark/campaign.ts:1183-1211 | a campaign never launches a sample that already has a record |
| CampaignProofs.BatchRecords | tools/vm-boot-benchmark/campaign.ts:1262-1293 | a batch without an abort records every sample with its real teardown outcome |
| CampaignProofs.LeftoverBlocksResume | tools/vm-boot-benchmark/campaign.ts:493-516 | a campaign that leaves a run behind blocks every resume, unless it stopped on an abort that wrote no record for a sample |
| CampaignSessions.WritesUpToFirstRefused | tools/vm-boot-benchmark/campaign.ts:1271-1293 | the record loop writes exactly the samples before the first refused one and aborts there |
| CampaignSessions.HidesARunIff | tools/vm-boot-benchmark/campaign.ts:1182-1310 | a session, cut by a crash after any effect or not, leaves a run the driver has learned of and no record reveals if and only if the batch in which it ends has learned a run not torn down yet and has no failed teardown on file yet |
| CampaignSessions.HostTimeAbortHidesARun | tools/vm-boot-benchmark/campaign.ts:1239-1252 | one background sample without host time leaves its run behind while a resume may start, whether or not a crash follows the launch |
| CampaignSessions.CrashHidesARun | tools/vm-boot-benchmark/campaign.ts:1231-1296 | a crash right after the launch leaves a run behind while a resume may start, with everything else in order |
| CampaignSessions.BatchTrace | tools/vm-boot-benchmark/campaign.ts:1231-1296 | a batch has exactly these effects: start, the learned runs in order, then unless host time is missing the confirmed teardowns and the records up to the first refused sample |
| CampaignSessions.SessionsSafeIffNoneHides | tools/vm-boot-benchmark/campaign.ts:1135-1310 | over any sequence of sessions on one host, each crashing anywhere, every batch starts with all learned runs of all earlier sessions confirmed gone if and only if no session on which a later one builds ended hiding one |
| CampaignHost.HostSafeIffBatchesLeaveNone | tools/vm-boot-benchmark/campaign.ts:1135-1310 | over any such sequence every batch starts on a host without runs of earlier batches, learned or not, if and only if every batch that another one follows tore down all runs it started |
| CampaignHost.PiecesPass | tools/vm-boot-benchmark/campaign.ts:1231-1296 | every batch of a session but the last ran to its end, with host time and without a failed teardown |
| CampaignHost.PassedLeavesLate | tools/vm-boot-benchmark/campaign.ts:647-663 | a batch the campaign goes past leaves exactly the runs that were accepted after the wait |
| CampaignHost.HidesAStartedRunIff | tools/vm-boot-benchmark/campaign.ts:1182-1310 | a session leaves a run it started, heard of or not, behind a file that lets a resume start if and only if its last batch has no failed teardown on file and left a run, or an earlier batch had a late one |
| CampaignHost.HostSafeIffNoneHides | tools/vm-boot-benchmark/campaign.ts:1135-1310 | over any sequence of sessions every batch starts on a host without earlier runs if and only if no session went past a late run and none on which a later one builds ended hiding a run |
| CampaignHost.LateRunIsHidden | tools/vm-boot-benchmark/campaign.ts:932-938 | one sample whose run is accepted after the wait: the record says no teardown was needed, the run stays, and a resume may start |
| CampaignProofs.CompletedCampaign | tools/vm-boot-benchmark/campaign.ts:1182-1310 | a campaign that does not abort finishes every planned sample |
| CampaignProofs.RerunIsIdle | tools/vm-boot-benchmark/campaign.ts:1183-1213 | starting a finished campaign again has no effect |

## Left out

- WebSocket, HTTP, TLS and SSH plumbing, token bootstrap, retry sleeps and report sending in both bridges: transport.
- SHA-256, zstd and SSH key parsing: SHA-256 is a parameter, the others do not occur.
- SQL text, Drizzle parsing and SQLite: only tables, the ledger, atomic batches and the referential actions of a dropped table are modelled.
- Host capacity, capability, load and memory probes, preflight checks and configuration fields: single-branch checks.
- Image cache refresh and pins, VM boot, guest and network setup behind the VM manager: only creation, deletion and matching of VM records are modelled.
- Resources, image and scenario fields of a desired VM that only travel into the create call: they add no branch to reconciling.
- Reconcile.VmManager.Create: why a create is refused (capacity, image, jailer) is not modelled; any create may be refused by the environment.
- Relay.RelayRunner.Apply: the URL and key parsers are represented by what they return; the relay connection itself is only the end of its background job.
- Relay.RelayRunner.AssignEach: the validity checks that the target table repeats after the request check are not modelled again.
- ControlConnection.ReachableOnlyByCurrentDocument: one clock serves leases, credentials and inventory; drift between wall clock and monotonic clock is not modelled.
- BuildJobs.BuilderDb.ReconcileDesiredBuilds: a database error in the middle of the two loops is not modelled.
- AdmissionSessions.SessionsAreAccountedFor: a panic that drops the session in a worker's hand and a builder restart, which empties the table, are not modelled; sessions are numbers without registry state.
- StrandedSessions.StrandedIff: the two publication slots and the retry times are not modelled, any waiting or ready output may be claimed.
- HostReferences.BatchMeaning: the listed tables are distinct, as in both lists of the source, and the migration is the generated rebuild; the random prefix is a parameter.
- MigrationLedger.RunExtendsThePrefix: canonical schema objects are an arbitrary function of the applied migrations; the tag lookup and the command line are not modelled.
- BenchmarkPlan.LoadPlan: targets, host, client, release and workload fields, VM counts and cache modes, which are copied from one table on both sides, are not modelled; an implementation is one of two values.
- BenchmarkPlan.PlanGroups: the order of the groups in the driver's map is not modelled.
- BenchmarkPlan.CreatePlan: the random generator is any permutation and any choice; the seed and the recorded block order are not modelled.
- WorkloadIntervals.AddOpen: the order in which still open jobs are appended is not modelled; it can decide only between intervals with equal start.
- WorkloadIntervals.WorkloadOverlap: the parsing of the log lines is not modelled.
- AcceptanceGate.NearestRankMeaning: 0.95 is the exact rational, not the binary fraction nearest to it.
- AcceptanceGate.CheckObservations: of the observation checks only sample, cell and repetition are modelled, not the evidence fields.
- AcceptanceGate.BuildReport: takes observations as `CheckObservations` does, without the evidence fields.
- AcceptanceGate.CellReasons: cells are visited in any order, and the texts of the reasons are constructors.
- HostRuns.CrashSurvivedIff: a failed cleanup keeps its mark until a later one succeeds, and a VM deleted while it is still being created counts as marked.
- CampaignHost.HidesAStartedRunIff: sample IDs are distinct over the whole plan, and a run counts as on the host from the launch of its batch.
- CampaignSessions.HidesARunIff: sample IDs within a launch group are distinct and the file starts with one record per sample, as the plan and the record command ensure.
- Comparisons, outliers and host counters of the report: read-only summaries.
- Campaign.Driver.ExecuteBatch: the launch of all samples of a batch is one effect; the captures while the runs are live are not modelled.
- Campaign.Driver.RunCampaign: the plan, attestation and storage checks before the loop and the choice of a single group are not modelled; an exception in the loop is a crash.
- Web application, CLI, packaging and deployment scripts: no algorithm with a property that spans calls.
