# Kivi: a model of its commit, storage and recovery protocols

Kivi is a sharded key-value store. Tablets hold ordered or hashed key ranges and are
replicated by Raft groups. This project models the parts of it where a mistake loses or
duplicates data, and proves what they keep over every run:

- **Two-phase commit driven by the client** (`TwoPhase`, `TwoPhaseRuns`, `TwoPhaseOnce`, `TwoPhaseDriver`): reservations on participants, a
  coordinator record written once under an Absent expectation, any number of drivers and
  re-drives, and a resolver, over a network that loses, repeats and delays every request.
- **Checkpoints and recovery** (`Bands`, `Recovery`, `Tracking`, `Reclaim`, `Publication`): 256 bands with a dirty bitset,
  incremental builds, publication on a disk that may lose power between any two steps,
  WAL reclamation, and restarts from the current or the retained previous checkpoint.
- **The chunk store** (`LittleEndian`, `Pack`, `Lane`, `ChunkStore`, `Reopen`, `CrashReopen`, `Gc`): the byte format of packs, torn-tail
  repair, staging, rotation, batched durability, reopening after a crash at any byte, and
  mark-based collection.
- **Scans across tablets** (`Keys`, `ScanClient`, `ScanServer`, `ScanRouting`, `ScanCluster`): the resumable cursor, the server's page, its
  routing and the two together, while tablets split, merge and go missing between pages.
- **Sessions and retries** (`Sessions`, `SessionRuns`, `Retry`): sequence allocation and the acknowledgement floor, the
  tablet's retained outcomes through batches, checkpoints and restarts, and the retry loop.
- **Almost-local reads, migration, routes and manifests** (`Alr`, `Migration`, `RouteCache`, `Manifest`).

`Options` holds the one type that several of them share.

Protocols are state machines over all their steps, and results are stated for every run or
every reachable state. Code that updates fields or loops is modelled by classes and methods
whose contracts tie it to those machines. What the environment decides (network fates,
crash images, schedules, budgets, hashes and checksums) is a parameter and is never
restricted beyond what is said in a contract.

## Where the code and its documentation differ

The model follows the code. Where a documented promise does not hold, there is a run that
breaks it and, beside it, the exact condition under which it does hold.

- The resolver may reap a decide reservation whose lease ran out, and discards a reservation whose record no tablet owns without
  any decision. A commit finalize drops a foreign reservation before it answers with an error, and an add whose object expired
  is dropped after its commit. A single decision is lost exactly with the first, all-or-nothing with the first or the second, and
  a committed key through any of the four (`TwoPhaseRuns.AtomicityIff`).
- A reservation does not keep its key from expiring, so the version that was validated need not be the one a commit meets
  (`TwoPhaseRuns.ExpiryUnpins`, `TwoPhaseRuns.ValidatedIff`).
- A commit finalize writes without looking for its reservation, so a second finalize wave is not a no-op; and the versions of a key
  restart once it was deleted or expired, so an exact expectation can hold again. A key is applied at most once exactly when
  neither happens and the write expects one exact version (`TwoPhaseOnce.AppliedOnceIff`, `TwoPhaseOnce.RestartedAppliesTwice`).
- Dirty tracking restarts clean after replay, and a capture takes the dirty bits even when its build fails.
  Either way the next incremental checkpoint can carry a stale band
  (`Tracking.ReplayedTailIsLost`, `Tracking.FailedBuildIsLost`, `Tracking.TrackingIff`).
- Rotation does not sync the pack it seals, while the next sync advances the durable generation past the
  records left there. What is called durable can be lost, or the lane refuses to open
  (`CrashReopen.SealedDirtyLosesDurable`, `CrashReopen.EveryCrashReopensIff`, `Lane.DurabilityIff`). Reopening after the process
  alone stopped has the same effect (`CrashReopen.RestartedDirtyLosesDurable`).
- Staging accepts a body over the reader's cap. Reopening truncates the active pack there, so the durable records behind it are
  lost with it, and refuses a sealed one (`Pack.OversizeEndsThePack`, `CrashReopen.ShadowedIsLost`, `CrashReopen.WholeReopensIff`).
- A pack proposed for deletion can answer an upload that starts after the plan
  (`Gc.LateDedupIsStranded`, `Gc.CollectionIff`).
- A tablet's scan page looks one key past its item budget, counting hidden keys. With a hidden key among
  the first ones a page not cut by its bytes calls itself exhausted while visible keys remain, and the client's scan omits them
  (`ScanCluster.BlockedScanOmits`, `ScanCluster.EveryScanExactIff`, `ScanServer.TruthfulIff`).
- A gap without a bound in the direction of the scan is asked for again without end: a reverse scan without a start over tablets
  that all start above the first key never returns, and neither does a forward scan without an end over tablets that all end
  (`ScanCluster.UnanchoredScanRunsForEver`, `ScanCluster.ScanEndsIff`).
- A gap page moves the cursor without comparing it with the far bound, so the next request may be refused as
  an empty window: such a scan ends with an error, not with a wrong answer (`ScanCluster.ClusterScanIsExact`).
- The band and dedup stores are shared by the tablets of a node, but publishing one tablet removes what its own two checkpoints do
  not reference (`Publication.PublishLosesANeighbour`, `Publication.SharedSweepIff`).
- Two identities of one session in one batch can leave an outcome at the floor, and then the
  checkpoint builder refuses the tablet (`SessionRuns.CheckpointRefused`, `SessionRuns.CheckpointTakenIff`, `Sessions.WellFormedIff`).
- Resuming an identity at or below the floor is refused for good, even one that never
  executed (`SessionRuns.AdoptedExpiresIff`).
- A mutating call whose connections broke after sending reports that all members failed, and one that met silence and was then
  bounced past its budget reports too many redirects, as if nothing had been delivered (the last clauses of `Retry.Execute`).
- A read that joins a batch after its fence took a log slot, or a batch answered by a member that lags, can miss a
  completed write (`Alr.LateJoinerIsStale`, `Alr.LaggingAnswerIsStale`, `Alr.LinearizesIff`).
- The reconciler asks for the phase change Ready to Committed, which the control state always refuses. A plan whose
  membership change went through without its phase write never completes
  (`Migration.LostPhaseWriteStrands`, `Migration.StrandsIff`, `Migration.CompletesIff`).
- A valid manifest may end in an entry longer than its chunk size (`Manifest.LongLastEntryIsValid`, `Manifest.ValidIsSplitIff`).
- The route cache keeps one route per point, but versions can fall through a gap or an
  overlapping eviction (`RouteCache.GapLetsAnOlderRouteIn`, `RouteCache.EvictionBringsAnOlderRouteBack`); exactly when, say
  `RouteCache.InsertKeepsCoverIff` and `RouteCache.RunNeverLowersIff`.

## Model

| member | source | states |
|---|---|---|
| TwoPhaseRuns.AtomicityIff | crates/kivi-client/src/ordered.rs:892-1191 | Over every run of every write set (lost, repeated, late and blind requests, any number of drivers, the resolver, deletes and expiry): a record is decided once, and an abort lasts, if and only if no decide reservation is reaped; no key is applied beside a discarded one if and only if besides no reservation is discarded for a record without a home; every committed key stays reserved or applied if and only if besides no finalize meets a foreign reservation and no key expires |
| TwoPhaseRuns.UnreapedRunsAreAtomic | crates/kivi-client/src/ordered.rs:975-1191 | Every run without reaping ends in the core invariant with a single decision, whatever finalizes come late or find their reservation gone and whatever is deleted or expires; without discards for homeless records it is also all or nothing |
| TwoPhaseRuns.TameRunsAreSafe | crates/kivi-client/src/ordered.rs:975-1191 | Every run without reaping, discards for homeless records and finalizes on foreign reservations, in which no key that a write needs present expires, ends in the whole invariant, committed keys held |
| TwoPhase.StepKeeps | crates/kivi-state/src/store.rs:2858-3042 | Each server step, send, read, local write, delete, expiry and delivery of such a deployment keeps the whole invariant |
| TwoPhase.CoreKeeps | crates/kivi-state/src/store.rs:2858-3042 | Every step of a deployment without reaping keeps the core: records, decisions and applied writes agree, late and blind finalizes, deletes and expiry included |
| TwoPhase.DiscardKeeps | crates/kivi-server/src/control.rs:592-805 | Where no reservation is discarded for a homeless record, every step keeps discards and abort finalizes under a decided abort |
| TwoPhase.HoldKeeps | crates/kivi-state/src/store.rs:2953-3042 | Without late finalizes, and while every key that a reserved write needs is there, every step leaves a prepared key reserved until it is applied or its transaction is decided to abort |
| TwoPhase.RunKeepsPin | crates/kivi-state/src/store.rs:2858-3042 | In every run in which no key expires a reserved key is still at the version its prepare validated, which meets the expectation, deletes included |
| TwoPhase.PrepareKeeps | crates/kivi-state/src/store.rs:2858-2929 | A prepare, accepted or refused, leaves every decision and outcome as it was |
| TwoPhase.FinalizeKeeps | crates/kivi-state/src/store.rs:2953-3042 | A finalize applies only under a decided commit, whoever holds the reservation it meets and whether or not the key is still there |
| TwoPhase.FinalizeHolds | crates/kivi-state/src/store.rs:2953-3042 | A finalize that meets no foreign reservation and, where the write needs it, a key that is there, leaves every prepared key reserved, applied or abort-decided |
| TwoPhase.DecidePrepareKeeps | crates/kivi-client/src/ordered.rs:1162-1191 | The Absent-guarded prepare of a record is answered only while no other decision is reserved or durable |
| TwoPhase.DecideFinalizeKeeps | crates/kivi-client/src/ordered.rs:1162-1191 | Writing a record under its own reservation never replaces a different decision |
| TwoPhase.InvIsSafe | crates/kivi-client/src/ordered.rs:1044-1156 | The invariant implies a single decision per transaction, all or nothing, and committed keys held |
| TwoPhase.RunKeeps | crates/kivi-client/src/ordered.rs:892-939 | Any legal run of such a deployment from an invariant state ends in one |
| TwoPhaseRuns.ReapingFlipsTheRecord | crates/kivi-server/src/control.rs:592-805 | If a decide reservation may be reaped there are runs in which a record is decided twice, a committed key is not held, a discarded key is applied and an abort does not last |
| TwoPhaseRuns.LateFinalizeStripsAReservation | crates/kivi-state/src/store.rs:2953-3042 | If a finalize may meet a foreign reservation there is a run in which a committed transaction has lost its reservation unapplied |
| TwoPhaseRuns.CommitAppliesValidatedVersion | crates/kivi-client/src/ordered.rs:975-1037 | When a commit finalize can first apply a key, the key is still reserved for it at exactly the validated version, which meets the expectation, as long as nothing expires and either finalizes look for their reservation or none is lost |
| TwoPhaseRuns.ValidatedIff | crates/kivi-state/src/store.rs:432-436 | Over every run: reserved keys keep the version their prepare validated if and only if keys do not expire; a first application meets that version if and only if besides finalizes look for their reservation, or nothing is reaped, late or homeless |
| TwoPhaseRuns.ExpiryUnpins | crates/kivi-state/src/store.rs:432-436 | If keys expire there are runs in which a reserved key is at another version than the validated one, and in which a committed add finds no object and is lost |
| TwoPhaseRuns.DisownedReservationIsLost | crates/kivi-server/src/control.rs:609-624 | If a reservation may be discarded because no tablet owns its record there are runs in which a committed key is not held and a discarded key is applied |
| TwoPhaseRuns.AbortIsFinal | crates/kivi-client/src/ordered.rs:1431-1514 | Once an abort is decided, no key of the transaction is applied in any continuation of a run without reaping |
| TwoPhaseOnce.AppliedOnceIff | crates/kivi-state/src/store.rs:2953-3042 | For every plan, transaction and key: the key is applied at most once in every run if and only if the transaction can never commit, or finalizes apply only under their own reservation, versions never restart (no delete, no expiry) and the write expects one exact version |
| TwoPhaseOnce.BlindAppliesTwice | crates/kivi-state/src/store.rs:2953-3042 | For every key of every transaction that can commit there is a run in which a finalize delivered again applies again, once the reservation need not be there |
| TwoPhaseOnce.RepreparedAppliesTwice | crates/kivi-state/src/store.rs:2858-2929 | For every unconditional key of every transaction that can commit a delayed prepare reserves it again, and even a guarded finalize applies it again |
| TwoPhaseOnce.RestartedAppliesTwice | crates/kivi-state/src/store.rs:4535-4543 | For every key of every transaction that can commit, one with an exact expectation included, a delete or an expiry lets the expected version come back, and a delayed prepare and a guarded finalize apply it again |
| TwoPhaseRuns.RefusedAbortMayStillCommit | crates/kivi-client/src/ordered.rs:1462-1514 | There is a run in which an abort decide is refused, no record exists, and the transaction later commits |
| TwoPhaseDriver.PrepareWave | crates/kivi-client/src/ordered.rs:975-1037 | The prepared list is a prefix of the keys, each really reserved when answered; a full result means all keys; on a clear, calm network it is always full |
| TwoPhaseDriver.DecideRecord | crates/kivi-client/src/ordered.rs:1162-1191 | A reported decision was applied by the server; on a calm network an undecided record is always decided |
| TwoPhaseDriver.ReadTxnRecord | crates/kivi-client/src/ordered.rs:1342-1355 | A record that is found was really seen, and on a calm network exactly the stored record is returned |
| TwoPhaseDriver.FinalizeAll | crates/kivi-client/src/ordered.rs:1364-1425 | Success means every key acknowledged its commit; on a calm network without foreign reservations it always succeeds |
| TwoPhaseDriver.FinalizeAbortDurable | crates/kivi-client/src/ordered.rs:1527-1561 | On a calm network the discard is acknowledged and only the one reservation is gone |
| TwoPhaseDriver.AbortOrCommit | crates/kivi-client/src/ordered.rs:1431-1514 | Success is only reported when every key acknowledged a commit that won the race |
| TwoPhaseDriver.Drive | crates/kivi-client/src/ordered.rs:892-939 | The executed steps are a legal path of the protocol; success means all keys acknowledged their commit, an abort means the abort record was read, and a clear, calm network always succeeds |
| TwoPhaseDriver.DriveIsTruthful | crates/kivi-client/src/ordered.rs:1044-1156 | Whatever everybody does before, during and after in a deployment without reaping, a drive that reported success has every key applied, and one that reported an abort has none applied, ever |
| TwoPhaseDriver.CommitNeverBlocks | crates/kivi-client/src/ordered.rs:1406-1425 | At the end of every run of a deployment that holds its commits, each key of a commit that was seen is applied, or still reserved for it and applied by its next finalize |
| TwoPhaseDriver.DeliveredFinalizeApplies | crates/kivi-client/src/ordered.rs:1364-1425 | In every run of such a deployment, every commit finalize that is ever delivered leaves its key applied, whatever else happens before and after |
| TwoPhaseDriver.CommitConverges | crates/kivi-client/src/ordered.rs:1406-1425 | From any state of such a deployment after the commit record is durable, a finalize wave over the keys not yet applied exists and leads to a state with every key applied |
| Bands.BandOf | crates/kivi-checkpoint/src/layout.rs:110-117 | Every key falls in one of the 256 bands |
| Bands.BandDirty.Mark | crates/kivi-checkpoint/src/layout.rs:138-143 | Adds exactly the named band to the dirty set |
| Bands.BandDirty.Bits | crates/kivi-checkpoint/src/layout.rs:145-163 | The captured bits are exactly the dirty set |
| Bands.BandDirty.Clear | crates/kivi-checkpoint/src/layout.rs:166-170 | No band stays dirty |
| Bands.BuildBandExact | crates/kivi-checkpoint/src/band.rs:179-270 | A band builds exactly when its keys are distinct, and then holds exactly the given records in strict order |
| Bands.LoadBand | crates/kivi-checkpoint/src/band.rs:276-496 | A stored band is accepted exactly when it is in strict order, and is returned unchanged |
| Bands.EachKeyOnce | crates/kivi-checkpoint/src/layout.rs:110-117 | In well-placed bands no key appears twice, in one band or across bands |
| Bands.GroupByBand | crates/kivi-checkpoint/src/builder.rs:173-189 | Grouping gives each band exactly its records, in order |
| Bands.BuildTablet | crates/kivi-checkpoint/src/builder.rs:147-269 | Every band of the result is the reused one or the freshly built one, and the build fails only if a band fails |
| Bands.BuiltIsWellPlaced | crates/kivi-checkpoint/src/builder.rs:196-269 | A checkpoint built over a well-placed one is well placed |
| Bands.BuiltHolds | crates/kivi-checkpoint/src/builder.rs:196-269 | A record is in the built checkpoint exactly if it is in the base for a reused band and in the snapshot otherwise |
| Bands.IncrementalExactIff | crates/kivi-checkpoint/src/builder.rs:147-269 | An incremental checkpoint holds exactly the snapshot if and only if every record that differs from the base lies in a dirty band |
| Bands.FirstIsExact | crates/kivi-checkpoint/src/builder.rs:147-269 | A first checkpoint holds exactly the snapshot, whatever the dirty bits |
| Recovery.NoCommittedRecordIsLost | crates/kivi-checkpoint/src/load.rs:50-101 | Over every run of commits, seals, captures, publishes, failed builds, restarts and reclamations on any number of tablets and lanes, both retained checkpoints are exact at every point if and only if every publish covers what changed, and then recovery from either of them and the records the kept segments store gives the full committed state |
| Recovery.RunExactIff | crates/kivi-checkpoint/src/publish.rs:72-91 | The same equivalence from any state of the invariant, which then holds at the end |
| Recovery.StepKeepsIff | crates/kivi-engine/src/checkpoint.rs:468-540 | Every step keeps the invariant, a publish exactly when its dirty bands cover the changes |
| Recovery.BuiltExactIff | crates/kivi-checkpoint/src/builder.rs:147-269 | Published content equals the captured state if and only if every changed object lies in a captured dirty band |
| Recovery.InvIsLossless | crates/kivi-checkpoint/src/load.rs:50-101 | In every state of the invariant, loading the current or the previous checkpoint and replaying the stored records up to the highest kept position gives the committed state |
| Recovery.ReplayReachesTheEnd | crates/kivi-engine/src/engine.rs:1452-1620 | Replaying the stored records above a cut up to the highest kept position meets no chain break and gives the committed state |
| Recovery.RunIsFaithful | crates/kivi-engine/src/engine.rs:1452-1620 | In every run, covering or not, every stored record is the one its tablet committed at that position |
| Recovery.HighestIsLast | crates/kivi-engine/src/engine.rs:1452-1620 | The highest kept position never passes the committed history, and is its end as soon as the last record is kept |
| Recovery.ReclaimKeeps | crates/kivi-checkpoint/src/reclaim.rs:63-129 | Reclaiming covered segments drops no record that a retained checkpoint still needs |
| Recovery.RestartKeeps | crates/kivi-engine/src/engine.rs:1249-1360 | A restart from either checkpoint resumes with the committed state |
| Recovery.PublishKeepsContentIff | crates/kivi-checkpoint/src/publish.rs:72-198 | A publish keeps all retained checkpoints exact if and only if it covers the changes |
| Tracking.TrackingIff | crates/kivi-engine/src/tablet.rs:1034-1071 | Over every run from a fresh node, the dirty bits name exactly the bands touched since the installed cut at every point if and only if every restart replays nothing and every failed build leaves its captured bands dirty |
| Tracking.StepTracksIff | crates/kivi-engine/src/engine.rs:1214-1220 | One step keeps that exactness if and only if it is such a step |
| Tracking.CarefulRunsAreLossless | crates/kivi-engine/src/tablet.rs:414-445 | Every run of such steps is lossless and its checkpoints exact |
| Tracking.TrackedCovers | crates/kivi-engine/src/tablet.rs:1034-1071 | Exact tracking makes every publish cover the changes |
| Tracking.ReplayedTailIsLost | crates/kivi-engine/src/engine.rs:1214-1220 | There is a run with one replayed tail after which recovery returns an older committed value |
| Tracking.FailedBuildIsLost | crates/kivi-engine/src/checkpoint.rs:468-540 | There is a run with one failed build after which recovery returns an older committed value |
| Tracking.BuildRefinesIncremental | crates/kivi-checkpoint/src/builder.rs:147-269 | The band files built hold exactly the records of the recovery machine's incremental content |
| Tracking.Restore | crates/kivi-engine/src/tablet.rs:1078-1103 | Restoring loaded bands holds exactly their records |
| Reclaim.SegmentCovered | crates/kivi-checkpoint/src/reclaim.rs:138-154 | The max-per-tablet loop answers exactly whether every record is at or below its tablet's floor |
| Reclaim.PlanLane | crates/kivi-checkpoint/src/reclaim.rs:63-129 | Exactly the obsolete segments before the first that must stay are planned, and the floor names that one |
| Reclaim.PlanIsSafe | crates/kivi-checkpoint/src/reclaim.rs:63-129 | Carrying out any plan made from the promises in force is a reclamation step of the machine and loses nothing |
| Publication.CheckpointStore.PublishTablet | crates/kivi-checkpoint/src/publish.rs:72-198 | Every disk state on the way is safe with CURRENT old or new; success installs exactly the new record over its predecessor; afterwards nothing remains but what the record needs and what could not be removed; it fails only for a cut that moves backwards or a reused band that is missing or of another length |
| Publication.TrailSurvivesCrashes | crates/kivi-checkpoint/src/publish.rs:72-198 | A crash in any of those states, with each unsynced name in either view, finds CURRENT old or new and every artifact of it and of its retained previous under its content hash |
| Publication.SafeIsCrashSafe | crates/kivi-checkpoint/src/publish.rs:205-224 | A safe disk loads completely after every crash |
| Publication.CheckpointStore.Stage | crates/kivi-checkpoint/src/publish.rs:96-176 | When staging succeeds the new checkpoint is complete and durable while CURRENT is untouched |
| Publication.CheckpointStore.WriteBands | crates/kivi-checkpoint/src/publish.rs:105-139 | Success means every band is there under its hash; failure names a reused band that is missing or of another length |
| Publication.CheckpointStore.InstallCurrent | crates/kivi-checkpoint/src/publish.rs:179-194 | The record becomes current and durable through safe states only |
| Publication.CheckpointStore.SweepDir | crates/kivi-checkpoint/src/publish.rs:351-375 | Whatever files the file system refuses to remove, exactly those and the referenced ones stay, every state on the way is safe, and the result is durable when the directory syncs |
| Publication.CheckpointStore.SweepUnreferenced | crates/kivi-checkpoint/src/publish.rs:307-348 | Keeps in each store what the current and previous manifests reference and what could not be removed, through safe states only |
| Publication.SharedSweepIff | crates/kivi-checkpoint/src/publish.rs:307-348 | Another tablet over the same band and dedup stores, safe before, loads its current and previous checkpoint after every crash if and only if everything they need is needed by the published record too, or could not be removed |
| Publication.PublishLosesANeighbour | crates/kivi-checkpoint/src/publish.rs:307-375 | Two tablets with a checkpoint each: publishing the first leaves the second unable to load after a crash |
| LittleEndian.LeRoundTrip | crates/kivi-chunk/src/pack.rs:146-183 | A value below 256 to the width is read back from its bytes |
| Pack.TornTailRepair | crates/kivi-chunk/src/pack.rs:450-559 | For every pack of in-bound records and a cut at any byte: inside the header an active scan finds nothing and a sealed one refuses; past it an active scan keeps the longest complete prefix, and a sealed scan accepts exactly on a record boundary |
| Pack.RescanIsClean | crates/kivi-chunk/src/store.rs:119-177 | Truncating to what the scan kept and scanning again, active or sealed, finds the same records and nothing to repair |
| Pack.ScanPack | crates/kivi-chunk/src/pack.rs:450-559 | The loop returns exactly what the recursive scan of the whole file does, on any bytes |
| Pack.TakesComplete | crates/kivi-chunk/src/pack.rs:330-435 | A complete in-bound record is taken whole, whatever follows it |
| Pack.TornIncomplete | crates/kivi-chunk/src/pack.rs:450-559 | A record cut at any byte reads as a torn tail |
| Pack.HeaderDecodes | crates/kivi-chunk/src/pack.rs:248-312 | The header of an in-bound record decodes to its own kind, identity and lengths |
| Pack.PackHeaderDecodes | crates/kivi-chunk/src/pack.rs:189-245 | A pack header is accepted for its own lane and sequence |
| Pack.FittingIsMaximal | crates/kivi-chunk/src/pack.rs:450-559 | The kept prefix fits and one record more does not |
| Pack.OversizeIsUnreadable | crates/kivi-chunk/src/store.rs:427-466 | A staged body over the cap is refused by every scan as too large, whatever follows it |
| Pack.OversizeEndsThePack | crates/kivi-chunk/src/pack.rs:450-559 | The scan of a pack with such a record keeps exactly the records before the first one: an active pack is truncated there, with the number of bytes cut, and a sealed one is refused as too large |
| Pack.CutReadsPrefix | crates/kivi-chunk/src/pack.rs:450-559 | Of records of any size cut at any byte, a scan returns only leading records within the cap, and the scan of an active pack never fails |
| Lane.DurabilityIff | crates/kivi-chunk/src/store.rs:427-546 | Over every run of staging, sealing, syncing, deleting, crashing and restarting a new lane, everything indexed is readable, everything called durable is on disk and only the active pack has unsynced records at every point, if and only if no rotation or restart happens with unsynced records and no body over the cap is staged |
| Lane.DurableIsKept | crates/kivi-chunk/src/store.rs:427-560 | An address reported durable keeps its record, on disk, through every later stage, seal, sync, crash and restart of a disciplined run whose deletes spare its pack |
| Lane.DurableForever | crates/kivi-chunk/src/store.rs:427-560 | The same over every disciplined run of a new lane, from the moment the address is reported durable |
| Lane.RunSoundIff | crates/kivi-chunk/src/store.rs:427-546 | The same equivalence from any sound lane |
| Lane.StepSoundIff | crates/kivi-chunk/src/store.rs:529-542 | One step keeps a sound lane sound exactly when it is disciplined |
| Lane.SyncMakesDurable | crates/kivi-chunk/src/store.rs:529-542 | After a sync every indexed address is called durable, and in a sound lane every record is on disk |
| Lane.RotateSoundIff | crates/kivi-chunk/src/store.rs:733-750 | A rotation keeps a lane sound exactly when nothing was unsynced |
| Lane.StepKeeps | crates/kivi-chunk/src/store.rs:656-750 | Every step keeps each address indexed at its one record and each pack within its size bound |
| ChunkStore.ChunkStore.Rotate | crates/kivi-chunk/src/store.rs:733-750 | The files and index still hold exactly the lane with a fresh active pack |
| ChunkStore.ChunkStore.AppendRecord | crates/kivi-chunk/src/store.rs:717-729 | Rotates exactly on overflow, and the bytes appended are the record's |
| ChunkStore.ChunkStore.Stage | crates/kivi-chunk/src/store.rs:427-519 | Refuses a false identity, answers a known address without writing, appends otherwise; the durable flag is the generation test |
| ChunkStore.ChunkStore.Sync | crates/kivi-chunk/src/store.rs:529-542 | Syncs the active pack only, and moves the durable generation over everything staged |
| ChunkStore.ChunkStore.SealActive | crates/kivi-chunk/src/store.rs:641-646 | Rotates unless the active pack is empty |
| ChunkStore.ChunkStore.Read | crates/kivi-chunk/src/store.rs:572-633 | An indexed address returns the bytes it identifies, verified at its offset, unless the body is over the cap; an unknown one is missing |
| ChunkStore.ChunkStore.DeletePacks | crates/kivi-chunk/src/store.rs:656-697 | Deletes all named packs and their index entries, or stops at the active one with the earlier files gone and the index unchanged |
| Reopen.Recover | crates/kivi-chunk/src/store.rs:267-364 | Opening succeeds exactly when every file up to the newest headed one is accepted; the index holds each address at its oldest copy and byte offset, and each file is cut to what its scan kept |
| Reopen.DropHeaderless | crates/kivi-chunk/src/store.rs:47-68 | Finds the newest pack with a complete header, with only shorter files above it |
| Reopen.IndexPack | crates/kivi-chunk/src/store.rs:300-325 | Indexes each record of a pack unless an older copy is indexed |
| CrashReopen.EveryCrashReopensIff | crates/kivi-chunk/src/store.rs:267-364 | Every crash image of any reachable lane, each pack cut anywhere past its synced bytes, reopens if and only if every pack but the active one is synced and holds only records within the cap, and the active one is within the size limit |
| CrashReopen.ShadowedIsLost | crates/kivi-chunk/src/store.rs:267-364 | Whatever crash image of a lane is reopened, no address at or behind a record over the cap of its pack is found again, durable or not |
| CrashReopen.WholeReopensIff | crates/kivi-chunk/src/store.rs:267-364 | Reopening files from which no byte was lost finds an address again if and only if no record over the cap is at or before it in its pack |
| CrashReopen.ReopenedIsCrashed | crates/kivi-chunk/src/store.rs:119-177 | What reopening rebuilds from any crash image is the lane itself, cut back to the records that survived |
| CrashReopen.DurableReopens | crates/kivi-chunk/src/store.rs:267-364 | Whatever a sound lane calls durable is found again, same address and same bytes, by reopening from the files any crash leaves |
| CrashReopen.OpenAfterCrash | crates/kivi-chunk/src/store.rs:267-364 | Opening the files any crash of a sound lane left never fails, and gives a sound store over the survivors |
| CrashReopen.SealedDirtyLosesDurable | crates/kivi-chunk/src/store.rs:733-750 | For every sound lane with unsynced records, sealing and syncing calls durable an address that a crash then takes |
| CrashReopen.RestartedDirtyLosesDurable | crates/kivi-chunk/src/store.rs:338-364 | For every such lane, reopening without power loss calls durable an address that a crash then takes |
| Gc.Plan | crates/kivi-chunk/src/gc.rs:88-139 | Fails exactly when a live manifest is missing or unreadable; otherwise lists, in order, exactly the sealed packs that hold no pinned, live or named address |
| Gc.MarkChunks | crates/kivi-chunk/src/gc.rs:88-105 | Marks exactly the pinned chunks and those that live manifests name |
| Gc.CollectionIff | crates/kivi-chunk/src/gc.rs:15-31 | After any run of staging, sealing and syncing, deleting the planned packs removes exactly the addresses that they held at planning time |
| Gc.CollectionKeepsRoots | crates/kivi-chunk/src/gc.rs:15-31 | Every address the plan could reach keeps its entry and its bytes |
| Gc.LateDedupIsStranded | crates/kivi-chunk/src/store.rs:435-444 | An upload after the plan that is answered from a planned pack loses its address |
| Manifest.ValueRoundTrip | crates/kivi-chunk/src/manifest.rs:71-143 | For any value, chunk size up to 2^32 - 1 and at most 65,535 pieces, splitting, building, encoding and decoding returns the same manifest and its pieces join to the value |
| Manifest.DecodesCanonical | crates/kivi-chunk/src/manifest.rs:222-311 | Every valid manifest is decoded from its own canonical bytes |
| Manifest.DecodedIsCanonical | crates/kivi-chunk/src/manifest.rs:222-311 | Accepted bytes are the canonical bytes of the valid manifest they decode to |
| Manifest.DecodeManifest | crates/kivi-chunk/src/manifest.rs:222-311 | The cursor loop accepts and returns exactly what the decoding function does, on any bytes |
| Manifest.EncodeCanonical | crates/kivi-chunk/src/manifest.rs:71-86 | Appending field by field gives the canonical bytes |
| Manifest.ValidateEntries | crates/kivi-chunk/src/manifest.rs:145-188 | With its overflow check, the loop accepts exactly the structurally valid lists |
| Manifest.ValidIsSplitIff | crates/kivi-chunk/src/manifest.rs:145-188 | A valid entry list is a split of its value exactly when its last entry is no longer than a chunk |
| Manifest.LongLastEntryIsValid | crates/kivi-chunk/src/manifest.rs:145-188 | A one-entry list with a length over the chunk size is valid and is no split |
| Manifest.SplitLengths | crates/kivi-chunk/src/policy.rs:97-116 | The pieces sum to the length, all but the last are full and none is empty or longer than full |
| Manifest.SplitIsUnique | crates/kivi-chunk/src/policy.rs:97-116 | No other list of lengths is such a split |
| Keys.SuccessorIsLeast | crates/kivi-client/src/ordered.rs:249-253 | Exactly the key and what is below it are below its successor |
| ScanClient.Scan | crates/kivi-client/src/ordered.rs:388-438 | Whatever tablets, gaps, stale cursors and budgets the pages come from, an answer is the keys of the range in order, each once, cut to the limit; with fixed tablets and no failure there is one within a request per key and boundary |
| ScanClient.ScanIsExact | crates/kivi-client/src/ordered.rs:388-438 | Over honest pages from any tablets, with restarts of stale cursors, whatever is returned is the wanted keys cut to the limit, from every point of the scan |
| ScanClient.ScanEnds | crates/kivi-client/src/ordered.rs:476-534 | With fixed boundaries, jumpable gaps and no failure, one request per key and boundary still to pass is enough |
| ScanClient.ScanCursor.Advance | crates/kivi-client/src/ordered.rs:476-534 | The cursor ends the scan exactly on an exhausted page that reaches the far bound; past an honest page it stands exactly its entries further, and it is done only where nothing of the range is left |
| ScanClient.PageDelivered | crates/kivi-client/src/ordered.rs:446-471 | One honest page delivers exactly the next keys of the scan |
| ScanClient.LeftShrinks | crates/kivi-client/src/ordered.rs:476-534 | On fixed tablets every page leaves fewer keys and boundaries |
| ScanServer.ScanRange | crates/kivi-state/src/store.rs:4139-4245 | The page is the visible keys among its candidates in order, cut by the item or byte budget with its last entry before the last candidate; it claims exhaustion if and only if its candidates are within the item budget or hide a key, and no value but the first would overrun the bytes charged before it |
| ScanServer.TruthfulIff | crates/kivi-state/src/store.rs:4139-4245 | A page, of keys or of keys and values, lies about being exhausted exactly over a window with a hidden key among its first keys, a visible one beyond its candidates, and values within the byte budget |
| ScanRouting.HandleScan | crates/kivi-server/src/compound.rs:36-99 | For every directory of disjoint tablets that hold the data, gaps included, and either direction, the answer is the routed tablet's page over its clamped slice, a gap with the nearest bounds, or an error exactly for empty budgets, empty windows and a reverse scan without tablets; it is honest if and only if the page tells the truth about being exhausted |
| ScanRouting.ScanTablet | crates/kivi-server/src/compound.rs:102-176 | The page over a tablet's clamped slice is honest for the whole window if and only if its claim to be exhausted is true |
| ScanRouting.AnswerHonestIff | crates/kivi-server/src/compound.rs:36-176 | The same equivalence for every answer the server may give, gaps and refusals included |
| ScanRouting.Route | crates/kivi-server/src/compound.rs:232-290 | A forward cursor is routed to its holder, a reverse cursor to the tablet that holds it past its start or else to the greatest start below |
| ScanRouting.Previous | crates/kivi-server/src/compound.rs:259-290 | Finds the greatest start below the bound, or none exactly when there is none |
| ScanRouting.GapBounds | crates/kivi-server/src/compound.rs:316-353 | Finds the nearest start above the cursor, and the greatest end at or below it |
| ScanRouting.GapHoldsNothing | crates/kivi-server/src/compound.rs:316-353 | No data lies between the cursor and the next tablet |
| ScanRouting.PreviousReaches | crates/kivi-server/src/compound.rs:259-274 | No data lies between the previous tablet's end and the bound |
| ScanRouting.ForwardPageIsHonest | crates/kivi-server/src/compound.rs:102-176 | A truthful slice of the tablet that holds the cursor is an honest forward page |
| ScanRouting.ReversePageIsHonest | crates/kivi-server/src/compound.rs:102-176 | A truthful slice of the previous tablet is an honest reverse page |
| ScanCluster.EveryScanExactIff | crates/kivi-state/src/store.rs:4139-4245 | Over one layout every scan of every range and limit that answers, of keys or of keys and values, is exact, if and only if no tablet has a hidden key that a page can meet among its first keys, without being cut by its bytes, with a visible key beyond its candidates |
| ScanCluster.ClusterScanIsExact | crates/kivi-client/src/ordered.rs:388-438 | Client and server together: tablets may split, merge and leave gaps between any two pages, and an answer is exactly the visible keys of the range as long as no layout has such a hidden key |
| ScanCluster.BlockedScanOmits | crates/kivi-state/src/store.rs:4139-4245 | For every such hidden key there is a scan that answers without a visible key of its range |
| ScanCluster.ScanEndsIff | crates/kivi-client/src/ordered.rs:476-534 | Over a fixed layout an unlimited scan ends with its answer within one request per key and boundary if and only if some tablet reaches the far end of its range |
| ScanCluster.UnanchoredScanRunsForEver | crates/kivi-server/src/compound.rs:316-353 | A reverse scan without a start over tablets that all start above the first key, or a forward scan without an end over tablets that all end, asks for ever |
| Sessions.SeqState.Alloc | crates/kivi-client/src/lib.rs:1135-1155 | A fresh identity above every earlier one and above the floor it carries |
| Sessions.SeqState.Adopt | crates/kivi-client/src/lib.rs:1167-1188 | Keeps the floor below every live identity exactly when the resumed sequence is above the floor |
| Sessions.SeqState.Complete | crates/kivi-client/src/lib.rs:1194-1204 | Moves the floor over everything issued that is no longer in flight, and no further |
| Sessions.SessionDedup.AdvanceFloor | crates/kivi-engine/src/tablet.rs:227-232 | The floor only rises: what was expired stays expired, and every retained outcome above the acknowledgement is answered as before |
| Sessions.SessionDedup.Commit | crates/kivi-engine/src/tablet.rs:740-785 | The tablet goes on remembering every identity it executed, and no retry of the committed one is ever admitted again: it is expired or gets this commit |
| Sessions.SessionDedup.Restore | crates/kivi-engine/src/tablet.rs:1078-1103 | Restoring a checkpoint and replaying the tail gives the very state the log defines |
| Sessions.AdmitIsFresh | crates/kivi-engine/src/tablet.rs:573-600 | An identity the gate admits has never executed on this log |
| Sessions.HitIsItsOwn | crates/kivi-engine/src/tablet.rs:573-600 | A retry answered from retained outcomes gets the outcome of its own commit |
| Sessions.WellFormedIff | crates/kivi-checkpoint/src/dedup.rs:139-156 | The state a log defines is one the checkpoint builder accepts if and only if each identity was committed above every acknowledgement before it, or its own or a later commit acknowledges more than those did |
| SessionRuns.AtMostOnce | crates/kivi-engine/src/tablet.rs:573-600 | Over every run, with duplicate, late and stray messages, open batches that persist or fail, checkpoints and restarts, no identity executes twice |
| SessionRuns.RestartIsInvisible | crates/kivi-engine/src/tablet.rs:870-937 | A restart leaves exactly the state that persisting or dropping the open batch would |
| SessionRuns.LiveRetryNeverExpires | crates/kivi-client/src/lib.rs:1135-1204 | In every run whose resumed identities start above the floor, no transmission of a live identity is refused as expired |
| SessionRuns.LiveRetryIsAnswered | crates/kivi-engine/src/tablet.rs:573-600 | In every such run a retry of a live identity gets the outcome of its own commit if it executed, and is admitted otherwise unless the window is full |
| SessionRuns.AdoptedExpiresIff | crates/kivi-client/src/lib.rs:1167-1188 | Where the session is known, a resumed identity is refused as expired if and only if it is at or below the client's floor |
| SessionRuns.CheckpointRefused | crates/kivi-checkpoint/src/dedup.rs:139-156 | There is a run of a well-behaved session after which the tablet holds an outcome at its floor |
| SessionRuns.CheckpointTakenIff | crates/kivi-checkpoint/src/dedup.rs:139-156 | Over every run, a checkpoint is taken if and only if the tablet's log meets that condition |
| SessionRuns.AlwaysAcceptedIff | crates/kivi-checkpoint/src/dedup.rs:139-156 | In a session that resumes above its floor, the state is acceptable after every commit if and only if no commit applied an identity at or below an acknowledgement applied before it |
| Retry.Execute | crates/kivi-client/src/lib.rs:1335-1706 | Against any replies over finitely many endpoints the call ends within a stated number of hops; all carry one identity and floor; each that is followed by another was refused, bounced, or failed where a retry is safe; nobody dead or silent is redialed; every progress redirect to an endpoint not dialed before is followed by the next hop; each outcome is justified by the hops made; a mutating call that reports "all failed" may have been executed if and only if a connection broke, and one that reports "too many redirects" if and only if one broke or stayed silent; a network that breaks every connection ends in "all failed", and one silence followed by bounces in "too many redirects" |
| Retry.React | crates/kivi-client/src/lib.rs:1469-1690 | One reply ends the call with the outcome it warrants, or strictly lowers the retrying left |
| Retry.Bounce | crates/kivi-client/src/lib.rs:1562-1690 | A redirect is followed exactly when it is progress, an endpoint is given up only after its streak, and less retrying is left |
| Retry.NextSeed | crates/kivi-client/src/lib.rs:1425-1436 | Finds an untried seed, and none only when all were tried |
| Alr.LinearizesIff | crates/kivi-consensus/src/alr.rs:130-222 | In every run each read sees every write completed before it began, if and only if no read joins a batch whose boundary lies below what is completed by then and no answer names less than is completed |
| Alr.LinearizableIff | crates/kivi-consensus/src/alr.rs:130-222 | One run is linearizable throughout if and only if no batch finishes in which such a join happened or a boundary was taken below what a member had seen completed, each told at the step that does it |
| Alr.EarlyJoinerSees | crates/kivi-consensus/src/alr.rs:141-222 | In every run, a read that registered before its batch's boundary took its slot is released and served with every write completed before it began |
| Alr.EveryWaiterIsReleased | crates/kivi-consensus/src/alr.rs:275-294 | When a batch finishes or fails nobody is left waiting, each member moves once and nobody else moves |
| Alr.BoundaryCovers | crates/kivi-consensus/src/node.rs:3086-3122 | A fence takes its slot behind everyone already in the batch, and an answer that names all completed writes covers them too |
| Alr.MarkIsBehind | crates/kivi-consensus/src/alr.rs:141-222 | The tainting steps seen so far tell exactly whether some member of the batch is behind its boundary |
| Alr.LateJoinerIsStale | crates/kivi-consensus/src/alr.rs:141-162 | Where late joins are allowed there is a run in which a read that joins after the fence misses a completed write |
| Alr.LaggingAnswerIsStale | crates/kivi-consensus/src/node.rs:3097-3108 | Where lagging answers are allowed there is a run in which a subsuming answer leaves the initiator behind a completed write |
| Alr.Coordinator.JoinBatch | crates/kivi-consensus/src/alr.rs:141-162 | Forms a batch with the next fence identity when none is in flight, and joins it otherwise |
| Alr.Coordinator.CompleteBatch | crates/kivi-consensus/src/alr.rs:275-294 | Wakes every waiter with the result, or cancels every one, and clears the batch |
| Migration.RetiresOnlyAfterHandover | crates/kivi-consensus/src/control.rs:291-467 | In every run with lost effects, lost phase writes, elections and open joint configurations, the source is retired and the plan completed only where the source does not vote, the target does and no joint configuration is open |
| Migration.CompletesIff | crates/kivi-control/src/migration.rs:48-61 | From every reachable state the plan can still complete if and only if it is not Ready with its change under way or through |
| Migration.StrandedForever | crates/kivi-server/src/control.rs:2880-2975 | Once there, no continuation ever leaves that state |
| Migration.LostPhaseWriteStrands | crates/kivi-server/src/control.rs:2912-2927 | From every ready plan whose source does not lead, one pass that loses its phase write leads there |
| Migration.UnstrandedCompletes | crates/kivi-consensus/src/control.rs:291-467 | From every other state a run to completion exists, by a falling rank: the existence half of the equivalence above |
| Migration.EnoughPassesComplete | crates/kivi-consensus/src/control.rs:291-467 | Every run that never strands and holds fourteen passes that do their work, led by another than the source with the target caught up, has completed the plan, whatever else happened in between |
| Migration.HelpfulPassLowers | crates/kivi-consensus/src/control.rs:291-467 | Every such pass in an unstranded state lowers the phases left |
| Migration.RankNeverRises | crates/kivi-control/src/migration.rs:48-61 | No step of any run sends a plan back to an earlier phase |
| Migration.StrandsIff | crates/kivi-server/src/control.rs:2912-2927 | A step strands the plan if and only if it changes the membership of a ready plan and loses the phase write |
| Migration.JointIsWaitedOut | crates/kivi-consensus/src/control.rs:303-309 | Over a joint configuration nothing but the same change is proposed, and no phase or replica moves |
| Migration.HandoffIsClosest | crates/kivi-consensus/src/control.rs:255-268 | The handoff goes to a retained voter within the lag bound that no other is closer than, the first of those in the desired order, and fails only without one |
| Migration.PlanWithoutItsTargetNeverRetires | crates/kivi-consensus/src/control.rs:412-431 | No run of a plan whose desired voters leave out a target that did not vote before commits, completes or retires anything, one that names the source alone included |
| Migration.StepKeeps | crates/kivi-consensus/src/control.rs:291-467 | Every pass, crash point and election keeps the voters at the old set, the joint one or the desired one, in step with the phase |
| RouteCache.OneRoutePerPoint | crates/kivi-client/src/route.rs:104-158 | Under every interleaving of atomic inserts and two-step evictions no point has two routes |
| RouteCache.Lookup | crates/kivi-client/src/route.rs:75-98 | Misses exactly uncovered points, and with disjoint ranges the first match is the only one |
| RouteCache.Insert | crates/kivi-client/src/route.rs:124-141 | The loops compute the specified vector: unchanged when stale, otherwise without overlaps and with the new route |
| RouteCache.LearnedRouteWins | crates/kivi-client/src/route.rs:124-141 | A learned route is the only route of every point of its range, and a stale one changes nothing |
| RouteCache.InsertNeverLowers | crates/kivi-client/src/route.rs:124-141 | No insert lowers the version of a point it leaves covered |
| RouteCache.InsertKeepsCoverIff | crates/kivi-client/src/route.rs:124-141 | An insert keeps every covered point covered exactly when each route it replaces lies within its range |
| RouteCache.CoveredPointIsMonotone | crates/kivi-client/src/route.rs:124-158 | Over every interleaving whose stores are fresh, inserts alone included, a point that stays covered never falls to a lower version |
| RouteCache.StepNeverLowersIff | crates/kivi-client/src/route.rs:147-158 | A step lowers no still-covered point if and only if it is not a store that filtered something out while a newer route overlaps one it puts back |
| RouteCache.RunNeverLowersIff | crates/kivi-client/src/route.rs:124-158 | Over every interleaving no step lowers a still-covered point if and only if every store is fresh in that sense |
| RouteCache.GapLetsAnOlderRouteIn | crates/kivi-client/src/route.rs:124-141 | Three inserts after which a point once at version 7 is at version 5 |
| RouteCache.EvictionBringsAnOlderRouteBack | crates/kivi-client/src/route.rs:147-158 | Five steps from an empty cache after which an eviction around a newer insert has put the older route back |

## Left out

- Sockets, frames, reader threads, streaming transfer, typed request builders and backoff times: they carry no state the results depend on.
- Hash, checksum and compression algorithms: checksums and content identities are parameters, and publication assumes that no two artifacts of a run share a hash.
- Detection of arbitrary byte damage in packs and manifests: it rests on checksum strength, not on this code.
- Secondary index lookups and term fan-out of scans: unchanged terms keep older entry versions, so their completeness would not hold.
- Values, expiry and read contracts of a scan: the results are about which keys appear; hidden keys are a parameter.
- Statistics, histograms, tracing and health: no effect on the results.
- The byte codecs of checkpoint manifests, bands, the dedup component, CURRENT and the WAL floor: each is a fixed sequence of fields under one checksum, without the torn tails of packs or the canonical form of chunk manifests.
- Raft itself: committed entries, elections and the two phases of a membership change are steps of the models that need them.
- Split and merge plans, placement and the adaptive controller: their phase tables are of the kind modelled for migration.
- TwoPhase.Next: one write set per transaction identity; the digest check is represented by which decision wrote the record. Values are not kept: a transactional delete is an applied write followed by a delete step, and of the checks an add or a share makes at its finalize only the missing object is modelled.
- The client's retry of a whole batch under a fresh transaction identity: a drive that reports a conflict after its commit record is durable (a tablet moved under the finalize wave) is started again as another transaction, whose writes are then applied as well.
- TwoPhaseDriver.Drive: the second look at probed tablets before the decision is not a separate step, since a moved prepare has already stopped the wave.
- Bands.BandDirty.Mark: the four words are arrays of bits, not machine words.
- Publication.CheckpointStore.PublishTablet: publications of different tablets do not interleave; what one leaves of another is `Publication.SharedSweepIff`. Temporary files and foreign files are not modelled.
- ChunkStore.ChunkStore.Stage: the two indexes are one map keyed by kind and identity, sequences stay below 2^64 as their type does, and I/O errors of a write are not modelled.
- Reopen.Recover: the directory listing is a parameter, the pack target is the same at every opening, and which of several damaged packs is reported is not stated.
- ScanClient.Scan: gives up after a number of requests that the caller chooses, because a gap without a bound is asked for again for as long as it lasts.
- ScanRouting.HandleScan: the directory holds the writable tablets only, and the server's caps on the two budgets are already applied.
- Sessions.SeqState.Adopt: takes sequences of 64 bits.
- SessionRuns.AtMostOnce: one session on one tablet, since sessions and tablets share no state here; an identity that moves with a split tablet is not modelled.
- Retry.Execute: the cached route of each hop is the network's choice, so the cache itself is modelled only in `RouteCache`.
- Alr.LinearizesIff: one replica and one tablet; leases and the conservative barrier that failed batches fall back to are not modelled.
- Migration.CompletesIff: the operator's transition to Failed is not a step, and other membership changes of the tablet are excluded.
- RouteCache.Insert: ranges are intervals of integers in two separate spaces.
