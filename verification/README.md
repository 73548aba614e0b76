# NikuCooker, verified

A Dafny model of the parts of NikuCooker whose correctness is hard to see from
the code: the incremental pipeline over its content-addressed artifact store,
the event bus, transcript editing, the worker's cancellation protocol, JSON
extraction and glossary resolution, and the job and installer state machines.

## How it is laid out

**The pipeline and the store.** `Build` derives every stage's artifact key
before anything has run; `Run` executes what is not cached and derives each
key again from the artifacts it actually used.

* `ArtifactHash` – the key of a stage's inputs, and why it identifies them.
* `KeyTrees` – a key unfolded into the tree of everything it was derived from,
  and the payloads such a tree defines.
* `ArtifactStore` – rows and directories, every operation a list of atomic
  steps; classes `Store` and `Writer` perform them.
* `StoreSafety`, `Retention` – what a crash between any two steps leaves, and
  what pruning keeps.
* `Planning` (what `Build` computes), `Planner` (the code, in class form),
  `Selections` (which stages it covers), `PlanFacts` (what every plan satisfies).
* `Execution` (what `Run` does, as a function of the world's decisions),
  `Executor` (the code), `Settlement` (how runs end), `Outcomes` (what decides
  how a stage, a run and its job end).
* `Provenance`, `Soundness` – every published payload is one its key
  defines, over all histories. `Agreement`, `KeyAgreement` – what a stage is
  keyed on and handed; planner and executor use the same keys. `Invalidation`
  – what a change invalidates. `NothingRecomputed` – what a second plan finds.
* `Reruns`, `Sources` – when a cached stage is what running it would produce,
  whatever sources the project has had. `SoloRuns`, `MarkedRuns` – histories in
  which it is not, wherever that condition fails; `Staleness` – two of them in
  full.

**The rest.** `Events`; `Lines`, `Editing`, `Effects`, `Conservation`; `LlmJson`,
`JsonReplies`; `Glossary`; `Worker`; `Jobs`; `Provision`. `Sorting` and
`Optional` are shared.

Code that works by changing things is a class whose methods are proved against
functions on values (`Store`, `Writer`, `StagePlan`, `Repository`, `Bus`), and
the theorems are about those functions. Where threads or callers interleave
(`Bus`, `Worker`, `App`, `Manager`), each method is one atomic step, and
`Valid` is what every interleaving keeps.

## What is assumed

* The digest is a function with no collisions, written in hex (`IsDigest`),
  and the 16-digit ids of the keys in use differ (`DistinctIds`).
* The separator byte occurs in no stage name, version, revision,
  configuration or fingerprint, and `=` in no fingerprint name
  (`WellFormed`, `CleanOptions`, `CleanFingerprints`).
* A stage computes a function of its recipe, the inputs it is handed and the
  source; it fails when an input cannot be read or, at run time, when its
  fingerprint cannot be computed (internal/pipeline/executor.go:300-306 relies
  on that).
* The clock moves between two upserts, and ids are unique in the table of
  artifacts (`UniqueIds`); one rename, one removal and one SQL statement are
  atomic.
* `stageOf` in the theorems names the stage of every key attempted so far; that
  every key a store can find is hex (`HexHits`) then follows for any history
  (`NothingRecomputed.HistoriesFit`). `use` holds all the source media and
  declarations of stages the store was ever used with.
* That keys identify their inputs (`IdentifiesInputs`) is all the pipeline
  theorems need of a key; `KeyTrees.HashedKeyIdentifiesInputs` proves it of the
  hashed key.

## What the proofs found

* **After the source of a project changes, stages can be served stale.** A
  stage that does not depend on `probe` is keyed without the source, which
  internal/pipeline/plan.go:385-390 says costs at most a cache miss. The probe
  stage itself has no dependencies and reads the source
  (internal/stage/probe/probe.go:30-50), so its key stands for any source:
  planned again it is cached (`Staleness.ProbeIsServedStale`). Every other stage
  rests on it, so that a stage whose own key records the source can be served
  stale too (`Staleness.AudioIsServedStale`: probe with the old source, audio
  with the new one, probe again).
* **When it cannot happen.** If every stage a stage rests on, itself included,
  depends on `probe` or is one that ignores the source, it is current whenever
  it is cached, whatever sources, with a fingerprint, the project has had
  (`Sources.CurrentIfShown`). For every registry and every stage of which that
  is not so, there is a history after which it is served stale
  (`MarkedRuns.StaleUnlessShown`). In a project whose source never changes,
  every stage is current (`Reruns.SkippingIsRunning`).
* **Retention zero prunes the newest version**, although the comment above
  `GC` says the newest is never pruned
  (`Retention.NewestSurvivesIffRetained`: it survives iff retention is not 0).
* **Aborting a forced re-run marks a ready row failed** although its directory
  is intact (`StoreSafety.FailedRerunHidesArtifact`); `StoreSafety.AbortHides`
  says that this key, and no other, is no longer found.
* **A cancel of a queued request is answered false**, which the worker's own
  comment reads as "it had already finished"; the request is then served to
  the end (`Worker.CancelOfQueuedIsLost`).
* **Reconnecting to the event bus at position zero skips what was emitted
  meanwhile**, and the client is told the position was replayable
  (`Events.ReconnectAtZeroSkips` goes through it; zero is the only such
  position, `Events.ReconnectSkipsIffAtZero`).
* **Merging a line that has words with one that has none drops the latter's
  text** (`Conservation.MergeKeepsTextIff`).
* **A value on the line of an opening code fence is lost unless that line is
  the whole reply** (`JsonReplies.SameLineExtraction`), and a fenced value that
  contains a fence needs a closing one (`JsonReplies.FencedExtraction`).
* **A job whose "running" write failed cannot be recorded as completed**:
  pending to completed is not a legal transition, so it stays pending after
  its project is released (`Jobs.StuckAfterFault`). A job whose outcome cannot
  be written is left as it was, too; every other job ends
  (`Jobs.JobsEndBeforeRelease`).
* In this commit `Reconcile` (internal/jobs/runner.go:288) is called only by a
  test. `Jobs.OneJobPerProject` needs it: a row found running stays so.
* **Starting a run sweeps temporary directories before it knows that the project
  is free** (internal/app/run.go:102-105), so a start that is then refused ends
  the attempt of the run that holds the project. It cannot publish then
  (`StoreSafety.SweptCannotPublish`), and the store stays consistent.

## Model

| member | source | states |
|---|---|---|
| ArtifactHash.SortedKeys | internal/artifact/hash.go:134-138 | reading a map's keys in any order and sorting them gives the one ascending enumeration of its key set |
| ArtifactHash.FingerprintString | internal/artifact/hash.go:147-165 | the string hashed for a fingerprint depends on the map only, not on the order it is read in |
| ArtifactHash.DeriveInputHash | internal/artifact/hash.go:126-144 | hashes the upstream keys in name order, then the source |
| ArtifactHash.DeriveKey | internal/artifact/hash.go:95-124 | the key is the digest of both component digests; a configuration without canonical form is refused |
| ArtifactHash.IDForKey | internal/artifact/hash.go:167-173 | an artifact's id is a fixed mark and the first sixteen digits of its key, or all of a shorter one |
| ArtifactHash.BytesAreInjective | internal/artifact/hash.go:34-39 | two well-formed inputs hash the same bytes iff all their components are equal, maps compared as maps |
| ArtifactHash.KeyIsInjective | internal/artifact/hash.go:95-107 | with a collision-free digest, two well-formed inputs have the same key iff they are equal |
| ArtifactHash.SeparatorInValueCollides | internal/artifact/hash.go:147-165 | a separator inside a fingerprint value makes two different fingerprints the same bytes: the condition is needed |
| KeyTrees.HashedKeyIdentifiesInputs | internal/artifact/hash.go:95-107 | the program's key has all the pipeline theorems ask of a key: different inputs, different keys, never empty and written in hex |
| KeyTrees.DigestIsInjective | internal/artifact/hash.go:3-6 | a key determines the whole tree it was derived from, down to the source |
| KeyTrees.DerivesOnlyPayload | internal/artifact/hash.go:3-6 | when no stage keyed without the source can tell the sources apart, exactly one payload can be derived from a key's tree |
| ArtifactStore.Store.QueryByAge | internal/artifact/store.go:420-423 | yields exactly a stage's rows, newest first, rows of the same time by id |
| ArtifactStore.ByAgeMeans | internal/artifact/store.go:420-423 | of a stage's rows, told without the order's own definition, one comes before another when it was recorded later, or at the same time with a greater id |
| ArtifactStore.Store.GC | internal/artifact/store.go:415-460 | performs, row before directory, the removal of exactly the rows past the first `retention`, newest first, stopping where the disk or the database fails |
| ArtifactStore.Store.RemoveAll | internal/artifact/store.go:471-519 | removes every row and its directory one by one, then the whole tree, stopping where the disk or the database fails |
| ArtifactStore.Store.SweepTempDirectories | internal/artifact/store.go:525-556 | removes the temporary directories there are, of live attempts too, each once, and nothing else, until none is left or one cannot be removed |
| ArtifactStore.Store.Latest | internal/artifact/store.go:105-121 | the newest ready row of a stage, of the same time the one with the greatest id, a miss when its directory is gone |
| ArtifactStore.LatestMeans | internal/artifact/store.go:105-121 | the latest artifact is that of the ready row that every other is older than, if its directory is there (`NoneIsLatest`: without a ready row there is none) |
| ArtifactStore.Store.Begin | internal/artifact/store.go:216-247 | a writer for the key of the inputs, with a temporary directory nobody else has; nothing when the inputs have no key or no directory can be made |
| ArtifactStore.Writer.Commit | internal/artifact/store.go:259-347 | publishes by manifest, removal, rename, upsert in that order, stopping where the disk or database fails; refuses a finished writer or a missing, empty or reserved primary before changing anything |
| ArtifactStore.Writer.Abort | internal/artifact/store.go:353-371 | discards the temporary directory, then records the failure; when one of the two fails the other is still tried |
| StoreSafety.HistoriesKeepConsistent | internal/artifact/store.go:393-405 | any history of operations, each complete, stopped after any number of steps, or swept under at any point, keeps rows, directories and temporary names consistent |
| StoreSafety.HitsOpen | internal/artifact/store.go:65-99 | in a consistent store a lookup hit has its directory, holding the manifest of that very key and the primary it declares |
| StoreSafety.CrashSafety | internal/artifact/store.go:216-371 | after any history with crashes between any two steps, Lookup is a miss or a directory of that very key whose primary can be read |
| StoreSafety.AfterCommit | internal/artifact/store.go:259-347 | what a completed attempt leaves, whatever was published or recorded before |
| StoreSafety.AfterAbort | internal/artifact/store.go:353-371 | a failed attempt leaves a failed row and whatever directory was published before, or what was there when clearing up fails too |
| StoreSafety.AbortHides | internal/artifact/store.go:353-371 | recording a failure hides the artifact of its key and no other, and touches no directory |
| StoreSafety.FailedRerunHidesArtifact | internal/artifact/store.go:353-371 | after an artifact is published, a failed attempt on its key makes lookup miss it although directory and payload are intact |
| StoreSafety.RetriesCommit | internal/artifact/store.go:385-405 | after any such history a later attempt on any key can still commit, and Lookup then finds what it published |
| StoreSafety.SweptCannotPublish | internal/app/run.go:102-105 | an attempt whose directory is swept away before the rename publishes nothing: rows stay, directories stay or go, and every lookup is as before or a miss |
| Retention.PrunedIffEnoughNewer | internal/artifact/store.go:448 | a row is pruned iff at least `retention` rows of its stage are newer, or as old with a greater id |
| Retention.AfterGC | internal/artifact/store.go:447-458 | GC leaves exactly the store without the pruned rows and their directories |
| Retention.StoppedGC | internal/artifact/store.go:448-458 | a GC that fails part-way hides exactly the artifacts whose rows it came to; every other one is found as before |
| Retention.NewestSurvivesIffRetained | internal/artifact/store.go:411-460 | the newest row of a stage, and its lookup, survive GC iff the retention is not zero |
| Planner.DisabledSet | internal/pipeline/plan.go:577-601 | refuses the first name that is unknown or not optional, else yields the named set |
| Planner.SelectStages | internal/pipeline/plan.go:504-571 | an explicit list in any order, with repetitions, or a range without disabled stages, selects in registry order; each malformed request has its own error |
| Planner.ResolveExternal | internal/pipeline/plan.go:437-466 | dependencies outside the plan resolve to what they last produced, and only those |
| Planner.Decide | internal/pipeline/plan.go:176-242 | one stage ends up blocked, cached or pending exactly as specified, with its key, inputs and reason |
| Planner.Build | internal/pipeline/plan.go:159-245 | the loop over stage plans and the by-name index computes the plan the specification defines, or its first error |
| Selections.SelectionMeans | internal/pipeline/plan.go:504-571 | a stage is selected iff it is named, or, when none is, not disabled and between the two ends of the range |
| Selections.SelectionSucceedsIff | internal/pipeline/plan.go:504-601 | stages can be selected iff every disabled one is known and optional, every named one is known, and a range has known ends and leaves some stage; otherwise the error explains it |
| Planner.NeedsRun | internal/pipeline/plan.go:616-623 | true iff some planned stage is pending |
| PlanFacts.SelectionOrder | internal/pipeline/plan.go:504-571 | what a selected stage depends on is selected before it, if at all |
| PlanFacts.FirstEndedMeans | internal/pipeline/plan.go:411-427 | a stage is reported blocked iff some required dependency in the plan is skipped, failed or cancelled |
| PlanFacts.FirstMissingMeans | internal/pipeline/plan.go:476-492 | an input is reported missing iff some required dependency is nowhere, or ended without an artifact |
| PlanFacts.BuildMakesGoodPlans | internal/pipeline/plan.go:159-245 | in every plan names differ, dependencies come first, and an unblocked stage has every required input from an unblocked stage or from the store |
| PlanFacts.BlockedIff | internal/pipeline/plan.go:411-492 | a stage is blocked iff a required dependency is blocked itself, or not planned and not in the store; its reason names one and says which; a missing optional one blocks nothing |
| PlanFacts.BuildFailsOnlyUnkeyed | internal/pipeline/plan.go:284-320 | planning what is selected fails only over a stage whose fingerprint failed or whose configuration has no canonical form, and no unblocked stage of a plan is such a one |
| Executor.CommitAndCollect | internal/pipeline/executor.go:205-241 | a published artifact is followed by pruning its stage, which may stop part-way without changing the outcome; a failed publication by nothing |
| Executor.Attempted | internal/pipeline/executor.go:141-252 | how a stage's run ends, what it published and what it did to the store, for every outcome of the stage and every failure of clearing up or pruning |
| Executor.RunNext | internal/pipeline/executor.go:93-131 | a pending stage is skipped when a dependency ended or an input is missing, and run on its inputs otherwise |
| Executor.CancelRest | internal/pipeline/executor.go:316-324 | settles exactly the stages that had not ended, as cancelled |
| Executor.Run | internal/pipeline/executor.go:49-138 | the run loop over shared stage plans, the store and the observer does what the specification of a run says, step for step |
| Settlement.InputsAreThere | internal/pipeline/executor.go:93-115 | for a plan from Build the executor's missing-input branch is never taken |
| Settlement.SettlesExactlyOnce | internal/pipeline/executor.go:49-138 | whatever the outcomes and wherever the run is cancelled, every stage is settled exactly once, ends terminal, and is entered only after each required dependency in the plan was heard to succeed |
| Settlement.FailuresAreContained | internal/pipeline/executor.go:75-131 | without cancellation a pending stage is skipped iff some required dependency in the plan ended unusable; every other one runs |
| Settlement.CompletedMeansDone | internal/app/run.go:319-339 | a job is reported completed iff the context was not cancelled and every planned stage is cached or completed |
| Outcomes.StageEnds | internal/pipeline/executor.go:141-275 | a stage that was begun completes, with its artifact, iff it publishes a primary; it is cancelled iff its run failed with the cancellation or under a cancelled context; otherwise it fails |
| Outcomes.StageStores | internal/pipeline/executor.go:173-241 | a completed stage publishes its files with what it computed as the primary and prunes its stage unless the retention is negative; one whose code failed gives its attempt up |
| Outcomes.CancelStops | internal/pipeline/executor.go:73-138 | a run is cancelled iff a look at the context, the last at its end, finds it so; exactly the stages whose turn had not come by then are settled as cancelled, and none of them is entered |
| Outcomes.SkippedTells | internal/pipeline/executor.go:75-91 | a stage the run skipped is marked blocked and names a required dependency and how that ended: skipped, failed or cancelled |
| Outcomes.CompletedTells | internal/app/run.go:319-339 | what a run's job is to say: cancelled iff its context was, else completed iff every planned stage is cached or completed, else failed |
| Outcomes.ConcludeRun | internal/app/run.go:215-233 | that is what the job's row says, for a plan from Build and no failed write |
| Provenance.OpenYieldsPayload | internal/artifact/store.go:159-178 | what is read through a known artifact is a payload its key's tree defines |
| Provenance.ProductIsPayload | internal/pipeline/executor.go:163-203 | what a stage computes from its inputs is a payload the key it runs under defines |
| Provenance.RunStageObeys | internal/pipeline/executor.go:141-241 | everything one stage's run does to the store publishes only what its key defines |
| Soundness.CacheIsSound | internal/app/run.go:32-46 | after any sequence of plans made, plans run at any later time, failures, cancellations, crashes and prunings, with any sources, every published directory holds what its key defines, and every plan made can still be run |
| Soundness.ReadyPayloads | internal/artifact/store.go:65-99 | after any such history, what a lookup hit reads is a payload defined recursively by its key, and the only one unless the key leaves out a source that some stage of the tree can tell |
| Soundness.ReadyPayloadsOfOneSource | internal/artifact/store.go:65-99 | with the program's own key, in a project whose source never changes, a hit reads exactly the payload its key defines |
| Agreement.HandedKeysMatch | internal/pipeline/plan.go:323-341 | when what a stage depends on in the plan delivered what was planned, the keys of the inputs the executor hands it are the upstream keys the planner used |
| Agreement.KeyedOnDependencies | internal/pipeline/plan.go:323-383 | a stage's key holds, of each required or optional dependency and of nothing else, the key it was planned under, or that of its latest artifact when it is not planned; it leaves out what is blocked or was never made |
| Agreement.HandedDependencies | internal/pipeline/executor.go:93-128 | a stage is handed, of each required or optional dependency and of nothing else, the artifact its run or an earlier one left; an optional one without an artifact is left out |
| Agreement.PlannedKey | internal/pipeline/plan.go:220-241 | an unblocked stage is planned under the key of its inputs as planned, and is cached iff that key is a hit and Force is off |
| Agreement.PlannedIsOwn | internal/pipeline/plan.go:231-241 | the artifact a stage is planned with was made by that stage |
| KeyAgreement.RunIsKeyed | internal/pipeline/executor.go:163-171 | every artifact a run produces is keyed on the inputs its stage was handed; stages that had ended keep theirs |
| KeyAgreement.PlannerAndExecutorAgree | internal/pipeline/plan.go:220-224 | when every planned stage succeeds, each executed one committed under the key Build predicted iff no stage's fingerprint changed in between |
| Invalidation.SettingsBlockAlike | internal/pipeline/plan.go:411-427 | which stages are blocked, and on what, does not depend on configuration, fingerprints or versions |
| Invalidation.SameKeyIff | internal/artifact/hash.go:95-107 | two stages planned in any stores under any settings have the same key iff name, version, revision, configuration, fingerprint, the source where "probe" is required, and upstream keys are the same |
| Invalidation.InvalidationIsExact | internal/pipeline/plan.go:284-383 | between two settings a stage's key differs iff its version, the revision, its configuration, its fingerprint or the source it knows of differs, or one of these does for a stage it depends on, required or optionally, however remotely; every other stage keeps its whole plan entry |
| Reruns.CachedStandsForRunning | internal/pipeline/plan.go:231-241 | for any stage planned as cached, whatever else is pending, and any inputs under the keys it was planned with, readable in the same or any later store: what is cached is what the stage computes from them and the source its key stands for |
| Reruns.CachedIsWhatRunningYields | internal/pipeline/plan.go:385-398 | special case of a store used with one source, planned with any: it is what running yields if the stage depends on `probe` or the source is the same, and for a stage that tells sources apart only if |
| Reruns.CachedNow | internal/pipeline/plan.go:323-341 | the inputs a cached stage would be handed at once are such inputs when what it depends on in the plan is itself cached or blocked |
| Reruns.CachedAfterRun | internal/pipeline/executor.go:93-131 | after any run, also one that fails or is cancelled, a stage planned as cached stands for running it there, if what it depends on was delivered and can be read |
| Reruns.CachedAfterFullRun | internal/pipeline/plan.go:612-623 | after a run in which every stage succeeded, with retention not zero and stable fingerprints, every cached stage does, and its artifact is still there |
| Reruns.SkippingIsRunning | internal/pipeline/plan.go:231-241 | in a project whose source never changes, skipping a cached stage and running it after all the others give the same payload |
| Sources.CachedIsCurrent | internal/pipeline/plan.go:385-398 | in a store used with any sources, a cached stage whose dependencies, however remote, all depend on `probe` or ignore the source is what running it yields, on any inputs under its planned keys |
| Sources.SkippedIsCurrent | internal/pipeline/plan.go:612-623 | so it is after a full run, any sources having been used: skipping it and running it after all the others give the same payload |
| Sources.CurrentIfShown | internal/pipeline/plan.go:385-398 | after any history of one registry with any sources: a cached stage is current if every stage it rests on depends on `probe` or ignores the source |
| MarkedRuns.StaleUnlessShown | internal/pipeline/plan.go:385-398 | for every registry and stage of which that is not so there are stages that ignore the source where they should, and a history of plans and runs with two sources after which the stage is cached and not current |
| SoloRuns.Plays | internal/pipeline/plan.go:437-466 | stages run one by one with Force, in any order that respects dependencies and with any sources their keys do not show, leave for each stage what it made last, found under the key of its stage |
| Staleness.ProbeIsServedStale | internal/pipeline/plan.go:385-398 | planned and run with one source and planned again with another, a stage without dependencies is cached with the old source's payload |
| Staleness.AudioIsServedStale | internal/stage/audio/audio.go:37 | probe run with an old source, audio with a new one, probe again: audio is planned as cached with what was made of the old probe, although its key records the new source |
| NothingRecomputed.RunLeaves | internal/pipeline/executor.go:229-233 | when every stage of a run succeeds, each artifact it produced is still found at the end despite the pruning, and stages it did not run are untouched |
| NothingRecomputed.FullRunServes | internal/pipeline/executor.go:229-233 | after a full run every planned key is found with the artifact the run reports, and stages outside the plan have the latest they had |
| NothingRecomputed.NothingIsRecomputed | internal/pipeline/plan.go:231-241 | from any consistent store, after a run in which every stage succeeded, with retention not zero and stable fingerprints, building again without Force gives the same plan with every stage cached and nothing to execute |
| NothingRecomputed.NothingIsRecomputedAfter | internal/pipeline/plan.go:612-623 | the same for a store with any history of operations and crashes: only the keys attempted in it have to be keys of their stages |
| Events.Bus.Append | internal/events/events.go:150-161 | the ring holds the latest events, at most its capacity of them, in order |
| Events.Bus.ReplayFrom | internal/events/events.go:265-274 | yields exactly the events after a retained position, in order |
| Events.Subscription.Deliver | internal/events/events.go:296-307 | queues the event, or drops the client exactly when its queue is full; a dropped client is left alone |
| Events.Bus.Emit | internal/events/events.go:124-147 | numbers the event one higher, keeps its kind and its payload, fills in a missing time or payload, retains it, and hands it to every open client; a full client is dropped and nobody else notices |
| Events.Bus.Subscribe | internal/events/events.go:230-262 | says whether the position can be resumed, and queues exactly what was missed; replay itself may overflow, leaving the first 256 and the overflow mark |
| Events.Subscription.Receive | internal/events/events.go:281 | takes the oldest queued event, changing nothing about the stream |
| Events.Bus.Close | internal/events/events.go:333-340 | ends every subscription, leaving each stream as far as it got |
| Events.NoUndetectedGap | internal/events/events.go:1-13 | a client's received and queued events are numbered exactly from its origin on, without gap or repeat; while open it is caught up; it falls short only after a request to close or with the overflow mark |
| Events.ReplayableIffRetained | internal/events/events.go:242-256 | a position is replayable iff it is "from now", or reached by this process with every later event still retained |
| Events.ReconnectsCompose | internal/events/events.go:1-7 | reconnecting again and again at the last position seen, past zero, and being told each time that it can be resumed, yields one contiguous stretch of the history |
| Events.ReconnectSkipsIffAtZero | internal/events/events.go:228-244 | a client told its position is replayable still misses events iff that position is zero and something was emitted |
| Events.ReconnectAtZeroSkips | internal/events/events.go:228-244 | a client that saw nothing yet, reconnecting after the first event, is told it can resume and never gets that event |
| Lines.BuildText | internal/subtitle/segment.go:222-234 | the loop builds the words' text, trimmed, with a space only between two words of spaced scripts |
| Lines.SpacesBetween | internal/subtitle/segment.go:222-251 | a space goes between two words exactly when the runes that meet both belong to scripts that use spaces |
| Lines.TrimTakesEnds | internal/subtitle/segment.go:234 | trimming takes white space off the two ends, all of it, and nothing else |
| Lines.TextIsSpoken | internal/subtitle/segment.go:217-234 | a text rebuilt from words says exactly what the words say, and is empty iff they say nothing |
| Editing.Validate | internal/segments/editing.go:591-619 | no fault iff the line is valid; otherwise the first fault, naming the first word that does not fit |
| Editing.Halve | internal/segments/editing.go:171-224 | gives the two halves iff the time falls between two words and both halves are valid |
| Editing.Combine | internal/segments/editing.go:278-302 | gives the merged line iff it is valid |
| Editing.Repository.Splice | internal/segments/editing.go:389-430 | replaces some lines by others and renumbers the rest without touching them |
| Editing.Repository.Apply | internal/segments/editing.go:36-84 | one line changes as asked and is marked edited, or nothing changes and the refusal is the right one |
| Effects.ChangeMeans | internal/segments/editing.go:36-120 | what was given is what the line then holds, an empty speaker clearing it, and every other field is as before; it counts as edited and its reading speed fits; it is refused iff that line is not valid or in an unknown state |
| Effects.ReviewMeans | internal/segments/editing.go:122-145 | a review decision changes the two review fields of that line and nothing else |
| Effects.SplitMeans | internal/segments/editing.go:165-243 | field by field, what the two halves hold and where words and time are divided |
| Effects.MergeMeans | internal/segments/editing.go:278-348 | field by field, what the merged line holds of each, and how the two translations join |
| Editing.Repository.SetReviewState | internal/segments/editing.go:122-145 | only the review decision of one line changes; it is not marked edited |
| Editing.Repository.SplitAt | internal/segments/editing.go:165-243 | the line is replaced by its halves, or nothing changes |
| Editing.Repository.MergeWith | internal/segments/editing.go:246-315 | two neighbours are replaced by the merged line, or nothing changes; merging back is merging the previous line with its next |
| Editing.StaysStorable | internal/segments/editing.go:591-619 | no operation stores a line that is not valid |
| Conservation.OthersAreUntouched | internal/segments/editing.go:379-388 | an operation replaces one line by one or two, or two by one; all others keep their text, edited flag, review state and order under their new ordinals |
| Conservation.EditingConserves | internal/segments/editing.go:36-315 | over any sequence of operations every line stays valid and the concatenation of all words never changes |
| Conservation.HalvesFit | internal/segments/editing.go:602-617 | the tolerance at the joint works out: the halves of an accepted split always merge into a valid line |
| Conservation.SplitThenMergeRestores | internal/segments/editing.go:181-308 | splitting and merging back always succeeds and restores start, end, words and every other line at its ordinal; it leaves the words' text, no translation, and the line marked |
| Conservation.MergedTextSpeaks | internal/segments/editing.go:281-289 | the merged line shows what the words of both say, or both texts when no words are said |
| Conservation.MergeKeepsTextIff | internal/segments/editing.go:281-289 | for any two lines, a merge keeps both texts iff their words say nothing or exactly these texts; for lines in step, iff it is not the case that one has text but no words while the other has words |
| Conservation.SplitKeepsText | internal/segments/editing.go:193-204 | a split never loses text of a line whose text says what its words say |
| Conservation.EditingStaysInStep | internal/segments/editing.go:193-289 | no sequence of operations takes a line's text out of step with its words |
| LlmJson.ScanValue | internal/llmjson/llmjson.go:35-79 | finds the first bracket's value up to where that bracket is first closed, or reports no bracket, or an unclosed one |
| LlmJson.StripFence | internal/llmjson/llmjson.go:87-103 | drops the first line of a fenced reply and everything from its last fence on |
| LlmJson.Extract | internal/llmjson/llmjson.go:29-80 | the scan of the trimmed, unfenced reply |
| JsonReplies.PrintIsComplete | internal/llmjson/llmjson.go:24-28 | the bracket of any printed object or array is first closed at its end, whatever brackets, quotes and backslashes its strings hold |
| JsonReplies.ExtractionInvertsPrinting | internal/llmjson/llmjson.go:22-80 | an object or array after a prefix without bracket or leading fence, and before anything, is read back exactly |
| JsonReplies.FencedExtraction | internal/llmjson/llmjson.go:82-103 | inside a fence that opens on its own line, the value is read back iff a fence follows it or none occurs in it or before it |
| JsonReplies.SameLineExtraction | internal/llmjson/llmjson.go:87-103 | a value on the line of the opening fence, with no bracket around it, is read back iff neither it nor what follows it has a line break |
| JsonReplies.SameLineFenceLosesValue | internal/llmjson/llmjson.go:92-97 | a value on the line of the opening fence, with a closing fence below, is reported as no JSON |
| Glossary.Occurs | internal/glossary/glossary.go:299-324 | true iff the term occurs, for a term of a spaced script with no word byte on either side of some occurrence; the loop ends |
| Glossary.OccursInOneOf | internal/glossary/glossary.go:240 | joining the texts adds and hides no term: one without a line break occurs in all of them together iff it occurs, as a whole word where words count, in one of them |
| Glossary.Match | internal/glossary/glossary.go:239-271 | the winners of the entries read in order, each once, by priority and then by source |
| Glossary.MoreSpecificMeans | internal/glossary/glossary.go:275-291 | what decides between two entries: belonging to a project, then the lower priority, then being written by hand, then being newer |
| Glossary.MatchResolves | internal/glossary/glossary.go:242-291 | for entries with known origins, or as a project is listed them, the answer has exactly one entry per enabled occurring source, unbeaten, sorted |
| Glossary.MatchIsDeterministic | internal/glossary/glossary.go:261-264 | when no two unbeaten candidates share a source, the answer depends on the set of entries only: on no order of entries and no map order |
| Glossary.ListedMatchIsDeterministic | migrations/0001_init.sql:267-271 | for the entries a project can be listed, with one entry of a source for all projects and one of its own, the answer depends on the set of entries only, and the project's own entry is in it |
| Glossary.FirstUnbeatenWins | internal/glossary/glossary.go:250-253 | the winner of a source is the first of its unbeaten candidates to be read |
| Glossary.TiesGoToTheFirst | internal/glossary/glossary.go:250-253 | of entries the table could not hold, two unbeaten ones sharing a source: reading one or the other first puts the one or the other in the answer, among any other entries |
| Worker.Worker.Submit | ai/nikucooker_ai/worker.py:224-239 | a data request is queued in arrival order, or refused with an error event exactly when the queue is full |
| Worker.Worker.LookUp | ai/nikucooker_ai/worker.py:315-318 | a cancel finds its target iff it is in the table of requests being served |
| Worker.Worker.SetToken | ai/nikucooker_ai/worker.py:320 | the found request's token is set, and the reader starts to wait |
| Worker.Worker.StopWaiting | ai/nikucooker_ai/worker.py:322-331 | the wait ends when the target's flag is set or the timeout runs out, and the answer is then true |
| Worker.Worker.Report | ai/nikucooker_ai/worker.py:348-375 | at most one terminal event is written, and a handler stops as cancelled only if its token is set |
| Worker.Worker.Finish | ai/nikucooker_ai/worker.py:376-382 | the flag is set last, after the terminal event and the removal from the table |
| Worker.ServedOnceInOrder | ai/nikucooker_ai/worker.py:335-382 | in every interleaving requests are served one at a time in arrival order, each with at most one terminal event, and these events are in arrival order |
| Worker.AcknowledgedMeansOver | ai/nikucooker_ai/worker.py:298-331 | a cancel answered true before its timeout follows everything the worker ever says about its target |
| Worker.FoundIffServed | ai/nikucooker_ai/worker.py:298-318 | a cancel misses exactly when its target is not being served: unknown, refused, waiting, or already reported |
| Worker.ExitsEmpty | ai/nikucooker_ai/worker.py:335-382 | the data thread ends only when every accepted request is over |
| Worker.CancelOfQueuedIsLost | ai/nikucooker_ai/worker.py:298-318 | a cancel of a request still queued is answered false and the request is then served to the end |
| Jobs.Repository.SetStatus | internal/jobs/job.go:263-304 | a status changes only along the state machine; an illegal move or unknown job changes nothing |
| Jobs.TransitionsAre | internal/jobs/job.go:54-66 | what has ended stays; anything else can fail or be cancelled; a pending or paused job can run, and only a running one can pause, complete or go back to pending |
| Jobs.Repository.SetProgress | internal/jobs/job.go:311-325 | stored progress becomes the larger of itself and the clamped report |
| Jobs.ProgressAdvances | internal/jobs/runner.go:216-236 | the stages share the job's progress evenly and in order, from zero to one, and a later report is never lower |
| Jobs.Repository.Reconcile | internal/jobs/runner.go:288-331 | running and paused jobs become failed, one by one until the database fails, and no other; if it does not fail, none is left |
| Jobs.Scheduler.Begin | internal/jobs/runner.go:35-46 | a project is claimed iff it was not |
| Jobs.App.Begin | internal/app/run.go:38-41 | a start is admitted iff no run holds the project |
| Jobs.App.Create | internal/app/run.go:43-46 | an admitted job gets a pending row, unless its name is taken or the row cannot be written |
| Jobs.App.MarkRunning | internal/app/run.go:169-172 | the job is marked running unless its context is already cancelled or the write fails |
| Jobs.App.Decide | internal/app/run.go:319-339 | the outcome is cancelled iff the run or its context was, otherwise failed iff some stage has an error or is blocked, otherwise completed |
| Jobs.App.Conclude | internal/app/run.go:226-233 | the outcome is recorded unless that write fails; it is a legal transition unless the job completed and was kept from being marked running by a failed write |
| Jobs.App.Release | internal/app/run.go:167 | a project is released only after its job was concluded or refused, and a concluded job has ended unless a write of its status failed |
| Jobs.App.Cancel | internal/jobs/runner.go:62-72 | a cancel reaches exactly the run that holds the project, at any moment, and no other |
| Jobs.OneJobPerProject | internal/jobs/runner.go:13-18 | if no row said running at the start, then in every interleaving a project has at most one running job, the one the scheduler holds, unless a write of its status failed |
| Jobs.OneHeldPerProject | internal/jobs/runner.go:13-18 | whatever rows were inherited, of the jobs this process admitted and wrote a project has at most one that has not ended, the one the scheduler holds |
| Jobs.StartReconciled | internal/jobs/runner.go:280-331 | a process started on a table that was reconciled inherits no running row |
| Jobs.JobsEndBeforeRelease | internal/app/run.go:166-167 | in every interleaving an admitted job not touched by a failed write is held by its project's run or has ended; once the project is released it has ended |
| Jobs.StuckAfterFault | internal/app/run.go:169-233 | when the write that marks a job running fails and the run completes, the job is pending after its project is released |
| Jobs.TerminalIsFinal | internal/jobs/job.go:54-66 | over any run of changes a terminal status never changes and progress never falls |
| Provision.Manager.Start | internal/provision/provision.go:269-297 | a run is accepted iff none is in flight |
| Provision.Manager.EndStep | internal/provision/provision.go:336-358 | a failed step ends the run as cancelled if its context was ended and as failed otherwise; only the fourth success makes it ready |
| Provision.Manager.Finish | internal/provision/provision.go:510-540 | the end is recorded and the manager freed before the callback hears of it |
| Provision.RunsNeverOverlap | internal/provision/provision.go:234-248 | of all accepted runs only the last can be in flight, and one is exactly while the manager says it is running |
| Provision.CallbackSees | internal/provision/provision.go:319-359 | in every interleaving a run's callback hears the phases entered in order, then at most one ending and nothing after it: ready only after all four, a failure at the last one entered, a cancellation at that one or the next |

## Left out

* Go's and Python's integer widths: sequence numbers, counters and ids are unbounded.
* Floating point: seconds are reals, so nothing is said about rounding in the 0.05 s tolerances.
* ArtifactStore: provider, model, metadata, sizes and paths of artifacts; a removal that leaves part of a directory behind.
- ArtifactStore.Store.Latest: a failing query; nor is it "what the last run used", as a cache hit makes no artifact newer.
- ArtifactStore.Store.GC: the error a failing query or removal is reported as; the former leaves the store as a failing first removal does.
- ArtifactStore.Store.RemoveAll: the number of bytes reclaimed, and a failing query.
- ArtifactStore.Store.SweepTempDirectories: a directory that cannot be listed, after which the rest is not swept.
- Planner.ResolveExternal: a failing query of the latest artifact, which ends planning with that error.
- Planner.Decide: a failing lookup, which ends planning with that error.
- Planner.Build: these two errors, and options that are nil.
* A fingerprint that fails at execution time yields an empty map and a stage that fails; the wrong key such a stage would publish under is not followed further.
* Stage bodies, their fingerprints, FFmpeg, models, the network, configuration loading, HTTP and the CLI; progress throttling.
* Event bus: timestamps are a parameter; the SSE handler's reading of the current sequence number, which is not atomic with subscribing.
* Editing: line ids (a hash of the ordinal), the artifact columns a splice clears, and concurrent edits of one transcript.
* Glossary and editing: which scripts separate words, taken from the Unicode tables as a parameter.
* LlmJson: the text of the error message; UTF-8 decoding, replies being sequences of runes.
* Worker: duplicate request ids, failing writes to standard output, the exit timeout that may end the process with requests queued.
- Jobs.Repository.Reconcile: the rows of single stages, which become failed with their job.
* Jobs: heartbeats, stage rows, logs; a failing write of a job's progress; the run inside `execute` is the pipeline model above.
* Provision: what the four steps do, and killing the process a cancel finds.
* internal/logging/buffer.go, internal/qc and internal/platform.
