/** Skipping a cached stage is as good as running it. */
module Reruns {
  import opened KeyTrees
  import opened ArtifactStore
  import opened Optional
  import opened StoreSafety
  import opened Planning
  import opened Execution
  import opened PlanFacts
  import opened Settlement
  import opened Provenance
  import opened Soundness
  import opened Agreement
  import opened KeyAgreement
  import opened NothingRecomputed

  // ---------------------------------------------------------------------
  // The source a key stands for
  // ---------------------------------------------------------------------

  /** The source a stage's cached payload was computed from: `blind`, the one
      the store was used with, when the key leaves the source out. */
  function KeyedSource(s: Stage, opts: Options, blind: string): string {
    if SourceFor(s, opts) == "" then blind else SourceFor(s, opts)
  }

  /** The key of a stage records the source, or there is no other source. */
  predicate SourceIsAccountedFor(s: Stage, opts: Options, blind: string) {
    ("probe" in s.depends && opts.source != "") || opts.source == blind
  }

  /** No two use give the stage the same payload. */
  ghost predicate TellsSourcesApart(sem: Semantics, stage: string) {
    forall r: Recipe, read: map<string, Content>, a, b | r.stage == stage && a != b :: sem(r, read, a) != sem(r, read, b)
  }

  /** What is read through `a` is what the stage computes from these inputs and
      the source its key stands for. So it is what running the stage would
      produce whenever the source is accounted for, and for a stage that tells
      use apart only then. */
  ghost predicate StandsForRunning(sem: Semantics, opts: Options, w: World, blind: string, a: Option<Content>,
                                   d: Disk, s: Stage, inputs: map<string, Artifact>)
  {
    && Subtree(s, opts).Canonical? && Readable(d, inputs)
    && var recipe := RecipeOf(s, opts, RunFingerprint(w, s.name));
       var product := Product(sem, opts, w, d, s, inputs);
       && a == Some(sem(recipe, ReadAll(d, inputs), KeyedSource(s, opts, blind)))
       && (SourceIsAccountedFor(s, opts, blind) ==> a == Some(product))
       && (TellsSourcesApart(sem, s.name) ==> (a == Some(product) <==> SourceIsAccountedFor(s, opts, blind)))
  }

  // ---------------------------------------------------------------------
  // A cached stage
  // ---------------------------------------------------------------------

  /** Artifacts under the keys stage `i` was planned with, readable in `d`. */
  ghost predicate AsPlanned(key: Keyer, use: Usage, stageOf: map<string, string>, d: Disk, plan: seq<Planned>, i: nat,
                            inputs: map<string, Artifact>)
    requires i < |plan|
  {
    AllKnown(key, use, stageOf, inputs) && Readable(d, inputs) && KeysOf(inputs) == PlannedKeys(plan, i)
  }

  /** The plan Build makes for a store a history has left. */
  ghost predicate PlannedFrom(key: Keyer, sem: Semantics, use: Usage, stageOf: map<string, string>, d: Disk,
                              opts: Options, fps: Fingerprints, plan: seq<Planned>)
  {
    && IdentifiesInputs(key) && DistinctIds(stageOf.Keys) && Consistent(Lawbook(key, sem, use, stageOf), d)
    && ValidRegistry(opts.registry) && CleanOptions(opts) && CleanFingerprints(fps)
    && BuildPlan(key, d, opts, fps) == Ok(plan)
  }

  lemma InputsAreDependencies(plan: seq<Planned>, i: nat, inputs: map<string, Artifact>)
    requires i < |plan| && KeysOf(inputs) == PlannedKeys(plan, i)
    ensures forall dep | dep in inputs :: dep in Dependencies(plan[i].stage)
  {
    forall dep | dep in inputs ensures dep in Dependencies(plan[i].stage) {
      assert dep in KeysOf(inputs);
      assert dep in PlannedKeys(plan, i);
    }
  }

  /** The key of an unblocked stage is the key of the tree over such inputs. */
  lemma PlannedTree(key: Keyer, sem: Semantics, use: Usage, stageOf: map<string, string>, d: Disk, d': Disk,
                    opts: Options, fps: Fingerprints, plan: seq<Planned>, i: nat, inputs: map<string, Artifact>)
    requires PlannedFrom(key, sem, use, stageOf, d, opts, fps, plan) && i < |plan| && plan[i].state != Skipped
    requires AsPlanned(key, use, stageOf, d', plan, i, inputs)
    ensures plan[i].stage.name in fps && Subtree(plan[i].stage, opts).Canonical? && InputsHaveTrees(key, inputs)
    ensures var t := RunTree(key, plan[i].stage, opts, fps[plan[i].stage.name], inputs);
            GoodTree(t) && Digest(key, t) == plan[i].key
  {
    var s := plan[i].stage;
    PlannedKey(key, d, opts, fps, i);
    KnownHaveTrees(key, use, stageOf, inputs);
    InputsAreDependencies(plan, i, inputs);
    BuildNames(key, d, opts, fps);
    SelectedFromRegistry(opts, i);
    assert CleanFingerprint(fps[s.name]);
    RunTreeIsGood(key, s, opts, fps[s.name], inputs);
    RunKeyIsDigest(key, s, opts, fps[s.name], inputs);
  }

  /** A cached stage has an artifact that is known and can be read. */
  lemma CachedOpens(key: Keyer, sem: Semantics, use: Usage, stageOf: map<string, string>, d: Disk,
                    opts: Options, fps: Fingerprints, plan: seq<Planned>, i: nat)
    requires PlannedFrom(key, sem, use, stageOf, d, opts, fps, plan) && i < |plan| && plan[i].state == Cached
    ensures plan[i].artifact.Some? && plan[i].artifact.value.key == plan[i].key
    ensures Known(key, use, stageOf, plan[i].artifact.value) && Open(d, plan[i].artifact.value).Some?
  {
    PlannedKey(key, d, opts, fps, i);
    BuildNames(key, d, opts, fps);
    assert GoodEntry(plan[i]);
    HitsAreKnown(key, sem, use, stageOf, d, plan[i].key);
    HitsOpen(Lawbook(key, sem, use, stageOf), d, plan[i].key);
  }

  /** An unambiguous tree's payload, told from what its stage reads. */
  lemma PayloadFromReads(sem: Semantics, blind: string, use: Usage, t: KeyTree, c: Content, read: map<string, Content>)
    requires Unambiguous(sem, blind, use.sources, t)
    requires Derives(sem, use.sources, t, c) && DerivesAll(sem, use.sources, t, read)
    ensures c == sem(t.recipe, read, if t.source == "" then blind else t.source)
  {
    DerivesOnlyPayload(sem, blind, use.sources, t, c);
    DerivesOnlyPayloads(sem, blind, use.sources, t, read);
  }

  /** A stage planned as cached stands for running it, now or later, on any
      inputs under the keys it was planned with: whatever else is pending in
      the plan, whatever is done to the store in between. */
  lemma CachedStandsForRunning(key: Keyer, sem: Semantics, use: Usage, blind: string, stageOf: map<string, string>,
                               d: Disk, d': Disk, opts: Options, fps: Fingerprints, w: World, plan: seq<Planned>, i: nat,
                               inputs: map<string, Artifact>)
    requires PlannedFrom(key, sem, use, stageOf, d, opts, fps, plan) && i < |plan| && plan[i].state == Cached
    requires Consistent(Lawbook(key, sem, use, stageOf), d') && AsPlanned(key, use, stageOf, d', plan, i, inputs)
    requires plan[i].stage.name in fps && RunFingerprint(w, plan[i].stage.name) == fps[plan[i].stage.name]
    ensures plan[i].artifact.Some? && Subtree(plan[i].stage, opts).Canonical? && InputsHaveTrees(key, inputs)
    ensures var t := RunTree(key, plan[i].stage, opts, fps[plan[i].stage.name], inputs);
            var a := plan[i].artifact.value;
            && (Open(d', a).Some? ==> Derives(sem, use.sources, t, Open(d', a).value))
            && Open(d, a).Some? && Derives(sem, use.sources, t, Open(d, a).value)
            && (Unambiguous(sem, blind, use.sources, t) ==>
                  StandsForRunning(sem, opts, w, blind, Open(d, a), d', plan[i].stage, inputs))
  {
    CachedOpens(key, sem, use, stageOf, d, opts, fps, plan, i);
    PlannedTree(key, sem, use, stageOf, d, d', opts, fps, plan, i, inputs);
    var s, a := plan[i].stage, plan[i].artifact.value;
    var t := RunTree(key, s, opts, fps[s.name], inputs);
    OpenYieldsPayload(key, sem, use, stageOf, d, a, t);
    OpenYieldsPayload(key, sem, use, stageOf, d', a, t);
    ReadsArePayloads(key, sem, use, stageOf, d', inputs, t);
    if Unambiguous(sem, blind, use.sources, t) {
      PayloadFromReads(sem, blind, use, t, Open(d, a).value, ReadAll(d', inputs));
      SourceDecides(sem, opts, w, blind, Open(d, a), d', s, inputs);
    }
  }

  /** A payload computed from the keyed source is current under the guard. */
  lemma SourceDecides(sem: Semantics, opts: Options, w: World, blind: string, a: Option<Content>, d: Disk, s: Stage,
                      inputs: map<string, Artifact>)
    requires Subtree(s, opts).Canonical? && Readable(d, inputs)
    requires a == Some(sem(RecipeOf(s, opts, RunFingerprint(w, s.name)), ReadAll(d, inputs), KeyedSource(s, opts, blind)))
    ensures StandsForRunning(sem, opts, w, blind, a, d, s, inputs)
  {
    assert KeyedSource(s, opts, blind) == opts.source <==> SourceIsAccountedFor(s, opts, blind);
  }

  /** In a store only ever used with the source `blind`, without exception. */
  lemma CachedIsWhatRunningYields(key: Keyer, sem: Semantics, use: Usage, blind: string, stageOf: map<string, string>, d: Disk, d': Disk,
                                  opts: Options, fps: Fingerprints, w: World, plan: seq<Planned>, i: nat,
                                  inputs: map<string, Artifact>)
    requires use.sources == {blind} && PlannedFrom(key, sem, use, stageOf, d, opts, fps, plan) && i < |plan| && plan[i].state == Cached
    requires Consistent(Lawbook(key, sem, use, stageOf), d') && AsPlanned(key, use, stageOf, d', plan, i, inputs)
    requires plan[i].stage.name in fps && RunFingerprint(w, plan[i].stage.name) == fps[plan[i].stage.name]
    ensures plan[i].artifact.Some?
    ensures StandsForRunning(sem, opts, w, blind, Open(d, plan[i].artifact.value), d', plan[i].stage, inputs)
  {
    CachedStandsForRunning(key, sem, use, blind, stageOf, d, d', opts, fps, w, plan, i, inputs);
    OneSourceIsUnambiguous(sem, blind, RunTree(key, plan[i].stage, opts, fps[plan[i].stage.name], inputs));
  }

  // ---------------------------------------------------------------------
  // Before and after the run
  // ---------------------------------------------------------------------

  /** Now: when what a cached stage depends on in the plan is itself cached or
      blocked, these inputs are the ones it would be handed at once. */
  lemma CachedNow(key: Keyer, sem: Semantics, use: Usage, stageOf: map<string, string>, d: Disk,
                  opts: Options, fps: Fingerprints, plan: seq<Planned>, i: nat)
    requires PlannedFrom(key, sem, use, stageOf, d, opts, fps, plan) && i < |plan| && plan[i].state == Cached
    requires forall j | 0 <= j < i && plan[j].stage.name in Dependencies(plan[i].stage) :: plan[j].state != Pending
    ensures AsPlanned(key, use, stageOf, d, plan, i, HandedInputs(plan, plan, i))
  {
    BuildMakesGoodPlans(key, d, opts, fps);
    BuildKnows(key, sem, use, stageOf, d, opts, fps);
    InputsAreKnown(key, use, stageOf, plan, i);
    ConsistentHitsAreHex(key, sem, use, stageOf, d);
    forall j | 0 <= j < i && plan[j].stage.name in Dependencies(plan[i].stage) ensures Delivered(plan[j], plan[j]) {
      CachedDelivers(key, d, opts, fps, j);
      assert GoodEntry(plan[j]);
    }
    HandedKeysMatch(plan, plan, i);
    InputsAreReadable(key, sem, use, stageOf, d, opts, fps, i);
  }

  /** What a plan refers to can be read from the store it was made from. */
  lemma InputsAreReadable(key: Keyer, sem: Semantics, use: Usage, stageOf: map<string, string>, d: Disk,
                          opts: Options, fps: Fingerprints, i: nat)
    requires DistinctIds(stageOf.Keys) && Consistent(Lawbook(key, sem, use, stageOf), d)
    requires ValidRegistry(opts.registry) && BuildPlan(key, d, opts, fps).Ok?
    requires i < |BuildPlan(key, d, opts, fps).value|
    requires BuildPlan(key, d, opts, fps).value[i].state != Skipped
    ensures var plan := BuildPlan(key, d, opts, fps).value;
            Readable(d, HandedInputs(plan, plan, i))
  {
    var plan := BuildPlan(key, d, opts, fps).value;
    var law, inputs := Lawbook(key, sem, use, stageOf), HandedInputs(plan, plan, i);
    BuildMakesGoodPlans(key, d, opts, fps);
    PlannedKey(key, d, opts, fps, i);
    forall dep | dep in inputs ensures Open(d, inputs[dep]).Some? {
      HandedInputOf(plan, plan, i, dep);
      if InPlan(plan, dep) {
        var j :| 0 <= j < |plan| && plan[j].stage.name == dep;
        PlannedKey(key, d, opts, fps, j);
        assert GoodEntry(plan[j]) && inputs[dep] == plan[j].artifact.value;
        HitsOpen(law, d, plan[j].key);
      } else {
        LatestIsAHit(d, dep);
        HitsOpen(law, d, inputs[dep].key);
      }
    }
  }

  /** A run of a plan in the store it was made from. */
  ghost predicate RunFromPlan(env: Env, use: Usage, stageOf: map<string, string>, d: Disk, fps: Fingerprints,
                              plan: seq<Planned>)
  {
    && PlannedFrom(env.key, env.sem, use, stageOf, d, env.opts, fps, plan)
    && CleanFingerprints(env.world.fps) && Uses(use, env.opts)
    && Covers(stageOf, RunPlan(env, plan, d).progress.ops)
  }

  /** A run ends in a lawful store, knowing every artifact it refers to. */
  lemma RunEndsLawfully(env: Env, use: Usage, stageOf: map<string, string>, d: Disk, fps: Fingerprints,
                        plan: seq<Planned>)
    requires RunFromPlan(env, use, stageOf, d, fps, plan)
    ensures EndsLawfully(env, use, stageOf, d, RunPlan(env, plan, d).progress)
    ensures SameStages(plan, RunPlan(env, plan, d).progress.plan)
  {
    BuildMakesGoodPlans(env.key, d, env.opts, fps);
    BuildKnows(env.key, env.sem, use, stageOf, d, env.opts, fps);
    BuildNames(env.key, d, env.opts, fps);
    forall j | 0 <= j < |plan| ensures RunnableStage(env, use, plan[j].stage) {
      SelectedFromRegistry(env.opts, j);
    }
    RunIsLawful(env, use, stageOf, d, Begun(plan, d), 0);
    RunIsKeyed(env, plan, d);
  }

  /** Later: after any run, failed and cancelled ones included, in which what a
      cached stage depends on was delivered, these inputs are the ones the
      stage would be handed at the end, as long as they can be read. */
  lemma CachedLater(env: Env, use: Usage, stageOf: map<string, string>, d: Disk, fps: Fingerprints,
                    plan: seq<Planned>, i: nat)
    requires RunFromPlan(env, use, stageOf, d, fps, plan) && i < |plan|
    requires var end := RunPlan(env, plan, d).progress;
             && |end.plan| == |plan| && DependenciesDelivered(plan, end.plan, i)
             && Readable(end.disk, HandedInputs(plan, end.plan, i))
    ensures var end := RunPlan(env, plan, d).progress;
            && AsPlanned(env.key, use, stageOf, end.disk, plan, i, HandedInputs(plan, end.plan, i))
            && Consistent(Lawbook(env.key, env.sem, use, stageOf), end.disk)
  {
    var end := RunPlan(env, plan, d).progress;
    BuildMakesGoodPlans(env.key, d, env.opts, fps);
    RunEndsLawfully(env, use, stageOf, d, fps, plan);
    InputsAreKnown(env.key, use, stageOf, end.plan, i);
    HandedKeysMatch(plan, end.plan, i);
  }

  lemma ConsistentKeeps(law: Law, d: Disk)
    requires Consistent(law, d)
    ensures Consistent(Keeping(law.stageOf), d)
  {
    forall p | p in d.dirs ensures PublishedAt(Keeping(law.stageOf), p, d.dirs[p]) {
      assert PublishedAt(law, p, d.dirs[p]);
    }
    forall k | k in d.rows ensures RowFits(Keeping(law.stageOf), k, d.rows[k], d.clock) {
      assert RowFits(law, k, d.rows[k], d.clock);
    }
  }

  /** In the store a full run leaves, every stage's inputs can be read. */
  lemma ServedInputsAreReadable(law: Law, d: Disk, end: Progress, plan: seq<Planned>, i: nat)
    requires Consistent(law, end.disk) && DistinctIds(law.stageOf.Keys)
    requires GoodPlan(plan) && RanInFull(plan, d, end) && i < |plan|
    requires plan[i].external == ExternalInputs(d, plan[i].stage, SeenAt(plan, i))
    ensures Readable(end.disk, HandedInputs(plan, end.plan, i))
  {
    var inputs := HandedInputs(plan, end.plan, i);
    forall dep | dep in inputs ensures Open(end.disk, inputs[dep]).Some? {
      HandedInputOf(plan, end.plan, i, dep);
      if InPlan(plan, dep) {
        var j :| 0 <= j < |plan| && plan[j].stage.name == dep;
        assert inputs[dep] == end.plan[j].artifact.value;
        HitsOpen(law, end.disk, plan[j].key);
      } else {
        assert LatestIn(end.disk, dep) == LatestIn(d, dep);
        LatestIsAHit(end.disk, dep);
        HitsOpen(law, end.disk, inputs[dep].key);
      }
    }
  }

  /** What was cached is read the same after the run. */
  lemma CachedIsLeftAlone(plan: seq<Planned>, d: Disk, end: Progress, i: nat)
    requires GoodPlan(plan) && RanInFull(plan, d, end) && i < |plan| && plan[i].state == Cached
    requires plan[i].artifact.Some? && plan[i].artifact.value.stage == plan[i].stage.name
    ensures Open(end.disk, plan[i].artifact.value) == Open(d, plan[i].artifact.value)
  {
    var a := plan[i].artifact.value;
    assert !ToRun(plan, 0, plan[i].stage.name);
    assert SameFor(d, end.disk, a.stage);
    assert (a.stage, a.id) in d.dirs <==> (a.stage, a.id) in end.disk.dirs;
  }

  /** What is cached for stage `i` of a plan stands for running the stage in
      `now`, on the inputs it would be handed there. */
  ghost predicate StandsAt(env: Env, use: Usage, d: Disk, fps: Fingerprints, plan: seq<Planned>, now: Progress, i: nat)
    requires i < |plan|
  {
    var s, inputs := plan[i].stage, HandedInputs(plan, now.plan, i);
    && plan[i].artifact.Some? && Subtree(s, env.opts).Canonical? && s.name in fps && InputsHaveTrees(env.key, inputs)
    && Readable(now.disk, inputs)
    && var t := RunTree(env.key, s, env.opts, fps[s.name], inputs);
       forall blind | Unambiguous(env.sem, blind, use.sources, t) ::
         StandsForRunning(env.sem, env.opts, env.world, blind, Open(d, plan[i].artifact.value), now.disk, s, inputs)
  }

  /** After any run, a stage that was planned as cached stands for running it
      there, if what it depends on was delivered and can still be read. */
  lemma CachedAfterRun(env: Env, use: Usage, stageOf: map<string, string>, d: Disk, fps: Fingerprints,
                       plan: seq<Planned>, i: nat)
    requires RunFromPlan(env, use, stageOf, d, fps, plan) && i < |plan| && plan[i].state == Cached
    requires plan[i].stage.name in fps && RunFingerprint(env.world, plan[i].stage.name) == fps[plan[i].stage.name]
    requires var end := RunPlan(env, plan, d).progress;
             && |end.plan| == |plan| && DependenciesDelivered(plan, end.plan, i)
             && Readable(end.disk, HandedInputs(plan, end.plan, i))
    ensures StandsAt(env, use, d, fps, plan, RunPlan(env, plan, d).progress, i)
  {
    var end := RunPlan(env, plan, d).progress;
    CachedLater(env, use, stageOf, d, fps, plan, i);
    var s, inputs := plan[i].stage, HandedInputs(plan, end.plan, i);
    CachedStandsForRunning(env.key, env.sem, use, "", stageOf, d, end.disk, env.opts, fps, env.world, plan, i, inputs);
    var t := RunTree(env.key, s, env.opts, fps[s.name], inputs);
    forall blind | Unambiguous(env.sem, blind, use.sources, t)
      ensures StandsForRunning(env.sem, env.opts, env.world, blind, Open(d, plan[i].artifact.value), end.disk, s, inputs)
    {
      CachedStandsForRunning(env.key, env.sem, use, blind, stageOf, d, end.disk, env.opts, fps, env.world, plan, i, inputs);
    }
  }

  /** A cached stage's artifact is its own. */
  lemma CachedIsOfItsStage(key: Keyer, sem: Semantics, use: Usage, stageOf: map<string, string>, d: Disk, d': Disk,
                           opts: Options, fps: Fingerprints, plan: seq<Planned>, i: nat, inputs: map<string, Artifact>)
    requires PlannedFrom(key, sem, use, stageOf, d, opts, fps, plan) && i < |plan| && plan[i].state == Cached
    requires AsPlanned(key, use, stageOf, d', plan, i, inputs)
    ensures plan[i].artifact.Some? && plan[i].artifact.value.stage == plan[i].stage.name
  {
    CachedOpens(key, sem, use, stageOf, d, opts, fps, plan, i);
    PlannedTree(key, sem, use, stageOf, d, d', opts, fps, plan, i, inputs);
    var a := plan[i].artifact.value;
    DigestIsInjective(key, RunTree(key, plan[i].stage, opts, fps[plan[i].stage.name], inputs), TreeOf(key, a.key, a.stage));
  }

  /** After a run in which every stage succeeded, nothing more is needed: what
      was cached is still there, and is what running the stage after all the
      others would produce. */
  lemma CachedAfterFullRun(env: Env, use: Usage, stageOf: map<string, string>, d: Disk, fps: Fingerprints,
                           plan: seq<Planned>, i: nat)
    requires RunFromPlan(env, use, stageOf, d, fps, plan) && i < |plan| && plan[i].state == Cached
    requires plan[i].stage.name in fps && RunFingerprint(env.world, plan[i].stage.name) == fps[plan[i].stage.name]
    requires FullRun(env, stageOf, d, fps) && FiledByStage(env.key, stageOf)
    ensures var end := RunPlan(env, plan, d).progress;
            && StandsAt(env, use, d, fps, plan, end, i)
            && Open(end.disk, plan[i].artifact.value) == Open(d, plan[i].artifact.value)
  {
    var end, law := RunPlan(env, plan, d).progress, Lawbook(env.key, env.sem, use, stageOf);
    ConsistentKeeps(law, d);
    ConsistentHitsAreHex(env.key, env.sem, use, stageOf, d);
    FullRunServes(env, stageOf, d, fps);
    BuildMakesGoodPlans(env.key, d, env.opts, fps);
    RunEndsLawfully(env, use, stageOf, d, fps, plan);
    PlannedKey(env.key, d, env.opts, fps, i);
    ServedInputsAreReadable(law, d, end, plan, i);
    CachedLater(env, use, stageOf, d, fps, plan, i);
    CachedAfterRun(env, use, stageOf, d, fps, plan, i);
    CachedIsOfItsStage(env.key, env.sem, use, stageOf, d, end.disk, env.opts, fps, plan, i,
                       HandedInputs(plan, end.plan, i));
    CachedIsLeftAlone(plan, d, end, i);
  }

  /** In a project whose source never changes: skipping a cached stage and
      running it after all the others come to the same. */
  lemma SkippingIsRunning(env: Env, use: Usage, stageOf: map<string, string>, d: Disk, fps: Fingerprints, plan: seq<Planned>, i: nat)
    requires use.sources == {env.opts.source} && RunFromPlan(env, use, stageOf, d, fps, plan) && i < |plan| && plan[i].state == Cached
    requires plan[i].stage.name in fps && RunFingerprint(env.world, plan[i].stage.name) == fps[plan[i].stage.name]
    requires FullRun(env, stageOf, d, fps) && FiledByStage(env.key, stageOf)
    ensures var end := RunPlan(env, plan, d).progress;
            && |end.plan| == |plan|
            && var s, inputs := plan[i].stage, HandedInputs(plan, end.plan, i);
               && plan[i].artifact.Some? && Subtree(s, env.opts).Canonical? && Readable(end.disk, inputs)
               && Open(end.disk, plan[i].artifact.value) == Some(Product(env.sem, env.opts, env.world, end.disk, s, inputs))
  {
    CachedAfterFullRun(env, use, stageOf, d, fps, plan, i);
    var end := RunPlan(env, plan, d).progress;
    RunEndsLawfully(env, use, stageOf, d, fps, plan);
    var inputs := HandedInputs(plan, end.plan, i);
    OneSourceIsUnambiguous(env.sem, env.opts.source,
                           RunTree(env.key, plan[i].stage, env.opts, fps[plan[i].stage.name], inputs));
  }
}
