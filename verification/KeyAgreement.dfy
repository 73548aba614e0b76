/** The executor commits under the keys the planner predicted. */
module KeyAgreement {
  import opened ArtifactHash
  import opened KeyTrees
  import opened ArtifactStore
  import opened Planning
  import opened Execution
  import opened PlanFacts
  import opened Settlement
  import opened Provenance
  import opened Agreement

  /** What a stage is handed depends only on the stages before it. */
  lemma HandedBefore(plan: seq<Planned>, a: seq<Planned>, b: seq<Planned>, k: nat)
    requires GoodPlan(plan) && SameStages(plan, a) && SameStages(plan, b) && k < |plan|
    requires forall j | 0 <= j < k :: a[j] == b[j]
    ensures HandedInputs(plan, a, k) == HandedInputs(plan, b, k)
  {
    forall dep | dep in Dependencies(plan[k].stage)
      ensures InputOf(dep, ByName(a), plan[k].external) == InputOf(dep, ByName(b), plan[k].external)
    {
      HandedInputOf(plan, a, k, dep);
      HandedInputOf(plan, b, k, dep);
      if InPlan(plan, dep) {
        assert GoodDependencies(plan, k);
        var j :| 0 <= j < k && plan[..k][j].stage.name == dep;
        assert plan[j].stage.name == dep;
      }
    }
  }

  lemma CancelKeeps(before: seq<Planned>, st: Progress)
    requires SameStages(before, st.plan)
    ensures SameStages(before, CancelRemaining(st).plan)
    ensures forall j | 0 <= j < |before| && st.plan[j].state.Terminal() :: CancelRemaining(st).plan[j] == st.plan[j]
    ensures forall j | 0 <= j < |before| && !st.plan[j].state.Terminal() ::
              CancelRemaining(st).plan[j].artifact == st.plan[j].artifact
  {
  }

  /** The artifact a run gives a pending stage was keyed on what that stage was handed. */
  ghost predicate KeyedOnInputs(env: Env, before: seq<Planned>, now: seq<Planned>, k: nat)
    requires k < |before| == |now|
  {
    now[k].artifact.Some? ==>
      && Subtree(before[k].stage, env.opts).Canonical? && before[k].stage.name in env.world.fps
      && now[k].artifact.value.key == RunKey(env, before[k].stage, HandedInputs(before, now, k))
  }

  /** What a stage's run publishes is keyed on the inputs it was handed. */
  lemma RunStageKeyed(env: Env, d: Disk, i: nat, s: Stage, inputs: map<string, Artifact>)
    ensures var r := Execution.RunStage(env, d, i, s, inputs);
            r.artifact.Some? ==>
              Subtree(s, env.opts).Canonical? && s.name in env.world.fps && r.artifact.value.key == RunKey(env, s, inputs)
  {
  }

  lemma TurnKeyed(env: Env, before: seq<Planned>, st: Progress, i: nat)
    requires GoodPlan(before) && Going(before, st, i) && i < |before| && before[i].state == Pending
    ensures SameStages(before, RunPending(env, st, i).plan)
    ensures forall j | 0 <= j < |before| && j != i :: RunPending(env, st, i).plan[j] == st.plan[j]
    ensures KeyedOnInputs(env, before, RunPending(env, st, i).plan, i)
  {
    TurnEnds(env, before, st, i);
    HandedBefore(before, st.plan, RunPending(env, st, i).plan, i);
    TurnShape(env, st, i);
    RunStageKeyed(env, st.disk, i, before[i].stage, HandedInputs(before, st.plan, i));
    assert GoodEntry(before[i]);
  }

  /** From stage `i` on: what has ended stays, the others get keyed artifacts. */
  ghost predicate KeptAndKeyed(env: Env, before: seq<Planned>, plan: seq<Planned>, now: seq<Planned>, i: nat) {
    && |plan| == |before| && SameStages(before, now)
    && (forall j | 0 <= j < |before| && (j < i || before[j].state != Pending) :: now[j] == plan[j])
    && (forall k | i <= k < |before| && before[k].state == Pending :: KeyedOnInputs(env, before, now, k))
  }

  lemma CancelKeptAndKeyed(env: Env, before: seq<Planned>, st: Progress, i: nat)
    requires GoodPlan(before) && Going(before, st, i)
    ensures KeptAndKeyed(env, before, st.plan, CancelRemaining(st).plan, i)
    ensures i == |before| ==> KeptAndKeyed(env, before, st.plan, st.plan, i)
  {
    CancelKeeps(before, st);
    forall k | 0 <= k < |before|
      ensures before[k].state == Pending && k >= i ==> st.plan[k].artifact.None? && !st.plan[k].state.Terminal()
      ensures before[k].state != Pending ==> st.plan[k].state.Terminal()
    {
      assert GoodEntry(before[k]);
    }
  }

  lemma TurnKeptAndKeyed(env: Env, before: seq<Planned>, st: Progress, i: nat, now: seq<Planned>)
    requires GoodPlan(before) && Going(before, st, i) && i < |before| && before[i].state == Pending
    requires KeptAndKeyed(env, before, RunPending(env, st, i).plan, now, i + 1)
    ensures KeptAndKeyed(env, before, st.plan, now, i)
  {
    TurnKeyed(env, before, st, i);
    var after := RunPending(env, st, i).plan;
    assert forall j | 0 <= j < i :: now[j] == after[j];
    HandedBefore(before, after, now, i);
    assert now[i] == after[i];
    assert KeyedOnInputs(env, before, now, i);
  }

  lemma {:induction false} RunKeepsAndKeys(env: Env, before: seq<Planned>, st: Progress, i: nat)
    requires GoodPlan(before) && Going(before, st, i)
    ensures KeptAndKeyed(env, before, st.plan, RunFrom(env, st, i).progress.plan, i)
    decreases |before| - i
  {
    CancelKeptAndKeyed(env, before, st, i);
    if i < |before| {
      if before[i].state != Pending {
        SettledStageIsPassed(before, st, i);
        RunKeepsAndKeys(env, before, st, i + 1);
      } else if !CancelledAt(env.world, 2 * i) {
        TurnKeepsGoing(env, before, st, i);
        RunKeepsAndKeys(env, before, RunPending(env, st, i), i + 1);
        TurnKeptAndKeyed(env, before, st, i, RunFrom(env, st, i).progress.plan);
      }
    }
  }

  /** The run starts from the plan: cached stages keep their artifacts. */
  lemma RunIsKeyed(env: Env, plan: seq<Planned>, d: Disk)
    requires GoodPlan(plan)
    ensures var now := RunPlan(env, plan, d).progress.plan;
            KeptAndKeyed(env, plan, plan, now, 0)
  {
    StartIsGoing(plan, d);
    RunKeepsAndKeys(env, plan, Begun(plan, d), 0);
  }

  ghost predicate AllSucceeded(plan: seq<Planned>) {
    forall j | 0 <= j < |plan| :: plan[j].state.Succeeded() && plan[j].artifact.Some?
  }

  /** The fingerprint each executed stage has when it runs is the one it was planned with. */
  ghost predicate StableFingerprints(plan: seq<Planned>, fps: Fingerprints, w: World) {
    forall i | 0 <= i < |plan| && plan[i].state == Pending ::
      plan[i].stage.name in fps && RunFingerprint(w, plan[i].stage.name) == fps[plan[i].stage.name]
  }

  /** Every executed stage committed under the key it was planned with. */
  ghost predicate KeysAsPlanned(plan: seq<Planned>, now: seq<Planned>)
    requires |plan| == |now|
  {
    forall i | 0 <= i < |plan| && plan[i].state == Pending ::
      now[i].artifact.Some? && now[i].artifact.value.key == plan[i].key
  }

  lemma CachedDelivers(key: Keyer, d: Disk, opts: Options, fps: Fingerprints, j: nat)
    requires ValidRegistry(opts.registry) && BuildPlan(key, d, opts, fps).Ok?
    requires IdentifiesInputs(key) && CleanOptions(opts) && CleanFingerprints(fps) && HexHits(d)
    requires j < |BuildPlan(key, d, opts, fps).value|
    ensures var p := BuildPlan(key, d, opts, fps).value[j];
            && (p.state != Skipped ==> p.key != "")
            && (p.state == Cached ==> Delivered(p, p))
  {
    PlannedKey(key, d, opts, fps, j);
    PlanKeysAreHex(key, d, opts, fps, j);
    var p := BuildPlan(key, d, opts, fps).value[j];
    BuildNames(key, d, opts, fps);
    assert GoodEntry(p);
  }

  /** Once the stages before it delivered, a stage is keyed as planned iff its
      fingerprint has not changed. */
  lemma KeyedAsPlannedIffStable(env: Env, d: Disk, fps: Fingerprints, now: seq<Planned>, i: nat)
    requires ValidRegistry(env.opts.registry) && BuildPlan(env.key, d, env.opts, fps).Ok?
    requires CleanEnv(env) && CleanFingerprints(fps) && HexHits(d)
    requires var plan := BuildPlan(env.key, d, env.opts, fps).value;
             && i < |plan| && SameStages(plan, now) && plan[i].state == Pending
             && (forall j | 0 <= j < i :: Delivered(plan[j], now[j]))
             && KeyedOnInputs(env, plan, now, i) && now[i].artifact.Some?
    ensures var p := BuildPlan(env.key, d, env.opts, fps).value[i];
            && p.stage.name in fps
            && (now[i].artifact.value.key == p.key <==> RunFingerprint(env.world, p.stage.name) == fps[p.stage.name])
  {
    var plan := BuildPlan(env.key, d, env.opts, fps).value;
    var s := plan[i].stage;
    BuildMakesGoodPlans(env.key, d, env.opts, fps);
    PlannedKey(env.key, d, env.opts, fps, i);
    PlanKeysAreHex(env.key, d, env.opts, fps, i);
    HandedKeysMatch(plan, now, i);
    var upstream := PlannedKeys(plan, i);
    var ran := KeyInputsOf(s, env.opts, RunFingerprint(env.world, s.name), upstream);
    var predicted := KeyInputsOf(s, env.opts, fps[s.name], upstream);
    assert WellFormed(predicted) && CleanFingerprint(RunFingerprint(env.world, s.name));
    assert WellFormed(ran);
  }

  lemma StageDelivers(env: Env, d: Disk, fps: Fingerprints, now: seq<Planned>, j: nat)
    requires ValidRegistry(env.opts.registry) && BuildPlan(env.key, d, env.opts, fps).Ok?
    requires CleanEnv(env) && CleanFingerprints(fps) && HexHits(d)
    requires var plan := BuildPlan(env.key, d, env.opts, fps).value;
             && j < |plan| && KeptAndKeyed(env, plan, plan, now, 0) && AllSucceeded(now)
             && (forall k | 0 <= k < j :: Delivered(plan[k], now[k]))
             && (StableFingerprints(plan, fps, env.world) || KeysAsPlanned(plan, now))
    ensures Delivered(BuildPlan(env.key, d, env.opts, fps).value[j], now[j])
  {
    var plan := BuildPlan(env.key, d, env.opts, fps).value;
    CachedDelivers(env.key, d, env.opts, fps, j);
    BuildNames(env.key, d, env.opts, fps);
    assert GoodEntry(plan[j]);
    if plan[j].state == Pending {
      KeyedAsPlannedIffStable(env, d, fps, now, j);
    }
  }

  lemma {:induction false} StableRunsDeliver(env: Env, d: Disk, fps: Fingerprints, now: seq<Planned>, i: nat)
    requires ValidRegistry(env.opts.registry) && BuildPlan(env.key, d, env.opts, fps).Ok?
    requires CleanEnv(env) && CleanFingerprints(fps) && HexHits(d)
    requires var plan := BuildPlan(env.key, d, env.opts, fps).value;
             && i <= |plan| && KeptAndKeyed(env, plan, plan, now, 0) && AllSucceeded(now)
             && (StableFingerprints(plan, fps, env.world) || KeysAsPlanned(plan, now))
    ensures forall j | 0 <= j < i :: Delivered(BuildPlan(env.key, d, env.opts, fps).value[j], now[j])
    decreases i
  {
    var plan := BuildPlan(env.key, d, env.opts, fps).value;
    forall j | 0 <= j < i ensures Delivered(plan[j], now[j]) {
      StableRunsDeliver(env, d, fps, now, j);
      StageDelivers(env, d, fps, now, j);
    }
  }

  /** Planner and executor agree: when every planned stage completes, each one
      commits under the key Build predicted, before any upstream artifact
      existed, if and only if no stage's fingerprint changed in between. */
  lemma PlannerAndExecutorAgree(env: Env, d: Disk, fps: Fingerprints)
    requires ValidRegistry(env.opts.registry) && BuildPlan(env.key, d, env.opts, fps).Ok?
    requires CleanEnv(env) && CleanFingerprints(fps) && HexHits(d)
    requires AllSucceeded(RunPlan(env, BuildPlan(env.key, d, env.opts, fps).value, d).progress.plan)
    ensures var plan := BuildPlan(env.key, d, env.opts, fps).value;
            var now := RunPlan(env, plan, d).progress.plan;
            && |now| == |plan|
            && (KeysAsPlanned(plan, now) <==> StableFingerprints(plan, fps, env.world))
  {
    var plan := BuildPlan(env.key, d, env.opts, fps).value;
    BuildMakesGoodPlans(env.key, d, env.opts, fps);
    RunIsKeyed(env, plan, d);
    AgreeIffStable(env, d, fps, RunPlan(env, plan, d).progress.plan);
  }

  lemma AgreeIffStable(env: Env, d: Disk, fps: Fingerprints, now: seq<Planned>)
    requires ValidRegistry(env.opts.registry) && BuildPlan(env.key, d, env.opts, fps).Ok?
    requires CleanEnv(env) && CleanFingerprints(fps) && HexHits(d)
    requires var plan := BuildPlan(env.key, d, env.opts, fps).value;
             GoodPlan(plan) && KeptAndKeyed(env, plan, plan, now, 0) && AllSucceeded(now)
    ensures |now| == |BuildPlan(env.key, d, env.opts, fps).value|
    ensures var plan := BuildPlan(env.key, d, env.opts, fps).value;
            KeysAsPlanned(plan, now) <==> StableFingerprints(plan, fps, env.world)
  {
    var plan := BuildPlan(env.key, d, env.opts, fps).value;
    if KeysAsPlanned(plan, now) || StableFingerprints(plan, fps, env.world) {
      StableRunsDeliver(env, d, fps, now, |plan|);
      forall i | 0 <= i < |plan| && plan[i].state == Pending
        ensures plan[i].stage.name in fps
        ensures now[i].artifact.value.key == plan[i].key <==>
                  RunFingerprint(env.world, plan[i].stage.name) == fps[plan[i].stage.name]
      {
        KeyedAsPlannedIffStable(env, d, fps, now, i);
      }
    }
  }
}
