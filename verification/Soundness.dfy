/** Cache soundness over all histories. */
module Soundness {
  import opened ArtifactHash
  import opened KeyTrees
  import opened ArtifactStore
  import opened Optional
  import opened StoreSafety
  import opened Planning
  import opened Planner
  import opened Execution
  import opened PlanFacts
  import opened Provenance
  import opened Agreement

  // ---------------------------------------------------------------------
  // One run
  // ---------------------------------------------------------------------

  ghost predicate KnownEntry(key: Keyer, use: Usage, stageOf: map<string, string>, p: Planned) {
    && (p.artifact.Some? ==> Known(key, use, stageOf, p.artifact.value) && p.artifact.value.stage == p.stage.name)
    && AllKnown(key, use, stageOf, p.external) && forall dep | dep in p.external :: p.external[dep].stage == dep
  }

  ghost predicate KnownPlan(key: Keyer, use: Usage, stageOf: map<string, string>, plan: seq<Planned>) {
    forall j | 0 <= j < |plan| :: KnownEntry(key, use, stageOf, plan[j])
  }

  /** A planned stage refers to what the store finds, and to nothing else. */
  lemma PlannedFromHits(key: Keyer, d: Disk, opts: Options, fps: Fingerprints, before: ByStage, sel: Selected)
    requires PlanStage(key, d, opts, fps, before, sel).Ok?
    ensures var p := PlanStage(key, d, opts, fps, before, sel).value;
            && (p.artifact.Some? ==> p.artifact == Lookup(d, p.key))
            && forall dep | dep in p.external :: LatestIn(d, dep) == Some(p.external[dep])
  {
  }

  lemma PlannedIsKnown(key: Keyer, sem: Semantics, use: Usage, stageOf: map<string, string>, d: Disk, p: Planned)
    requires DistinctIds(stageOf.Keys) && Consistent(Lawbook(key, sem, use, stageOf), d)
    requires p.artifact.Some? ==> p.artifact == Lookup(d, p.key) && p.artifact.value.stage == p.stage.name
    requires forall dep | dep in p.external :: LatestIn(d, dep) == Some(p.external[dep])
    ensures KnownEntry(key, use, stageOf, p)
  {
    HitsAreKnown(key, sem, use, stageOf, d, p.key);
    forall dep | dep in p.external ensures Known(key, use, stageOf, p.external[dep]) && p.external[dep].stage == dep {
      LatestIsAHit(d, dep);
      HitsAreKnown(key, sem, use, stageOf, d, p.external[dep].key);
    }
  }

  /** Everything a plan refers to is known in the store it was made from. */
  lemma BuildKnows(key: Keyer, sem: Semantics, use: Usage, stageOf: map<string, string>, d: Disk,
                   opts: Options, fps: Fingerprints)
    requires IdentifiesInputs(key) && DistinctIds(stageOf.Keys) && Consistent(Lawbook(key, sem, use, stageOf), d)
    requires ValidRegistry(opts.registry) && CleanOptions(opts) && CleanFingerprints(fps) && BuildPlan(key, d, opts, fps).Ok?
    ensures KnownPlan(key, use, stageOf, BuildPlan(key, d, opts, fps).value)
  {
    var plan, sel := BuildPlan(key, d, opts, fps).value, Selection(opts).value;
    PlanLength(key, d, opts, fps, sel);
    forall j | 0 <= j < |plan| ensures KnownEntry(key, use, stageOf, plan[j]) {
      PlanAt(key, d, opts, fps, sel, j);
      PlannedFromHits(key, d, opts, fps, ByName(plan[..j]), sel[j]);
      PlannedIsOwn(key, sem, use, stageOf, d, opts, fps, j);
      PlannedIsKnown(key, sem, use, stageOf, d, plan[j]);
    }
  }

  lemma InputsAreKnown(key: Keyer, use: Usage, stageOf: map<string, string>, plan: seq<Planned>, i: nat)
    requires KnownPlan(key, use, stageOf, plan) && i < |plan|
    ensures AllKnown(key, use, stageOf, Inputs(plan[i].stage, ByName(plan), plan[i].external))
    ensures OwnInputs(plan[i].stage, Inputs(plan[i].stage, ByName(plan), plan[i].external))
  {
    var inputs := Inputs(plan[i].stage, ByName(plan), plan[i].external);
    ByNameFinds(plan);
    forall dep | dep in inputs ensures Known(key, use, stageOf, inputs[dep]) && inputs[dep].stage == dep {
      if dep in ByName(plan) && ByName(plan)[dep].artifact.Some? {
        var j :| 0 <= j < |plan| && plan[j].stage.name == dep && ByName(plan)[dep] == plan[j];
        assert KnownEntry(key, use, stageOf, plan[j]);
      } else {
        assert KnownEntry(key, use, stageOf, plan[i]);
      }
    }
  }

  lemma {:induction false} AfterAppend(d: Disk, a: seq<Run>, b: seq<Run>)
    ensures After(d, a + b) == After(After(d, a), b)
    decreases |b|
  {
    if b == [] {
      assert a + b == a;
    } else {
      var n := |b| - 1;
      assert (a + b)[..|a + b| - 1] == a + b[..n];
      AfterAppend(d, a, b[..n]);
    }
  }

  lemma CoversPart(stageOf: map<string, string>, ops: seq<Run>, part: seq<Run>, at: nat)
    requires Covers(stageOf, ops) && at + |part| <= |ops| && ops[at..at + |part|] == part
    ensures Covers(stageOf, part)
  {
    assert forall i | 0 <= i < |part| :: part[i] == ops[at + i];
  }

  lemma CoversLater(stageOf: map<string, string>, before: seq<Run>, later: seq<Run>)
    requires Covers(stageOf, before + later)
    ensures Covers(stageOf, later)
  {
    CoversPart(stageOf, before + later, later, |before|);
  }

  /** The run state that soundness needs: what is done obeys the law, and the
      store is where it leads. */
  ghost predicate Lawful(env: Env, use: Usage, stageOf: map<string, string>, d0: Disk, st: Progress) {
    var law := Lawbook(env.key, env.sem, use, stageOf);
    && KnownPlan(env.key, use, stageOf, st.plan)
    && (forall j | 0 <= j < |st.plan| :: RunnableStage(env, use, st.plan[j].stage))
    && AllObey(law, st.ops) && st.disk == After(d0, st.ops) && Consistent(law, st.disk)
  }

  lemma {:induction false} OpsGrow(env: Env, st: Progress, i: nat)
    requires i <= |st.plan|
    ensures st.ops <= RunFrom(env, st, i).progress.ops
    decreases |st.plan| - i
  {
    if i < |st.plan| {
      if st.plan[i].state != Pending {
        OpsGrow(env, st, i + 1);
      } else if !CancelledAt(env.world, 2 * i) {
        OpsGrow(env, RunPending(env, st, i), i + 1);
      }
    }
  }

  lemma RanLawfully(env: Env, use: Usage, stageOf: map<string, string>, d0: Disk, st: Progress, i: nat,
                    run: StageRun, next: Progress)
    requires Lawful(env, use, stageOf, d0, st) && i < |st.plan|
    requires AllObey(Lawbook(env.key, env.sem, use, stageOf), run.ops)
    requires run.artifact.Some? ==>
               Known(env.key, use, stageOf, run.artifact.value) && run.artifact.value.stage == st.plan[i].stage.name
    requires next.disk == After(st.disk, run.ops) && next.ops == st.ops + run.ops
    requires next.plan == st.plan[i := st.plan[i].(state := run.state, artifact := run.artifact, err := run.err)]
    ensures Lawful(env, use, stageOf, d0, next)
  {
    HistoriesKeepConsistent(Lawbook(env.key, env.sem, use, stageOf), st.disk, run.ops);
    AfterAppend(d0, st.ops, run.ops);
    forall j | 0 <= j < |st.plan|
      ensures KnownEntry(env.key, use, stageOf, next.plan[j]) && RunnableStage(env, use, next.plan[j].stage)
    {
      assert KnownEntry(env.key, use, stageOf, st.plan[j]) && RunnableStage(env, use, st.plan[j].stage);
    }
  }

  lemma SkippedLawfully(env: Env, use: Usage, stageOf: map<string, string>, d0: Disk, st: Progress, i: nat, p: Planned)
    requires Lawful(env, use, stageOf, d0, st) && i < |st.plan|
    requires p.stage == st.plan[i].stage && p.artifact == st.plan[i].artifact && p.external == st.plan[i].external
    ensures Lawful(env, use, stageOf, d0, Settle(st, i, p))
  {
    var plan := st.plan[i := p];
    forall j | 0 <= j < |plan| ensures KnownEntry(env.key, use, stageOf, plan[j]) && RunnableStage(env, use, plan[j].stage) {
      assert KnownEntry(env.key, use, stageOf, st.plan[j]) && RunnableStage(env, use, st.plan[j].stage);
    }
  }

  lemma TurnRunObeys(env: Env, use: Usage, stageOf: map<string, string>, d0: Disk, st: Progress, i: nat)
    requires CleanEnv(env) && DistinctIds(stageOf.Keys) && i < |st.plan|
    requires Lawful(env, use, stageOf, d0, st) && Covers(stageOf, TurnRun(env, st, i).ops)
    ensures AllObey(Lawbook(env.key, env.sem, use, stageOf), TurnRun(env, st, i).ops)
    ensures var made := TurnRun(env, st, i).artifact;
            made.Some? ==> Known(env.key, use, stageOf, made.value) && made.value.stage == st.plan[i].stage.name
  {
    var p := st.plan[i];
    InputsAreKnown(env.key, use, stageOf, st.plan, i);
    assert RunnableStage(env, use, p.stage);
    RunStageObeys(env, use, stageOf, st.disk, i, p.stage, Inputs(p.stage, ByName(st.plan), p.external));
  }

  lemma TurnIsLawful(env: Env, use: Usage, stageOf: map<string, string>, d0: Disk, st: Progress, i: nat)
    requires CleanEnv(env) && DistinctIds(stageOf.Keys) && i < |st.plan|
    requires Lawful(env, use, stageOf, d0, st) && Covers(stageOf, RunPending(env, st, i).ops)
    ensures Lawful(env, use, stageOf, d0, RunPending(env, st, i))
  {
    TurnShape(env, st, i);
    if TurnRan(env, st, i) {
      var run := TurnRun(env, st, i);
      CoversLater(stageOf, st.ops, run.ops);
      TurnRunObeys(env, use, stageOf, d0, st, i);
      RanLawfully(env, use, stageOf, d0, st, i, run, RunPending(env, st, i));
    } else {
      SkippedLawfully(env, use, stageOf, d0, st, i, RunPending(env, st, i).plan[i]);
    }
  }

  /** What was covered at the end was covered before. */
  lemma EarlierIsCovered(env: Env, stageOf: map<string, string>, st: Progress, i: nat)
    requires i <= |st.plan| && Covers(stageOf, RunFrom(env, st, i).progress.ops)
    ensures Covers(stageOf, st.ops)
  {
    OpsGrow(env, st, i);
    CoversPart(stageOf, RunFrom(env, st, i).progress.ops, st.ops, 0);
  }

  /** Where a run ends is where its operations lead, and they obeyed the law. */
  ghost predicate EndsLawfully(env: Env, use: Usage, stageOf: map<string, string>, d0: Disk, end: Progress) {
    var law := Lawbook(env.key, env.sem, use, stageOf);
    && KnownPlan(env.key, use, stageOf, end.plan)
    && AllObey(law, end.ops) && end.disk == After(d0, end.ops) && Consistent(law, end.disk)
  }

  lemma CancelKeepsKnown(key: Keyer, use: Usage, stageOf: map<string, string>, st: Progress)
    requires KnownPlan(key, use, stageOf, st.plan)
    ensures KnownPlan(key, use, stageOf, CancelRemaining(st).plan)
  {
    forall j | 0 <= j < |st.plan| ensures KnownEntry(key, use, stageOf, CancelOne(st.plan[j])) {
      assert KnownEntry(key, use, stageOf, st.plan[j]);
    }
  }

  lemma {:induction false} RunIsLawful(env: Env, use: Usage, stageOf: map<string, string>, d0: Disk,
                                       st: Progress, i: nat)
    requires CleanEnv(env) && DistinctIds(stageOf.Keys) && i <= |st.plan|
    requires Lawful(env, use, stageOf, d0, st) && Covers(stageOf, RunFrom(env, st, i).progress.ops)
    ensures EndsLawfully(env, use, stageOf, d0, RunFrom(env, st, i).progress)
    decreases |st.plan| - i, 1
  {
    CancelKeepsKnown(env.key, use, stageOf, st);
    if i < |st.plan| {
      if st.plan[i].state != Pending {
        RunIsLawful(env, use, stageOf, d0, st, i + 1);
      } else if !CancelledAt(env.world, 2 * i) {
        TurnAndRestLawful(env, use, stageOf, d0, st, i);
      }
    }
  }

  lemma {:induction false} TurnAndRestLawful(env: Env, use: Usage, stageOf: map<string, string>, d0: Disk,
                                             st: Progress, i: nat)
    requires CleanEnv(env) && DistinctIds(stageOf.Keys) && i < |st.plan| == |RunPending(env, st, i).plan|
    requires Lawful(env, use, stageOf, d0, st) && Covers(stageOf, RunFrom(env, RunPending(env, st, i), i + 1).progress.ops)
    ensures EndsLawfully(env, use, stageOf, d0, RunFrom(env, RunPending(env, st, i), i + 1).progress)
    decreases |st.plan| - i, 0
  {
    CoveredTurnIsLawful(env, use, stageOf, d0, st, i);
    RunIsLawful(env, use, stageOf, d0, RunPending(env, st, i), i + 1);
  }

  lemma CoveredTurnIsLawful(env: Env, use: Usage, stageOf: map<string, string>, d0: Disk, st: Progress, i: nat)
    requires CleanEnv(env) && DistinctIds(stageOf.Keys) && i < |st.plan| == |RunPending(env, st, i).plan|
    requires Lawful(env, use, stageOf, d0, st) && Covers(stageOf, RunFrom(env, RunPending(env, st, i), i + 1).progress.ops)
    ensures Lawful(env, use, stageOf, d0, RunPending(env, st, i))
  {
    EarlierIsCovered(env, stageOf, RunPending(env, st, i), i + 1);
    TurnIsLawful(env, use, stageOf, d0, st, i);
  }

  // ---------------------------------------------------------------------
  // Histories
  // ---------------------------------------------------------------------

  /** What can happen to a store: a plan is made; a plan made earlier is run,
      whatever happened in between, possibly to be cut off by a crash after so
      many steps of one of its operations; or the store is swept, cleared or
      pruned by hand, possibly not to the end. */
  datatype Action =
    | MakePlan(opts: Options, fps: Fingerprints)
    | RunMade(which: nat, world: World, crash: Option<(nat, nat)>)
    | Maintain(run: Run)

  datatype Made = Made(opts: Options, plan: seq<Planned>)

  /** What was done to the store, and the plans made so far. */
  datatype Past = Past(ops: seq<Run>, plans: seq<Made>)

  function CutOff(ops: seq<Run>, crash: Option<(nat, nat)>): seq<Run> {
    match crash
    case None => ops
    case Some((c, n)) =>
      if c >= |ops| then ops
      else ops[..c] + [Stopped(ops[c].op, if ops[c].Whole? then n else Min(n, ops[c].after))]
  }

  /** What running a plan does to the store if nothing crashes. */
  ghost function MadeOps(key: Keyer, sem: Semantics, d: Disk, made: Made, world: World): seq<Run> {
    RunPlan(Env(key, sem, made.opts, world), made.plan, d).progress.ops
  }

  ghost function Next(key: Keyer, sem: Semantics, past: Past, a: Action): Past {
    var d := After(EMPTY_DISK, past.ops);
    match a
    case Maintain(run) => past.(ops := past.ops + [run])
    case MakePlan(opts, fps) =>
      (match BuildPlan(key, d, opts, fps)
       case Error(_) => past
       case Ok(plan) => past.(plans := past.plans + [Made(opts, plan)]))
    case RunMade(which, world, crash) =>
      if which >= |past.plans| then past
      else past.(ops := past.ops + CutOff(MadeOps(key, sem, d, past.plans[which], world), crash))
  }

  ghost function HistoryOf(key: Keyer, sem: Semantics, actions: seq<Action>): Past
    decreases |actions|
  {
    if actions == [] then Past([], [])
    else Next(key, sem, HistoryOf(key, sem, actions[..|actions| - 1]), actions[|actions| - 1])
  }

  /** Every operation of a history, in order. */
  ghost function HistoryOps(key: Keyer, sem: Semantics, actions: seq<Action>): seq<Run> {
    HistoryOf(key, sem, actions).ops
  }

  /** The attempts a history's runs would make if none crashed. */
  ghost predicate CoversAction(key: Keyer, sem: Semantics, stageOf: map<string, string>, past: Past, a: Action) {
    a.RunMade? && a.which < |past.plans| ==>
      Covers(stageOf, MadeOps(key, sem, After(EMPTY_DISK, past.ops), past.plans[a.which], a.world))
  }

  ghost predicate GoodAction(use: Usage, a: Action) {
    match a
    case Maintain(run) => !run.op.Attempt?
    case MakePlan(opts, fps) => ValidRegistry(opts.registry) && CleanOptions(opts) && CleanFingerprints(fps) && Uses(use, opts)
    case RunMade(which, world, crash) => CleanFingerprints(world.fps)
  }

  /** `stageOf` names the stage of every key the history attempts. */
  ghost predicate CoversHistory(key: Keyer, sem: Semantics, stageOf: map<string, string>, actions: seq<Action>) {
    forall n | 0 <= n < |actions| :: CoversAction(key, sem, stageOf, HistoryOf(key, sem, actions[..n]), actions[n])
  }

  lemma CutOffObeys(law: Law, ops: seq<Run>, crash: Option<(nat, nat)>)
    requires AllObey(law, ops)
    ensures AllObey(law, CutOff(ops, crash))
  {
  }

  /** A plan that can be run in any lawful store. */
  ghost predicate GoodMade(key: Keyer, use: Usage, stageOf: map<string, string>, made: Made) {
    && CleanOptions(made.opts) && Uses(use, made.opts) && KnownPlan(key, use, stageOf, made.plan)
    && forall j | 0 <= j < |made.plan| :: made.plan[j].stage in made.opts.registry
  }

  lemma MadeIsGood(key: Keyer, sem: Semantics, use: Usage, stageOf: map<string, string>, d: Disk, opts: Options, fps: Fingerprints)
    requires IdentifiesInputs(key) && DistinctIds(stageOf.Keys) && Consistent(Lawbook(key, sem, use, stageOf), d)
    requires GoodAction(use, MakePlan(opts, fps)) && BuildPlan(key, d, opts, fps).Ok?
    ensures GoodMade(key, use, stageOf, Made(opts, BuildPlan(key, d, opts, fps).value))
  {
    var plan := BuildPlan(key, d, opts, fps).value;
    BuildKnows(key, sem, use, stageOf, d, opts, fps);
    BuildNames(key, d, opts, fps);
    forall j | 0 <= j < |plan| ensures plan[j].stage in opts.registry {
      SelectedFromRegistry(opts, j);
    }
  }

  lemma MadeObeys(key: Keyer, sem: Semantics, use: Usage, stageOf: map<string, string>, d: Disk, made: Made, world: World)
    requires IdentifiesInputs(key) && DistinctIds(stageOf.Keys) && Consistent(Lawbook(key, sem, use, stageOf), d)
    requires GoodMade(key, use, stageOf, made) && CleanFingerprints(world.fps)
    requires Covers(stageOf, MadeOps(key, sem, d, made, world))
    ensures AllObey(Lawbook(key, sem, use, stageOf), MadeOps(key, sem, d, made, world))
  {
    var env := Env(key, sem, made.opts, world);
    assert forall j | 0 <= j < |made.plan| :: RunnableStage(env, use, made.plan[j].stage);
    RunIsLawful(env, use, stageOf, d, Begun(made.plan, d), 0);
  }

  ghost predicate GoodHistory(key: Keyer, sem: Semantics, use: Usage, stageOf: map<string, string>,
                              actions: seq<Action>)
  {
    && (forall n | 0 <= n < |actions| :: GoodAction(use, actions[n]))
    && CoversHistory(key, sem, stageOf, actions)
  }

  /** Every action but the last is as good in a shorter history. */
  lemma GoodEarlier(key: Keyer, sem: Semantics, use: Usage, stageOf: map<string, string>,
                    actions: seq<Action>, shorter: seq<Action>, m: nat)
    requires GoodHistory(key, sem, use, stageOf, actions)
    requires m < |shorter| < |actions| && shorter == actions[..|shorter|]
    ensures GoodAction(use, shorter[m])
    ensures CoversAction(key, sem, stageOf, HistoryOf(key, sem, shorter[..m]), shorter[m])
  {
    assert shorter[..m] == actions[..m] && shorter[m] == actions[m];
    assert GoodAction(use, actions[m]);
  }

  lemma GoodShorter(key: Keyer, sem: Semantics, use: Usage, stageOf: map<string, string>, actions: seq<Action>)
    requires actions != [] && GoodHistory(key, sem, use, stageOf, actions)
    ensures GoodHistory(key, sem, use, stageOf, actions[..|actions| - 1])
  {
    var shorter := actions[..|actions| - 1];
    forall m | 0 <= m < |shorter|
      ensures GoodAction(use, shorter[m])
      ensures CoversAction(key, sem, stageOf, HistoryOf(key, sem, shorter[..m]), shorter[m])
    {
      GoodEarlier(key, sem, use, stageOf, actions, shorter, m);
    }
  }

  /** What every history leaves: a lawful store, and plans that can be run in it. */
  ghost predicate Sound(key: Keyer, sem: Semantics, use: Usage, stageOf: map<string, string>, past: Past) {
    var law := Lawbook(key, sem, use, stageOf);
    && AllObey(law, past.ops) && Consistent(law, After(EMPTY_DISK, past.ops))
    && forall n | 0 <= n < |past.plans| :: GoodMade(key, use, stageOf, past.plans[n])
  }

  lemma MoreOps(key: Keyer, sem: Semantics, use: Usage, stageOf: map<string, string>, past: Past, ops: seq<Run>)
    requires Sound(key, sem, use, stageOf, past) && AllObey(Lawbook(key, sem, use, stageOf), ops)
    ensures Sound(key, sem, use, stageOf, past.(ops := past.ops + ops))
  {
    HistoriesKeepConsistent(Lawbook(key, sem, use, stageOf), After(EMPTY_DISK, past.ops), ops);
    AfterAppend(EMPTY_DISK, past.ops, ops);
  }

  lemma ActionIsSound(key: Keyer, sem: Semantics, use: Usage, stageOf: map<string, string>, past: Past, a: Action)
    requires IdentifiesInputs(key) && DistinctIds(stageOf.Keys) && Sound(key, sem, use, stageOf, past)
    requires GoodAction(use, a) && CoversAction(key, sem, stageOf, past, a)
    ensures Sound(key, sem, use, stageOf, Next(key, sem, past, a))
  {
    var d := After(EMPTY_DISK, past.ops);
    match a
    case Maintain(run) => MoreOps(key, sem, use, stageOf, past, [run]);
    case MakePlan(opts, fps) =>
      if BuildPlan(key, d, opts, fps).Ok? { MadeIsGood(key, sem, use, stageOf, d, opts, fps); }
    case RunMade(which, world, crash) =>
      if which < |past.plans| {
        var ops := MadeOps(key, sem, d, past.plans[which], world);
        MadeObeys(key, sem, use, stageOf, d, past.plans[which], world);
        CutOffObeys(Lawbook(key, sem, use, stageOf), ops, crash);
        MoreOps(key, sem, use, stageOf, past, CutOff(ops, crash));
      }
  }

  /** After any sequence of plans, runs, failures, cancellations, crashes and
      prunings, with any of these sources, every published directory holds what
      its key defines. */
  lemma {:induction false} CacheIsSound(key: Keyer, sem: Semantics, use: Usage, stageOf: map<string, string>,
                                        actions: seq<Action>)
    requires IdentifiesInputs(key) && DistinctIds(stageOf.Keys)
    requires GoodHistory(key, sem, use, stageOf, actions)
    ensures Sound(key, sem, use, stageOf, HistoryOf(key, sem, actions))
    decreases |actions|
  {
    if actions == [] {
      assert HistoryOf(key, sem, actions) == Past([], []);
    } else {
      var n := |actions| - 1;
      GoodShorter(key, sem, use, stageOf, actions);
      CacheIsSound(key, sem, use, stageOf, actions[..n]);
      ActionIsSound(key, sem, use, stageOf, HistoryOf(key, sem, actions[..n]), actions[n]);
    }
  }

  /** What a hit's key is, and what reading it yields. */
  ghost predicate HoldsWhatItsKeyDefines(key: Keyer, sem: Semantics, use: Usage, d: Disk, k: string, a: Artifact) {
    && HasTree(key, k, a.stage) && Open(d, a).Some?
    && forall t: KeyTree | GoodTree(t) && Digest(key, t) == k ::
         && Derives(sem, use.sources, t, Open(d, a).value)
         && forall blind | Unambiguous(sem, blind, use.sources, t) :: Open(d, a).value == Payload(sem, blind, t)
  }

  lemma HitsHoldWhatTheirKeysDefine(key: Keyer, sem: Semantics, use: Usage, stageOf: map<string, string>,
                                    d: Disk, k: string)
    requires IdentifiesInputs(key) && DistinctIds(stageOf.Keys)
    requires Consistent(Lawbook(key, sem, use, stageOf), d) && Lookup(d, k).Some?
    ensures HoldsWhatItsKeyDefines(key, sem, use, d, k, Lookup(d, k).value)
  {
    var a := Lookup(d, k).value;
    HitsAreKnown(key, sem, use, stageOf, d, k);
    HitsOpen(Lawbook(key, sem, use, stageOf), d, k);
    forall t: KeyTree | GoodTree(t) && Digest(key, t) == k
      ensures Derives(sem, use.sources, t, Open(d, a).value)
      ensures forall blind | Unambiguous(sem, blind, use.sources, t) :: Open(d, a).value == Payload(sem, blind, t)
    {
      OpenYieldsPayload(key, sem, use, stageOf, d, a, t);
      forall blind | Unambiguous(sem, blind, use.sources, t) ensures Open(d, a).value == Payload(sem, blind, t) {
        DerivesOnlyPayload(sem, blind, use.sources, t, Open(d, a).value);
      }
    }
  }

  /** A ready artifact's payload is one its key defines recursively, and the
      only one unless the key leaves out a source that matters. */
  lemma ReadyPayloads(key: Keyer, sem: Semantics, use: Usage, stageOf: map<string, string>,
                      actions: seq<Action>, k: string)
    requires IdentifiesInputs(key) && DistinctIds(stageOf.Keys)
    requires GoodHistory(key, sem, use, stageOf, actions)
    ensures var d := After(EMPTY_DISK, HistoryOps(key, sem, actions));
            Lookup(d, k).Some? ==> HoldsWhatItsKeyDefines(key, sem, use, d, k, Lookup(d, k).value)
  {
    CacheIsSound(key, sem, use, stageOf, actions);
    var d := After(EMPTY_DISK, HistoryOps(key, sem, actions));
    if Lookup(d, k).Some? {
      HitsHoldWhatTheirKeysDefine(key, sem, use, stageOf, d, k);
    }
  }

  /** For the key the program uses, in a project whose source never changes:
      every hit reads exactly the payload of its key. */
  lemma ReadyPayloadsOfOneSource(h: string -> string, sem: Semantics, use: Usage, source: string, stageOf: map<string, string>,
                                 actions: seq<Action>, t: KeyTree)
    requires IsDigest(h) && DistinctIds(stageOf.Keys) && GoodTree(t)
    requires use.sources == {source} && GoodHistory(HashedKey(h), sem, use, stageOf, actions)
    ensures var d, k := After(EMPTY_DISK, HistoryOps(HashedKey(h), sem, actions)), Digest(HashedKey(h), t);
            Lookup(d, k).Some? ==> Open(d, Lookup(d, k).value) == Some(Payload(sem, source, t))
  {
    var key := HashedKey(h);
    HashedKeyIdentifiesInputs(h);
    ReadyPayloads(key, sem, use, stageOf, actions, Digest(key, t));
    OneSourceIsUnambiguous(sem, source, t);
  }
}
