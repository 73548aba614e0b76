/** When a cached stage is current whatever sources its project has had.

  A key records the source where its stage depends on "probe". Everywhere else
  it is up to the stages themselves to ignore the source, and `ignoring` names
  those that do. What has to hold can then be read off the registry.
  */
module Sources {
  import opened KeyTrees
  import opened ArtifactStore
  import opened Optional
  import opened StoreSafety
  import opened Planning
  import opened Execution
  import opened PlanFacts
  import opened Provenance
  import opened Agreement
  import opened Soundness
  import opened Reruns
  import opened NothingRecomputed

  /** These stages compute the same from every source. */
  ghost predicate Ignore(sem: Semantics, ignoring: set<string>) {
    forall r: Recipe, read: map<string, Content>, a, b | r.stage in ignoring :: sem(r, read, a) == sem(r, read, b)
  }

  // ---------------------------------------------------------------------
  // Trees that show the source
  // ---------------------------------------------------------------------

  /** Every key in the tree records the source, unless its stage ignores it. */
  ghost predicate ShowsSource(ignoring: set<string>, t: KeyTree)
    decreases t, 1
  {
    (t.source != "" || t.recipe.stage in ignoring) && UpstreamShowsSource(ignoring, t)
  }

  ghost predicate UpstreamShowsSource(ignoring: set<string>, t: KeyTree)
    decreases t, 0
  {
    forall dep | dep in t.upstream :: ShowsSource(ignoring, t.upstream[dep])
  }

  lemma {:induction false} ShownIsUnambiguous(sem: Semantics, ignoring: set<string>, blind: string, sources: set<string>, t: KeyTree)
    requires Ignore(sem, ignoring) && ShowsSource(ignoring, t)
    ensures Unambiguous(sem, blind, sources, t)
    decreases t
  {
    forall dep | dep in t.upstream ensures Unambiguous(sem, blind, sources, t.upstream[dep]) {
      ShownIsUnambiguous(sem, ignoring, blind, sources, t.upstream[dep]);
    }
  }

  predicate Declared(stages: set<Stage>, name: string) {
    exists s :: s in stages && s.name == name
  }

  /** A set of stages that records the source or ignores it, and depends on
      nothing outside. */
  ghost predicate Traces(stages: set<Stage>, ignoring: set<string>, shown: set<string>) {
    forall s | s in stages && s.name in shown ::
      && ("probe" in s.depends || s.name in ignoring)
      && forall dep | (dep in s.depends || dep in s.optionalDepends) && Declared(stages, dep) :: dep in shown
  }

  lemma {:induction false} FittingTreeShows(use: Usage, ignoring: set<string>, shown: set<string>, t: KeyTree)
    requires Fits(use, t) && "" !in use.sources && Traces(use.stages, ignoring, shown) && t.recipe.stage in shown
    ensures ShowsSource(ignoring, t)
    decreases t
  {
    var s :| s in use.stages && Declares(use, s, t);
    forall dep | dep in t.upstream ensures ShowsSource(ignoring, t.upstream[dep]) {
      var up := t.upstream[dep];
      assert up.recipe.stage == dep && Fits(use, up);
      var s' :| s' in use.stages && Declares(use, s', up);
      assert Declared(use.stages, dep);
      FittingTreeShows(use, ignoring, shown, up);
    }
  }

  // ---------------------------------------------------------------------
  // Cached stages
  // ---------------------------------------------------------------------

  /** In a store used with any sources, a stage of such a set that is planned
      as cached is what running it would produce. */
  lemma CachedIsCurrent(key: Keyer, sem: Semantics, use: Usage, stageOf: map<string, string>, d: Disk, d': Disk,
                        opts: Options, fps: Fingerprints, w: World, plan: seq<Planned>, i: nat, inputs: map<string, Artifact>,
                        ignoring: set<string>, shown: set<string>)
    requires PlannedFrom(key, sem, use, stageOf, d, opts, fps, plan) && i < |plan| && plan[i].state == Cached
    requires Consistent(Lawbook(key, sem, use, stageOf), d') && AsPlanned(key, use, stageOf, d', plan, i, inputs)
    requires plan[i].stage.name in fps && RunFingerprint(w, plan[i].stage.name) == fps[plan[i].stage.name]
    requires Ignore(sem, ignoring) && Traces(use.stages, ignoring, shown) && plan[i].stage.name in shown
    requires "" !in use.sources && opts.source != ""
    ensures plan[i].artifact.Some? && Subtree(plan[i].stage, opts).Canonical? && Readable(d', inputs)
    ensures Open(d, plan[i].artifact.value) == Some(Product(sem, opts, w, d', plan[i].stage, inputs))
  {
    var s := plan[i].stage;
    CachedStandsForRunning(key, sem, use, "", stageOf, d, d', opts, fps, w, plan, i, inputs);
    PlannedTree(key, sem, use, stageOf, d, d', opts, fps, plan, i, inputs);
    CachedOpens(key, sem, use, stageOf, d, opts, fps, plan, i);
    var t := RunTree(key, s, opts, fps[s.name], inputs);
    FittingTreeFits(key, use, plan[i].key, plan[i].artifact.value.stage, t);
    FittingTreeShows(use, ignoring, shown, t);
    ShownIsUnambiguous(sem, ignoring, "", use.sources, t);
  }

  /** So it is after a run in which every stage succeeded: skipping it and
      running it after all the others come to the same. */
  lemma SkippedIsCurrent(env: Env, use: Usage, stageOf: map<string, string>, d: Disk, fps: Fingerprints, plan: seq<Planned>,
                         i: nat, ignoring: set<string>, shown: set<string>)
    requires RunFromPlan(env, use, stageOf, d, fps, plan) && i < |plan| && plan[i].state == Cached
    requires plan[i].stage.name in fps && RunFingerprint(env.world, plan[i].stage.name) == fps[plan[i].stage.name]
    requires FullRun(env, stageOf, d, fps) && FiledByStage(env.key, stageOf)
    requires Ignore(env.sem, ignoring) && Traces(use.stages, ignoring, shown) && plan[i].stage.name in shown
    requires "" !in use.sources
    ensures var end := RunPlan(env, plan, d).progress;
            && |end.plan| == |plan|
            && var s, inputs := plan[i].stage, HandedInputs(plan, end.plan, i);
               && plan[i].artifact.Some? && Subtree(s, env.opts).Canonical? && Readable(end.disk, inputs)
               && Open(end.disk, plan[i].artifact.value) == Some(Product(env.sem, env.opts, env.world, end.disk, s, inputs))
  {
    var end := RunPlan(env, plan, d).progress;
    CachedAfterFullRun(env, use, stageOf, d, fps, plan, i);
    RunEndsLawfully(env, use, stageOf, d, fps, plan);
    ConsistentHitsAreHex(env.key, env.sem, use, stageOf, d);
    ConsistentKeeps(Lawbook(env.key, env.sem, use, stageOf), d);
    FullRunServes(env, stageOf, d, fps);
    CachedLater(env, use, stageOf, d, fps, plan, i);
    CachedIsCurrent(env.key, env.sem, use, stageOf, d, end.disk, env.opts, fps, env.world, plan, i,
                    HandedInputs(plan, end.plan, i), ignoring, shown);
  }

  // ---------------------------------------------------------------------
  // One registry
  // ---------------------------------------------------------------------

  /** Stage `q` is stage `k`, or depends on it, however remotely. */
  predicate Reaches(all: seq<Stage>, q: nat, k: nat)
    requires q < |all| && k < |all|
    decreases q
  {
    q == k || exists j | 0 <= j < q ::
      (all[j].name in all[q].depends || all[j].name in all[q].optionalDepends) && Reaches(all, j, k)
  }

  /** Whatever stage `q` rests on depends on "probe" or ignores the source. */
  predicate SourceIsShown(all: seq<Stage>, ignoring: set<string>, q: nat)
    requires q < |all|
  {
    forall k | 0 <= k < |all| && Reaches(all, q, k) :: "probe" in all[k].depends || all[k].name in ignoring
  }

  lemma {:induction false} ReachesFurther(all: seq<Stage>, q: nat, k: nat, l: nat)
    requires q < |all| && k < |all| && Reaches(all, q, k) && l < k && all[l].name in Dependencies(all[k])
    ensures Reaches(all, q, l)
    decreases q
  {
    if q == k {
      assert Reaches(all, l, l);
    } else {
      var j :| 0 <= j < q && (all[j].name in all[q].depends || all[j].name in all[q].optionalDepends) && Reaches(all, j, k);
      ReachesFurther(all, j, k, l);
    }
  }

  ghost function ReachedNames(all: seq<Stage>, q: nat): set<string>
    requires q < |all|
  {
    set k | 0 <= k < |all| && Reaches(all, q, k) :: all[k].name
  }

  ghost function StagesOf(all: seq<Stage>): set<Stage> {
    set s | s in all
  }

  lemma ShownTraces(all: seq<Stage>, ignoring: set<string>, q: nat)
    requires ValidRegistry(all) && q < |all| && SourceIsShown(all, ignoring, q)
    ensures Traces(StagesOf(all), ignoring, ReachedNames(all, q)) && all[q].name in ReachedNames(all, q)
  {
    var shown := ReachedNames(all, q);
    forall s | s in StagesOf(all) && s.name in shown
      ensures "probe" in s.depends || s.name in ignoring
      ensures forall dep | dep in Dependencies(s) && Declared(StagesOf(all), dep) :: dep in shown
    {
      var k :| 0 <= k < |all| && Reaches(all, q, k) && all[k].name == s.name;
      var i :| 0 <= i < |all| && all[i] == s;
      assert i == k;
      forall dep | dep in Dependencies(s) && Declared(StagesOf(all), dep) ensures dep in shown {
        var s' :| s' in StagesOf(all) && s'.name == dep;
        var l :| 0 <= l < |all| && all[l] == s';
        DependenciesComeEarlier(all, k, l);
        ReachesFurther(all, q, k, l);
      }
    }
    assert Reaches(all, q, q);
  }

  /** After any history with one registry and any sources, a cached stage whose
      inputs are cached too is current, if the source is shown. */
  lemma CurrentIfShown(key: Keyer, sem: Semantics, use: Usage, stageOf: map<string, string>, actions: seq<Action>,
                       opts: Options, fps: Fingerprints, w: World, plan: seq<Planned>, i: nat, q: nat, ignoring: set<string>)
    requires IdentifiesInputs(key) && DistinctIds(stageOf.Keys) && GoodHistory(key, sem, use, stageOf, actions)
    requires ValidRegistry(opts.registry) && CleanOptions(opts) && CleanFingerprints(fps)
    requires use.stages == StagesOf(opts.registry) && "" !in use.sources && opts.source != ""
    requires BuildPlan(key, After(EMPTY_DISK, HistoryOps(key, sem, actions)), opts, fps) == Ok(plan)
    requires i < |plan| && plan[i].state == Cached
    requires forall j | 0 <= j < i && plan[j].stage.name in Dependencies(plan[i].stage) :: plan[j].state != Pending
    requires plan[i].stage.name in fps && RunFingerprint(w, plan[i].stage.name) == fps[plan[i].stage.name]
    requires q < |opts.registry| && opts.registry[q] == plan[i].stage
    requires Ignore(sem, ignoring) && SourceIsShown(opts.registry, ignoring, q)
    ensures var d, inputs := After(EMPTY_DISK, HistoryOps(key, sem, actions)), HandedInputs(plan, plan, i);
            && plan[i].artifact.Some? && Subtree(plan[i].stage, opts).Canonical? && Readable(d, inputs)
            && Open(d, plan[i].artifact.value) == Some(Product(sem, opts, w, d, plan[i].stage, inputs))
  {
    var d := After(EMPTY_DISK, HistoryOps(key, sem, actions));
    CacheIsSound(key, sem, use, stageOf, actions);
    CachedNow(key, sem, use, stageOf, d, opts, fps, plan, i);
    ShownTraces(opts.registry, ignoring, q);
    CachedIsCurrent(key, sem, use, stageOf, d, d, opts, fps, w, plan, i, HandedInputs(plan, plan, i), ignoring,
                    ReachedNames(opts.registry, q));
  }
}
