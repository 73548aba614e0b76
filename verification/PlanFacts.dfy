/** What every plan Build makes is like. */
module PlanFacts {
  import opened KeyTrees
  import opened ArtifactStore
  import opened Planning
  import opened Planner

  ghost predicate InPlan(plan: seq<Planned>, name: string) {
    exists i | 0 <= i < |plan| :: plan[i].stage.name == name
  }

  /** A stage as Build leaves it: skipped and blocked, cached with its
      artifact, or pending without one. */
  ghost predicate GoodEntry(p: Planned) {
    && p.err.None?
    && (p.blocked <==> p.state == Skipped)
    && match p.state
       case Skipped => p.artifact.None? && p.key == ""
       case Cached => p.artifact.Some?
       case Pending => p.artifact.None?
       case _ => false
  }

  /** Stages come after what they depend on, and one that is not blocked will
      have each required input: from the plan or from the store. */
  ghost predicate GoodDependencies(plan: seq<Planned>, i: nat)
    requires i < |plan|
  {
    && (forall dep | dep in Dependencies(plan[i].stage) && InPlan(plan, dep) :: InPlan(plan[..i], dep))
    && (forall dep | dep in plan[i].external :: !InPlan(plan, dep))
    && (plan[i].state != Skipped ==>
          forall dep | dep in plan[i].stage.depends :: InPlan(plan[..i], dep) || dep in plan[i].external)
    && (plan[i].state != Skipped ==>
          forall j | 0 <= j < i && plan[j].stage.name in plan[i].stage.depends :: plan[j].state != Skipped)
  }

  ghost predicate GoodPlan(plan: seq<Planned>) {
    && NamesDiffer(plan)
    && (forall i | 0 <= i < |plan| :: GoodEntry(plan[i]))
    && (forall i | 0 <= i < |plan| :: GoodDependencies(plan, i))
  }

  /** Looking up by name, in a plan whose names differ. */
  lemma FindByName(plan: seq<Planned>)
    requires NamesDiffer(plan)
    ensures forall n | n in ByName(plan) :: InPlan(plan, n)
    ensures forall i | 0 <= i < |plan| :: plan[i].stage.name in ByName(plan) && ByName(plan)[plan[i].stage.name] == plan[i]
  {
    ByNameFinds(plan);
  }

  /** Each stage was planned knowing the stages before it, and only those. */
  lemma {:induction false} PlanAt(key: Keyer, d: Disk, opts: Options, fps: Fingerprints, sel: seq<Selected>, i: nat)
    requires PlanStages(key, d, opts, fps, sel).Ok? && i < |sel|
    ensures |PlanStages(key, d, opts, fps, sel).value| == |sel|
    ensures var plan := PlanStages(key, d, opts, fps, sel).value;
            PlanStage(key, d, opts, fps, ByName(plan[..i]), sel[i]) == Ok(plan[i])
    decreases |sel|
  {
    var n := |sel| - 1;
    var plan := PlanStages(key, d, opts, fps, sel).value;
    var before := PlanStages(key, d, opts, fps, sel[..n]).value;
    if n > 0 { PlanAt(key, d, opts, fps, sel[..n], if i < n then i else 0); }
    assert |before| == n;
    assert plan == before + [plan[n]];
    assert plan[..n] == before;
    if i < n {
      assert before[..i] == plan[..i] && before[i] == plan[i];
    }
  }

  lemma {:induction false} PlanLength(key: Keyer, d: Disk, opts: Options, fps: Fingerprints, sel: seq<Selected>)
    requires PlanStages(key, d, opts, fps, sel).Ok?
    ensures |PlanStages(key, d, opts, fps, sel).value| == |sel|
    decreases |sel|
  {
    if sel != [] { PlanLength(key, d, opts, fps, sel[..|sel| - 1]); }
  }

  lemma DependenciesComeEarlier(all: seq<Stage>, o: nat, p: nat)
    requires ValidRegistry(all) && o < |all| && p < |all| && all[p].name in Dependencies(all[o])
    ensures p < o
  {
    assert all[p] in all;
    assert RegisteredBefore(all, o, all[p].name);
    var q :| 0 <= q < o && all[..o][q].name == all[p].name;
    assert p == q;
  }

  lemma SelectedFromRegistry(opts: Options, i: nat)
    requires Selection(opts).Ok? && i < |Selection(opts).value|
    ensures var s := Selection(opts).value[i];
            0 < s.ordinal <= |opts.registry| && opts.registry[s.ordinal - 1] == s.stage
    ensures forall j | 0 <= j < i :: Selection(opts).value[j].ordinal < Selection(opts).value[i].ordinal
  {
  }

  /** A selection keeps registry order, so what a stage depends on is selected
      before it, if at all. */
  lemma SelectionOrder(opts: Options, i: nat, j: nat)
    requires ValidRegistry(opts.registry) && Selection(opts).Ok?
    requires i < |Selection(opts).value| && j < |Selection(opts).value|
    requires Selection(opts).value[j].stage.name in Dependencies(Selection(opts).value[i].stage)
    ensures j < i
  {
    SelectedFromRegistry(opts, i);
    SelectedFromRegistry(opts, j);
    var a, b := Selection(opts).value[i], Selection(opts).value[j];
    DependenciesComeEarlier(opts.registry, a.ordinal - 1, b.ordinal - 1);
  }

  /** The first-match searches, read as statements about all dependencies. */
  lemma {:induction false} FirstEndedMeans(deps: seq<string>, planned: ByStage)
    ensures FirstEnded(deps, planned).Some? <==>
              exists dep | dep in deps && dep in planned :: planned[dep].state.Unusable()
    ensures match FirstEnded(deps, planned)
            case None => true
            case Some(DependencyEnded(dep, state)) =>
              && dep in deps && dep in planned && planned[dep].state == state
              && (state == Skipped || state == Failed || state == Cancelled)
            case Some(_) => false
  {
    if deps != [] {
      assert deps == [deps[0]] + deps[1..];
      FirstEndedMeans(deps[1..], planned);
      if deps[0] in planned && planned[deps[0]].state.Unusable() {
        assert deps[0] in deps;
      } else if FirstEnded(deps, planned).Some? {
        var dep :| dep in deps[1..] && dep in planned && planned[dep].state.Unusable();
        assert dep in deps;
      }
    }
  }

  lemma {:induction false} FirstMissingMeans(deps: seq<string>, planned: ByStage, external: map<string, Artifact>)
    ensures FirstMissing(deps, planned, external).None? <==>
              forall dep | dep in deps ::
                if dep in planned then !(planned[dep].state.Terminal() && planned[dep].artifact.None?) else dep in external
    ensures match FirstMissing(deps, planned, external)
            case None => true
            case Some(dep) =>
              dep in deps && if dep in planned then planned[dep].state.Terminal() && planned[dep].artifact.None? else dep !in external
  {
    if deps != [] {
      assert deps == [deps[0]] + deps[1..];
      FirstMissingMeans(deps[1..], planned, external);
    }
  }

  lemma PlannedEntryIsGood(key: Keyer, d: Disk, opts: Options, fps: Fingerprints, before: ByStage, sel: Selected)
    requires PlanStage(key, d, opts, fps, before, sel).Ok?
    ensures var p := PlanStage(key, d, opts, fps, before, sel).value;
            GoodEntry(p) && p.stage == sel.stage && p.ordinal == sel.ordinal
  {
  }

  lemma BuildNames(key: Keyer, d: Disk, opts: Options, fps: Fingerprints)
    requires ValidRegistry(opts.registry) && BuildPlan(key, d, opts, fps).Ok?
    ensures var plan, sel := BuildPlan(key, d, opts, fps).value, Selection(opts).value;
            && |plan| == |sel| && NamesDiffer(plan)
            && forall i | 0 <= i < |plan| ::
                 plan[i].stage == sel[i].stage && plan[i].ordinal == sel[i].ordinal && GoodEntry(plan[i])
  {
    var plan, sel := BuildPlan(key, d, opts, fps).value, Selection(opts).value;
    PlanLength(key, d, opts, fps, sel);
    forall i | 0 <= i < |plan|
      ensures plan[i].stage == sel[i].stage && plan[i].ordinal == sel[i].ordinal && GoodEntry(plan[i])
    {
      PlanAt(key, d, opts, fps, sel, i);
      PlannedEntryIsGood(key, d, opts, fps, ByName(plan[..i]), sel[i]);
    }
    SelectionNamesDiffer(opts);
  }

  /** What planning a stage says about its dependencies. */
  lemma PlannedDependencies(key: Keyer, d: Disk, opts: Options, fps: Fingerprints, before: ByStage, sel: Selected)
    requires PlanStage(key, d, opts, fps, before, sel).Ok? && sel.stage.name !in Dependencies(sel.stage)
    ensures var p := PlanStage(key, d, opts, fps, before, sel).value;
            && (forall dep | dep in p.external :: dep !in before && dep in Dependencies(sel.stage))
            && (p.state != Skipped ==> forall dep | dep in sel.stage.depends ::
                  if dep in before then before[dep].state != Skipped else dep in p.external)
  {
    var s := sel.stage;
    var planned := before[s.name := FreshPlan(s, sel.ordinal)];
    var external := ExternalInputs(d, s, planned);
    FirstEndedMeans(s.depends, planned);
    FirstMissingMeans(s.depends, planned, external);
    forall dep | dep in s.depends ensures dep in Dependencies(s) && dep != s.name {}
  }

  /** Every plan Build makes is a good plan. */
  lemma BuildMakesGoodPlans(key: Keyer, d: Disk, opts: Options, fps: Fingerprints)
    requires ValidRegistry(opts.registry) && BuildPlan(key, d, opts, fps).Ok?
    ensures GoodPlan(BuildPlan(key, d, opts, fps).value)
  {
    var plan, sel := BuildPlan(key, d, opts, fps).value, Selection(opts).value;
    BuildNames(key, d, opts, fps);
    forall i | 0 <= i < |plan| ensures GoodDependencies(plan, i) {
      BuildDependencies(key, d, opts, fps, i);
    }
  }

  /** What the planner saw of a stage's dependencies, said of the plan itself. */
  lemma GoodFromBefore(plan: seq<Planned>, i: nat)
    requires NamesDiffer(plan) && i < |plan|
    requires forall j | 0 <= j < |plan| && plan[j].stage.name in Dependencies(plan[i].stage) :: j < i
    requires var before := ByName(plan[..i]);
             && (forall dep | dep in plan[i].external :: dep !in before && dep in Dependencies(plan[i].stage))
             && (plan[i].state != Skipped ==> forall dep | dep in plan[i].stage.depends ::
                   if dep in before then before[dep].state != Skipped else dep in plan[i].external)
    ensures GoodDependencies(plan, i)
  {
    assert NamesDiffer(plan[..i]);
    FindByName(plan[..i]);
    var before := ByName(plan[..i]);
    forall dep | dep in Dependencies(plan[i].stage) && InPlan(plan, dep) ensures InPlan(plan[..i], dep) && dep in before {
      var j :| 0 <= j < |plan| && plan[j].stage.name == dep;
      assert plan[..i][j].stage.name == dep;
    }
    forall j | 0 <= j < i && plan[j].stage.name in plan[i].stage.depends
      ensures plan[i].state != Skipped ==> plan[j].state != Skipped
    {
      assert before[plan[..i][j].stage.name] == plan[..i][j];
    }
  }

  lemma BuildDependencies(key: Keyer, d: Disk, opts: Options, fps: Fingerprints, i: nat)
    requires ValidRegistry(opts.registry) && BuildPlan(key, d, opts, fps).Ok?
    requires i < |BuildPlan(key, d, opts, fps).value|
    ensures GoodDependencies(BuildPlan(key, d, opts, fps).value, i)
  {
    var plan, sel := BuildPlan(key, d, opts, fps).value, Selection(opts).value;
    BuildNames(key, d, opts, fps);
    forall j | 0 <= j < |plan| && plan[j].stage.name in Dependencies(plan[i].stage) ensures j < i {
      SelectionOrder(opts, i, j);
    }
    PlanAt(key, d, opts, fps, sel, i);
    assert plan[i].stage.name !in Dependencies(plan[i].stage);
    PlannedDependencies(key, d, opts, fps, ByName(plan[..i]), sel[i]);
    GoodFromBefore(plan, i);
  }

  /** An artifact of this stage cannot be had: the plan has it blocked, or it is
      not planned and the store has none of it. */
  ghost predicate NotToBeHad(plan: seq<Planned>, d: Disk, dep: string) {
    if InPlan(plan, dep) then exists j | 0 <= j < |plan| :: plan[j].stage.name == dep && plan[j].state == Skipped
    else LatestIn(d, dep).None?
  }

  /** What the planner makes of a stage, knowing the stages before it. */
  ghost predicate BlockedRightly(d: Disk, before: ByStage, s: Stage, p: Planned) {
    && (p.state == Skipped <==> exists dep | dep in s.depends :: Unobtainable(d, before, dep))
    && (p.state == Skipped ==> p.blocked && SaysWhy(d, before, s, p.reason))
  }

  ghost predicate Unobtainable(d: Disk, before: ByStage, dep: string) {
    if dep in before then before[dep].state == Skipped else LatestIn(d, dep).None?
  }

  ghost predicate SaysWhy(d: Disk, before: ByStage, s: Stage, reason: Reason) {
    match reason
    case DependencyEnded(dep, state) => dep in s.depends && dep in before && before[dep].state == state == Skipped
    case NoInput(dep) => dep in s.depends && dep !in before && LatestIn(d, dep).None?
    case _ => false
  }

  lemma StageBlockedIff(key: Keyer, d: Disk, opts: Options, fps: Fingerprints, before: ByStage, sel: Selected)
    requires PlanStage(key, d, opts, fps, before, sel).Ok? && sel.stage.name !in sel.stage.depends
    requires forall name | name in before :: GoodEntry(before[name])
    ensures BlockedRightly(d, before, sel.stage, PlanStage(key, d, opts, fps, before, sel).value)
  {
    var s := sel.stage;
    var planned := before[s.name := FreshPlan(s, sel.ordinal)];
    var external := ExternalInputs(d, s, planned);
    FirstEndedMeans(s.depends, planned);
    FirstMissingMeans(s.depends, planned, external);
  }

  /** A blocked stage names such an input, and whether it is blocked or missing. */
  ghost predicate BlockedFor(plan: seq<Planned>, d: Disk, p: Planned) {
    && p.blocked
    && match p.reason
       case DependencyEnded(dep, state) =>
         dep in p.stage.depends && state == Skipped && InPlan(plan, dep) && NotToBeHad(plan, d, dep)
       case NoInput(dep) => dep in p.stage.depends && !InPlan(plan, dep) && NotToBeHad(plan, d, dep)
       case _ => false
  }

  lemma ObtainableInPlan(plan: seq<Planned>, d: Disk, i: nat, dep: string)
    requires GoodPlan(plan) && i < |plan| && dep in Dependencies(plan[i].stage)
    ensures NotToBeHad(plan, d, dep) <==> Unobtainable(d, ByName(plan[..i]), dep)
    ensures InPlan(plan, dep) <==> dep in ByName(plan[..i])
  {
    FoundBefore(plan, i, dep);
    if InPlan(plan, dep) {
      var j :| 0 <= j < |plan| && plan[j].stage.name == dep;
      assert ByName(plan[..i])[dep] == plan[j];
    }
  }

  lemma BlockedInPlan(plan: seq<Planned>, d: Disk, i: nat)
    requires GoodPlan(plan) && i < |plan| && BlockedRightly(d, ByName(plan[..i]), plan[i].stage, plan[i])
    ensures plan[i].state == Skipped <==> exists dep | dep in plan[i].stage.depends :: NotToBeHad(plan, d, dep)
    ensures plan[i].state == Skipped ==> BlockedFor(plan, d, plan[i])
  {
    forall dep | dep in plan[i].stage.depends
      ensures NotToBeHad(plan, d, dep) <==> Unobtainable(d, ByName(plan[..i]), dep)
      ensures InPlan(plan, dep) <==> dep in ByName(plan[..i])
    {
      assert dep in Dependencies(plan[i].stage);
      ObtainableInPlan(plan, d, i, dep);
    }
  }

  lemma EntriesBefore(plan: seq<Planned>, i: nat)
    requires GoodPlan(plan) && i < |plan|
    ensures forall name | name in ByName(plan[..i]) :: GoodEntry(ByName(plan[..i])[name])
  {
    assert NamesDiffer(plan[..i]);
    ByNameFinds(plan[..i]);
  }

  /** A stage is blocked iff an input it requires cannot be had, and its reason
      names one. What it only uses when there is any blocks nothing. */
  lemma BlockedIff(key: Keyer, d: Disk, opts: Options, fps: Fingerprints, i: nat)
    requires ValidRegistry(opts.registry) && BuildPlan(key, d, opts, fps).Ok?
    requires i < |BuildPlan(key, d, opts, fps).value|
    ensures var plan := BuildPlan(key, d, opts, fps).value;
            && (plan[i].state == Skipped <==> exists dep | dep in plan[i].stage.depends :: NotToBeHad(plan, d, dep))
            && (plan[i].state == Skipped ==> BlockedFor(plan, d, plan[i]))
  {
    var plan, sel := BuildPlan(key, d, opts, fps).value, Selection(opts).value;
    BuildMakesGoodPlans(key, d, opts, fps);
    BuildNames(key, d, opts, fps);
    PlanAt(key, d, opts, fps, sel, i);
    EntriesBefore(plan, i);
    assert sel[i].stage.name !in sel[i].stage.depends by {
      if sel[i].stage.name in sel[i].stage.depends { SelectionOrder(opts, i, i); }
    }
    StageBlockedIff(key, d, opts, fps, ByName(plan[..i]), sel[i]);
    BlockedInPlan(plan, d, i);
  }

  lemma FoundBefore(plan: seq<Planned>, i: nat, dep: string)
    requires GoodPlan(plan) && i < |plan| && dep in Dependencies(plan[i].stage)
    ensures dep in ByName(plan[..i]) <==> InPlan(plan, dep)
    ensures forall j | 0 <= j < |plan| && plan[j].stage.name == dep ::
              dep in ByName(plan[..i]) && ByName(plan[..i])[dep] == plan[j]
  {
    assert NamesDiffer(plan[..i]) && GoodDependencies(plan, i);
    FindByName(plan[..i]);
    forall j | 0 <= j < |plan| && plan[j].stage.name == dep
      ensures dep in ByName(plan[..i]) && ByName(plan[..i])[dep] == plan[j]
    {
      assert InPlan(plan, dep);
      var k :| 0 <= k < i && plan[..i][k].stage.name == dep;
      assert k == j;
    }
    if dep in ByName(plan[..i]) {
      var k :| 0 <= k < i && plan[..i][k].stage.name == dep;
      assert plan[k].stage.name == dep;
    }
  }

  /** This stage cannot be keyed: its fingerprint failed, or its configuration
      has no canonical form. */
  ghost predicate Unkeyable(s: Stage, opts: Options, fps: Fingerprints, e: PlanError) {
    match e
    case FingerprintError(name) => name == s.name && name !in fps
    case ConfigError(name) => name == s.name && name in fps && name in opts.config && opts.config[name].Unencodable?
    case _ => false
  }

  lemma {:induction false} StagesFail(key: Keyer, d: Disk, opts: Options, fps: Fingerprints, sel: seq<Selected>)
    requires PlanStages(key, d, opts, fps, sel).Error?
    ensures exists i :: 0 <= i < |sel| && Unkeyable(sel[i].stage, opts, fps, PlanStages(key, d, opts, fps, sel).error)
    decreases |sel|
  {
    var n := |sel| - 1;
    if PlanStages(key, d, opts, fps, sel[..n]).Error? {
      StagesFail(key, d, opts, fps, sel[..n]);
      var i :| 0 <= i < n && Unkeyable(sel[..n][i].stage, opts, fps, PlanStages(key, d, opts, fps, sel[..n]).error);
      assert sel[..n][i] == sel[i];
    } else {
      assert Unkeyable(sel[n].stage, opts, fps, PlanStages(key, d, opts, fps, sel).error);
    }
  }

  /** Planning what is selected fails only over a stage that cannot be keyed, and
      no stage of a plan is one, unless it is blocked. */
  lemma BuildFailsOnlyUnkeyed(key: Keyer, d: Disk, opts: Options, fps: Fingerprints)
    requires ValidRegistry(opts.registry) && Selection(opts).Ok?
    ensures match BuildPlan(key, d, opts, fps)
            case Error(e) =>
              exists i :: 0 <= i < |Selection(opts).value| && Unkeyable(Selection(opts).value[i].stage, opts, fps, e)
            case Ok(plan) =>
              forall i, e | 0 <= i < |plan| && Unkeyable(plan[i].stage, opts, fps, e) :: plan[i].state == Skipped
  {
    var sel := Selection(opts).value;
    if BuildPlan(key, d, opts, fps).Error? {
      StagesFail(key, d, opts, fps, sel);
    } else {
      var plan := BuildPlan(key, d, opts, fps).value;
      BuildNames(key, d, opts, fps);
      forall i, e | 0 <= i < |plan| && Unkeyable(plan[i].stage, opts, fps, e) ensures plan[i].state == Skipped {
        PlanAt(key, d, opts, fps, sel, i);
      }
    }
  }
}
