/** The planner's keys and the executor's keys. */
module Agreement {
  import opened ArtifactHash
  import opened KeyTrees
  import opened ArtifactStore
  import opened Optional
  import opened StoreSafety
  import opened Planning
  import opened Planner
  import opened Execution
  import opened PlanFacts
  import opened Settlement
  import opened Provenance

  /** What the planner saw when it reached stage `i`. */
  ghost function SeenAt(plan: seq<Planned>, i: nat): ByStage
    requires i < |plan|
  {
    ByName(plan[..i])[plan[i].stage.name := FreshPlan(plan[i].stage, plan[i].ordinal)]
  }

  /** The upstream keys stage `i` was planned with. */
  ghost function PlannedKeys(plan: seq<Planned>, i: nat): map<string, string>
    requires i < |plan|
  {
    UpstreamKeys(plan[i].stage, SeenAt(plan, i), plan[i].external)
  }

  /** The inputs stage `i` is handed when its turn comes. */
  ghost function HandedInputs(plan: seq<Planned>, now: seq<Planned>, i: nat): map<string, Artifact>
    requires i < |plan|
  {
    Inputs(plan[i].stage, ByName(now), plan[i].external)
  }

  /** Stage `j` delivered what it was planned to: its artifact under the planned
      key, or nothing when it was blocked. */
  ghost predicate Delivered(before: Planned, now: Planned) {
    if before.state == Skipped then now.artifact.None?
    else before.key != "" && now.artifact.Some? && now.artifact.value.key == before.key
  }

  lemma PlannedKeyOf(plan: seq<Planned>, i: nat, dep: string)
    requires GoodPlan(plan) && i < |plan| && dep in Dependencies(plan[i].stage)
    ensures InPlan(plan, dep) ==>
              exists j | 0 <= j < i :: plan[j].stage.name == dep
                && UpstreamKey(dep, SeenAt(plan, i), plan[i].external)
                     == (if plan[j].key != "" then Some(plan[j].key)
                         else if plan[j].artifact.Some? then Some(plan[j].artifact.value.key) else None)
    ensures !InPlan(plan, dep) ==>
              UpstreamKey(dep, SeenAt(plan, i), plan[i].external)
                == if dep in plan[i].external then Some(plan[i].external[dep].key) else None
  {
    assert GoodDependencies(plan, i);
    assert NamesDiffer(plan[..i]);
    FindByName(plan[..i]);
    if InPlan(plan, dep) {
      var j :| 0 <= j < i && plan[..i][j].stage.name == dep;
      assert ByName(plan[..i])[dep] == plan[j];
      NotInPrefix(plan, i, i);
      assert plan[j].stage.name == dep && dep != plan[i].stage.name;
    } else {
      InLonger(plan, i, dep);
      assert dep !in ByName(plan[..i]);
      assert dep != plan[i].stage.name;
    }
  }

  lemma HandedInputOf(plan: seq<Planned>, now: seq<Planned>, i: nat, dep: string)
    requires GoodPlan(plan) && SameStages(plan, now) && i < |plan| && dep in Dependencies(plan[i].stage)
    ensures forall j | 0 <= j < |plan| && plan[j].stage.name == dep ::
              InputOf(dep, ByName(now), plan[i].external) == now[j].artifact
    ensures !InPlan(plan, dep) ==>
              InputOf(dep, ByName(now), plan[i].external)
                == if dep in plan[i].external then Some(plan[i].external[dep]) else None
  {
    assert GoodDependencies(plan, i);
    SameNames(plan, now);
    FindByName(now);
    forall j | 0 <= j < |plan| && plan[j].stage.name == dep
      ensures InputOf(dep, ByName(now), plan[i].external) == now[j].artifact
    {
      assert ByName(now)[now[j].stage.name] == now[j];
      assert InPlan(plan, dep);
    }
  }

  /** What stage `i` depends on in the plan delivered what it was planned to. */
  ghost predicate DependenciesDelivered(plan: seq<Planned>, now: seq<Planned>, i: nat)
    requires i < |plan| == |now|
  {
    forall j | 0 <= j < i && plan[j].stage.name in Dependencies(plan[i].stage) :: Delivered(plan[j], now[j])
  }

  /** When its dependencies delivered what was planned, the executor keys a
      stage on exactly the upstream keys the planner used. */
  lemma HandedKeysMatch(plan: seq<Planned>, now: seq<Planned>, i: nat)
    requires GoodPlan(plan) && SameStages(plan, now) && i < |plan|
    requires DependenciesDelivered(plan, now, i)
    ensures KeysOf(HandedInputs(plan, now, i)) == PlannedKeys(plan, i)
  {
    var handed, planned := KeysOf(HandedInputs(plan, now, i)), PlannedKeys(plan, i);
    forall dep | dep in Dependencies(plan[i].stage)
      ensures dep in handed <==> dep in planned
      ensures dep in handed ==> handed[dep] == planned[dep]
    {
      PlannedKeyOf(plan, i, dep);
      HandedInputOf(plan, now, i, dep);
      if InPlan(plan, dep) {
        var j :| 0 <= j < i && plan[j].stage.name == dep
          && UpstreamKey(dep, SeenAt(plan, i), plan[i].external)
               == (if plan[j].key != "" then Some(plan[j].key)
                   else if plan[j].artifact.Some? then Some(plan[j].artifact.value.key) else None);
        assert Delivered(plan[j], now[j]) && GoodEntry(plan[j]);
        assert InputOf(dep, ByName(now), plan[i].external) == now[j].artifact;
      }
    }
  }

  lemma StagePlannedKey(key: Keyer, d: Disk, opts: Options, fps: Fingerprints, before: ByStage, sel: Selected)
    requires PlanStage(key, d, opts, fps, before, sel).Ok?
    ensures var p, s := PlanStage(key, d, opts, fps, before, sel).value, sel.stage;
            var seen := before[s.name := FreshPlan(s, sel.ordinal)];
            p.state != Skipped ==>
              && s.name in fps && Subtree(s, opts).Canonical?
              && p.external == ExternalInputs(d, s, seen)
              && p.key == key(KeyInputsOf(s, opts, fps[s.name], UpstreamKeys(s, seen, p.external)))
              && p.reason == NoReason
              && (p.state == Cached ==> !opts.force && p.artifact == Lookup(d, p.key))
              && (p.state == Pending ==> opts.force || Lookup(d, p.key).None?)
  {
  }

  /** How an unblocked stage of a plan was keyed. */
  ghost predicate PlannedWell(key: Keyer, d: Disk, opts: Options, fps: Fingerprints, plan: seq<Planned>, i: nat)
    requires i < |plan|
  {
    var p := plan[i];
    && p.stage.name in fps && Subtree(p.stage, opts).Canonical?
    && p.external == ExternalInputs(d, p.stage, SeenAt(plan, i))
    && p.key == key(KeyInputsOf(p.stage, opts, fps[p.stage.name], PlannedKeys(plan, i)))
    && p.reason == NoReason
    && (p.state == Cached ==> !opts.force && p.artifact == Lookup(d, p.key))
    && (p.state == Pending ==> opts.force || Lookup(d, p.key).None?)
  }

  /** An unblocked stage was planned under the key of its inputs as planned. */
  lemma PlannedKey(key: Keyer, d: Disk, opts: Options, fps: Fingerprints, i: nat)
    requires ValidRegistry(opts.registry) && BuildPlan(key, d, opts, fps).Ok?
    requires i < |BuildPlan(key, d, opts, fps).value|
    ensures var plan := BuildPlan(key, d, opts, fps).value;
            plan[i].state != Skipped ==> PlannedWell(key, d, opts, fps, plan, i)
  {
    var plan, sel := BuildPlan(key, d, opts, fps).value, Selection(opts).value;
    BuildNames(key, d, opts, fps);
    PlanAt(key, d, opts, fps, sel, i);
    PlannedEntryIsGood(key, d, opts, fps, ByName(plan[..i]), sel[i]);
    StagePlannedKey(key, d, opts, fps, ByName(plan[..i]), sel[i]);
  }

  /** Keys built from keys of trees are well-formed, and are not empty. */
  lemma PlannedInputsAreWellFormed(key: Keyer, s: Stage, opts: Options, fp: map<string, string>, upstream: map<string, string>)
    requires IdentifiesInputs(key) && s in opts.registry && CleanOptions(opts) && CleanFingerprint(fp)
    requires Subtree(s, opts).Canonical?
    requires forall dep | dep in upstream :: dep in Dependencies(s) && IsHex(upstream[dep])
    ensures WellFormed(KeyInputsOf(s, opts, fp, upstream))
    ensures key(KeyInputsOf(s, opts, fp, upstream)) != "" && IsHex(key(KeyInputsOf(s, opts, fp, upstream)))
  {
    assert CleanStage(s);
    var inputs := KeyInputsOf(s, opts, fp, upstream);
    assert WellFormed(inputs);
  }

  /** Every key Lookup can find is written in hex. */
  ghost predicate HexHits(d: Disk) {
    forall k :: Lookup(d, k).Some? ==> IsHex(k)
  }

  /** Every key of a plan is non-empty hex, unless its stage is blocked. */
  lemma {:induction false} PlanKeysAreHex(key: Keyer, d: Disk, opts: Options, fps: Fingerprints, i: nat)
    requires ValidRegistry(opts.registry) && BuildPlan(key, d, opts, fps).Ok?
    requires IdentifiesInputs(key) && CleanOptions(opts) && CleanFingerprints(fps) && HexHits(d)
    requires i < |BuildPlan(key, d, opts, fps).value|
    ensures var plan := BuildPlan(key, d, opts, fps).value;
            plan[i].state != Skipped ==>
              && plan[i].key != "" && IsHex(plan[i].key)
              && plan[i].stage.name in fps
              && WellFormed(KeyInputsOf(plan[i].stage, opts, fps[plan[i].stage.name], PlannedKeys(plan, i)))
    decreases i
  {
    var plan := BuildPlan(key, d, opts, fps).value;
    var p := plan[i];
    PlannedKey(key, d, opts, fps, i);
    if p.state != Skipped {
      forall j | 0 <= j < i ensures plan[j].state != Skipped ==> IsHex(plan[j].key) && plan[j].key != "" {
        PlanKeysAreHex(key, d, opts, fps, j);
      }
      BuildMakesGoodPlans(key, d, opts, fps);
      UpstreamIsHex(d, plan, i);
      BuildNames(key, d, opts, fps);
      SelectedFromRegistry(opts, i);
      assert CleanFingerprint(fps[p.stage.name]);
      PlannedInputsAreWellFormed(key, p.stage, opts, fps[p.stage.name], PlannedKeys(plan, i));
    }
  }

  lemma LatestIsAHit(d: Disk, stage: string)
    ensures LatestIn(d, stage).Some? ==>
              Lookup(d, LatestIn(d, stage).value.key) == LatestIn(d, stage) && LatestIn(d, stage).value.stage == stage
  {
  }

  lemma UpstreamIsHex(d: Disk, plan: seq<Planned>, i: nat)
    requires GoodPlan(plan) && i < |plan| && HexHits(d)
    requires plan[i].external == ExternalInputs(d, plan[i].stage, SeenAt(plan, i))
    requires forall j | 0 <= j < i :: plan[j].state != Skipped ==> IsHex(plan[j].key) && plan[j].key != ""
    ensures forall dep | dep in PlannedKeys(plan, i) :: dep in Dependencies(plan[i].stage) && IsHex(PlannedKeys(plan, i)[dep])
  {
    forall dep | dep in PlannedKeys(plan, i) ensures IsHex(PlannedKeys(plan, i)[dep]) {
      PlannedKeyOf(plan, i, dep);
      if InPlan(plan, dep) {
        var j :| 0 <= j < i && plan[j].stage.name == dep
          && UpstreamKey(dep, SeenAt(plan, i), plan[i].external)
               == (if plan[j].key != "" then Some(plan[j].key)
                   else if plan[j].artifact.Some? then Some(plan[j].artifact.value.key) else None);
        assert GoodEntry(plan[j]);
      } else {
        LatestIsAHit(d, dep);
      }
    }
  }

  lemma ConsistentHitsAreHex(key: Keyer, sem: Semantics, use: Usage, stageOf: map<string, string>, d: Disk)
    requires IdentifiesInputs(key) && DistinctIds(stageOf.Keys)
    requires Consistent(Lawbook(key, sem, use, stageOf), d)
    ensures HexHits(d)
  {
    forall k ensures Lookup(d, k).Some? ==> IsHex(k) {
      HitsAreKnown(key, sem, use, stageOf, d, k);
      if Lookup(d, k).Some? {
        GoodTreesHashGoodInputs(key, TreeOf(key, k, Lookup(d, k).value.stage));
      }
    }
  }

  /** What a stage was planned with is an artifact of its own: nothing else has its key. */
  lemma PlannedIsOwn(key: Keyer, sem: Semantics, use: Usage, stageOf: map<string, string>, d: Disk,
                     opts: Options, fps: Fingerprints, i: nat)
    requires IdentifiesInputs(key) && DistinctIds(stageOf.Keys) && Consistent(Lawbook(key, sem, use, stageOf), d)
    requires ValidRegistry(opts.registry) && CleanOptions(opts) && CleanFingerprints(fps) && BuildPlan(key, d, opts, fps).Ok?
    requires i < |BuildPlan(key, d, opts, fps).value|
    ensures var p := BuildPlan(key, d, opts, fps).value[i]; p.artifact.Some? ==> p.artifact.value.stage == p.stage.name
  {
    var plan := BuildPlan(key, d, opts, fps).value;
    var p := plan[i];
    BuildNames(key, d, opts, fps);
    assert GoodEntry(p);
    if p.artifact.Some? {
      PlannedKey(key, d, opts, fps, i);
      ConsistentHitsAreHex(key, sem, use, stageOf, d);
      PlanKeysAreHex(key, d, opts, fps, i);
      HitsAreKnown(key, sem, use, stageOf, d, p.key);
      var t := TreeOf(key, p.key, p.artifact.value.stage);
      GoodTreesHashGoodInputs(key, t);
      assert InputsFor(t.recipe, UpstreamDigests(key, t), t.source)
          == KeyInputsOf(p.stage, opts, fps[p.stage.name], PlannedKeys(plan, i));
    }
  }

  // ---------------------------------------------------------------------
  // What a stage is keyed on, and handed
  // ---------------------------------------------------------------------

  /** Which upstream keys a stage is planned with: of what it depends on,
      required or optionally, the key each stage of the plan was planned under,
      unless it is blocked, and the key of what a stage outside the plan last
      produced, if anything. */
  lemma KeyedOnDependencies(key: Keyer, d: Disk, opts: Options, fps: Fingerprints, i: nat, dep: string)
    requires ValidRegistry(opts.registry) && BuildPlan(key, d, opts, fps).Ok?
    requires IdentifiesInputs(key) && CleanOptions(opts) && CleanFingerprints(fps) && HexHits(d)
    requires i < |BuildPlan(key, d, opts, fps).value| && BuildPlan(key, d, opts, fps).value[i].state != Skipped
    ensures var plan := BuildPlan(key, d, opts, fps).value;
            var keys, s := PlannedKeys(plan, i), plan[i].stage;
            if dep in s.depends || dep in s.optionalDepends then
              && (forall j | 0 <= j < |plan| && plan[j].stage.name == dep ::
                    if plan[j].state == Skipped then dep !in keys else dep in keys && keys[dep] == plan[j].key)
              && (!InPlan(plan, dep) ==>
                    if LatestIn(d, dep).Some? then dep in keys && keys[dep] == LatestIn(d, dep).value.key else dep !in keys)
            else dep !in keys
  {
    var plan := BuildPlan(key, d, opts, fps).value;
    BuildMakesGoodPlans(key, d, opts, fps);
    PlannedKey(key, d, opts, fps, i);
    if dep in Dependencies(plan[i].stage) {
      PlannedKeyOf(plan, i, dep);
      FoundBefore(plan, i, dep);
      forall j | 0 <= j < |plan| && plan[j].stage.name == dep
        ensures GoodEntry(plan[j]) && InPlan(plan, dep) && (plan[j].state != Skipped ==> plan[j].key != "")
      {
        PlanKeysAreHex(key, d, opts, fps, j);
      }
      assert plan[i].stage.name != dep by { SelfIsNoDependency(plan, i); }
    }
  }

  lemma SelfIsNoDependency(plan: seq<Planned>, i: nat)
    requires GoodPlan(plan) && i < |plan|
    ensures plan[i].stage.name !in Dependencies(plan[i].stage)
  {
    assert GoodDependencies(plan, i);
    NotInPrefix(plan, i, i);
    if plan[i].stage.name in Dependencies(plan[i].stage) { assert InPlan(plan, plan[i].stage.name); }
  }

  /** What a stage is handed when the plan has got to `now`: of what it depends
      on, required or optionally, the artifact of each stage of the plan that has
      one, and what a stage outside the plan last produced. Nothing stands in for
      an optional dependency without an artifact. */
  lemma HandedDependencies(key: Keyer, d: Disk, opts: Options, fps: Fingerprints, now: seq<Planned>, i: nat, dep: string)
    requires ValidRegistry(opts.registry) && BuildPlan(key, d, opts, fps).Ok?
    requires SameStages(BuildPlan(key, d, opts, fps).value, now)
    requires i < |now| && BuildPlan(key, d, opts, fps).value[i].state != Skipped
    ensures var plan := BuildPlan(key, d, opts, fps).value;
            var inputs, s := HandedInputs(plan, now, i), plan[i].stage;
            if dep in s.depends || dep in s.optionalDepends then
              && (forall j | 0 <= j < |now| && now[j].stage.name == dep ::
                    if now[j].artifact.Some? then dep in inputs && inputs[dep] == now[j].artifact.value else dep !in inputs)
              && (!InPlan(plan, dep) ==>
                    if LatestIn(d, dep).Some? then dep in inputs && inputs[dep] == LatestIn(d, dep).value else dep !in inputs)
            else dep !in inputs
  {
    var plan := BuildPlan(key, d, opts, fps).value;
    BuildMakesGoodPlans(key, d, opts, fps);
    PlannedKey(key, d, opts, fps, i);
    if dep in Dependencies(plan[i].stage) {
      HandedInputOf(plan, now, i, dep);
      FoundBefore(plan, i, dep);
      SelfIsNoDependency(plan, i);
    }
  }
}
