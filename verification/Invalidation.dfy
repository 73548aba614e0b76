/** Exactly what a change invalidates. */
module Invalidation {
  import opened ArtifactHash
  import opened KeyTrees
  import opened ArtifactStore
  import opened Optional
  import opened Planning
  import opened Planner
  import opened PlanFacts
  import opened Provenance
  import opened Agreement

  /** Two settings to plan the same stages under: options and fingerprints. */
  datatype Setting = Setting(opts: Options, fps: Fingerprints)

  /** Two tables configure a stage differently. One that does not list it
      configures it with null. */
  ghost predicate ConfiguredDifferently(name: string, a: map<string, Config>, b: map<string, Config>) {
    if name in a && name in b then a[name] != b[name]
    else (name in a && a[name] != Canonical("null")) || (name in b && b[name] != Canonical("null"))
  }

  /** Something in a stage's key but its upstream keys differs: its version, the
      code's revision, its configuration, its fingerprint, or the source, of
      which only a stage that depends on "probe" knows. */
  ghost predicate OwnInputsDiffer(s: Stage, t: Stage, a: Setting, b: Setting) {
    || s.version != t.version
    || a.opts.revision != b.opts.revision
    || ConfiguredDifferently(s.name, a.opts.config, b.opts.config)
    || (s.name in a.fps && s.name in b.fps && a.fps[s.name] != b.fps[s.name])
    || ("probe" in s.depends && a.opts.source != b.opts.source)
  }

  /** The stage changed, or depends, required or optionally, on one in the plan
      that is affected. A blocked stage is not affected, and passes nothing on.
      `q` is the same plan with the stages as they are under `b`. */
  ghost predicate Affected(p: seq<Planned>, q: seq<Planned>, i: nat, a: Setting, b: Setting)
    requires i < |p| == |q|
    decreases i
  {
    p[i].state != Skipped && (OwnInputsDiffer(p[i].stage, q[i].stage, a, b) || AffectedDependency(p, q, i, a, b))
  }

  ghost predicate AffectedDependency(p: seq<Planned>, q: seq<Planned>, i: nat, a: Setting, b: Setting)
    requires i < |p| == |q|
    decreases i, 0
  {
    exists j | 0 <= j < i ::
      (p[j].stage.name in p[i].stage.depends || p[j].stage.name in p[i].stage.optionalDepends) && Affected(p, q, j, a, b)
  }

  // ---------------------------------------------------------------------
  // What is blocked does not depend on the setting
  // ---------------------------------------------------------------------

  ghost predicate Alike(a: ByStage, b: ByStage) {
    && a.Keys == b.Keys
    && forall n | n in a :: GoodEntry(a[n]) && GoodEntry(b[n]) && (a[n].state == Skipped <==> b[n].state == Skipped)
  }

  lemma {:induction false} SearchesAlike(deps: seq<string>, a: ByStage, b: ByStage, external: map<string, Artifact>)
    requires Alike(a, b)
    ensures FirstEnded(deps, a) == FirstEnded(deps, b)
    ensures FirstMissing(deps, a, external) == FirstMissing(deps, b, external)
  {
    if deps != [] { SearchesAlike(deps[1..], a, b, external); }
  }

  /** Why a stage is blocked, as far as its dependencies tell. */
  datatype Obstacle = Obstacle(ended: Option<Reason>, missing: Option<string>)

  /** How a stage's entry depends on what is in its way. */
  ghost predicate FollowsObstacle(p: Planned, sel: Selected, o: Obstacle, external: map<string, Artifact>) {
    && (p.state == Skipped <==> o.ended.Some? || o.missing.Some?)
    && p.external == (if o.ended.Some? then map[] else external)
    && (p.state == Skipped ==>
          p == FreshPlan(sel.stage, sel.ordinal).(
                 external := p.external, state := Skipped, blocked := true,
                 reason := if o.ended.Some? then o.ended.value else NoInput(o.missing.value)))
  }

  ghost function ObstacleTo(s: Stage, seen: ByStage, external: map<string, Artifact>): Obstacle {
    Obstacle(BlockedBy(s, seen), Unsatisfied(s, seen, external))
  }

  lemma StageFollowsObstacle(key: Keyer, d: Disk, opts: Options, fps: Fingerprints, a: ByStage, sel: Selected)
    requires PlanStage(key, d, opts, fps, a, sel).Ok?
    ensures var seen := a[sel.stage.name := FreshPlan(sel.stage, sel.ordinal)];
            var external := ExternalInputs(d, sel.stage, seen);
            FollowsObstacle(PlanStage(key, d, opts, fps, a, sel).value, sel, ObstacleTo(sel.stage, seen, external), external)
  {
  }

  /** The same stage, but for its version. */
  ghost predicate SameButVersion(s: Stage, t: Stage) {
    s.(version := t.version) == t
  }

  lemma ObstaclesAlike(d: Disk, s: Stage, t: Stage, a: ByStage, b: ByStage)
    requires Alike(a, b) && SameButVersion(s, t)
    ensures ExternalInputs(d, s, a) == ExternalInputs(d, t, b)
    ensures ObstacleTo(s, a, ExternalInputs(d, s, a)) == ObstacleTo(t, b, ExternalInputs(d, t, b))
  {
    SearchesAlike(s.depends, a, b, ExternalInputs(d, s, a));
  }

  lemma StageAlike(key: Keyer, d: Disk, x: Setting, y: Setting, a: ByStage, b: ByStage, sel: Selected, tel: Selected)
    requires Alike(a, b) && SameButVersion(sel.stage, tel.stage) && sel.ordinal == tel.ordinal
    requires PlanStage(key, d, x.opts, x.fps, a, sel).Ok? && PlanStage(key, d, y.opts, y.fps, b, tel).Ok?
    ensures var p, q := PlanStage(key, d, x.opts, x.fps, a, sel).value, PlanStage(key, d, y.opts, y.fps, b, tel).value;
            EntriesAlike(p, q)
  {
    var one, other := FreshPlan(sel.stage, sel.ordinal), FreshPlan(tel.stage, tel.ordinal);
    AlikeGrows(a, b, one, other);
    ObstaclesAlike(d, sel.stage, tel.stage, a[sel.stage.name := one], b[tel.stage.name := other]);
    StageFollowsObstacle(key, d, x.opts, x.fps, a, sel);
    StageFollowsObstacle(key, d, y.opts, y.fps, b, tel);
    PlannedEntryIsGood(key, d, x.opts, x.fps, a, sel);
    PlannedEntryIsGood(key, d, y.opts, y.fps, b, tel);
  }

  ghost predicate EntriesAlike(p: Planned, q: Planned) {
    && SameButVersion(p.stage, q.stage) && p.external == q.external
    && (p.state == Skipped <==> q.state == Skipped) && (p.state == Skipped ==> p.(stage := q.stage) == q)
  }

  ghost predicate PlansAlike(p: seq<Planned>, q: seq<Planned>, n: nat)
    requires n <= |p| == |q|
  {
    forall i | 0 <= i < n :: EntriesAlike(p[i], q[i])
  }

  lemma {:induction false} ByNameAlike(p: seq<Planned>, q: seq<Planned>)
    requires |p| == |q| && PlansAlike(p, q, |p|)
    requires forall i | 0 <= i < |p| :: GoodEntry(p[i]) && GoodEntry(q[i])
    ensures Alike(ByName(p), ByName(q))
    decreases |p|
  {
    if p != [] {
      var n := |p| - 1;
      assert PlansAlike(p[..n], q[..n], n);
      ByNameAlike(p[..n], q[..n]);
      AlikeGrows(ByName(p[..n]), ByName(q[..n]), p[n], q[n]);
    }
  }

  lemma AlikeGrows(a: ByStage, b: ByStage, p: Planned, q: Planned)
    requires Alike(a, b) && GoodEntry(p) && GoodEntry(q) && (p.state == Skipped <==> q.state == Skipped)
    requires p.stage.name == q.stage.name
    ensures Alike(a[p.stage.name := p], b[q.stage.name := q])
  {
  }

  ghost predicate SameSelection(a: seq<Selected>, b: seq<Selected>) {
    |a| == |b| && forall i | 0 <= i < |a| :: a[i].ordinal == b[i].ordinal && SameButVersion(a[i].stage, b[i].stage)
  }

  /** The same stages are planned, though perhaps not in the same versions. */
  ghost predicate SameWork(a: Setting, b: Setting) {
    && ValidRegistry(a.opts.registry) && ValidRegistry(b.opts.registry) && a.opts.force == b.opts.force
    && Selection(a.opts).Ok? && Selection(b.opts).Ok? && SameSelection(Selection(a.opts).value, Selection(b.opts).value)
  }

  ghost predicate BothPlan(key: Keyer, d: Disk, a: Setting, b: Setting) {
    && BuildPlan(key, d, a.opts, a.fps).Ok? && BuildPlan(key, d, b.opts, b.fps).Ok?
  }

  lemma AlikeStep(key: Keyer, d: Disk, a: Setting, b: Setting, p: seq<Planned>, q: seq<Planned>, i: nat,
                  sel: Selected, tel: Selected)
    requires i < |p| == |q| && NamesDiffer(p) && PlansAlike(p, q, i)
    requires forall j | 0 <= j < |p| :: GoodEntry(p[j]) && GoodEntry(q[j])
    requires PlanStage(key, d, a.opts, a.fps, ByName(p[..i]), sel) == Ok(p[i])
    requires PlanStage(key, d, b.opts, b.fps, ByName(q[..i]), tel) == Ok(q[i])
    requires SameButVersion(sel.stage, tel.stage) && sel.ordinal == tel.ordinal
    ensures PlansAlike(p, q, i + 1)
  {
    assert NamesDiffer(p[..i]);
    ByNameAlike(p[..i], q[..i]);
    StageAlike(key, d, a, b, ByName(p[..i]), ByName(q[..i]), sel, tel);
  }

  lemma NextIsAlike(key: Keyer, d: Disk, a: Setting, b: Setting, i: nat)
    requires SameWork(a, b) && BothPlan(key, d, a, b)
    requires i < |BuildPlan(key, d, a.opts, a.fps).value| == |BuildPlan(key, d, b.opts, b.fps).value|
    requires PlansAlike(BuildPlan(key, d, a.opts, a.fps).value, BuildPlan(key, d, b.opts, b.fps).value, i)
    ensures PlansAlike(BuildPlan(key, d, a.opts, a.fps).value, BuildPlan(key, d, b.opts, b.fps).value, i + 1)
  {
    var p, q := BuildPlan(key, d, a.opts, a.fps).value, BuildPlan(key, d, b.opts, b.fps).value;
    var sel, tel := Selection(a.opts).value, Selection(b.opts).value;
    BuildNames(key, d, a.opts, a.fps);
    BuildNames(key, d, b.opts, b.fps);
    PlanAt(key, d, a.opts, a.fps, sel, i);
    PlanAt(key, d, b.opts, b.fps, tel, i);
    AlikeStep(key, d, a, b, p, q, i, sel[i], tel[i]);
  }

  lemma {:induction false} SettingsBlockAlike(key: Keyer, d: Disk, a: Setting, b: Setting, n: nat)
    requires SameWork(a, b) && BothPlan(key, d, a, b)
    requires n <= |BuildPlan(key, d, a.opts, a.fps).value|
    ensures var p, q := BuildPlan(key, d, a.opts, a.fps).value, BuildPlan(key, d, b.opts, b.fps).value;
            |p| == |q| && PlansAlike(p, q, n)
    decreases n
  {
    BuildNames(key, d, a.opts, a.fps);
    BuildNames(key, d, b.opts, b.fps);
    if n > 0 {
      SettingsBlockAlike(key, d, a, b, n - 1);
      NextIsAlike(key, d, a, b, n - 1);
    }
  }

  // ---------------------------------------------------------------------
  // Keys
  // ---------------------------------------------------------------------

  ghost predicate SameUpstream(p: seq<Planned>, q: seq<Planned>, i: nat)
    requires i < |p| == |q|
  {
    forall j | 0 <= j < i && p[j].state != Skipped &&
      (p[j].stage.name in p[i].stage.depends || p[j].stage.name in p[i].stage.optionalDepends) :: p[j].key == q[j].key
  }

  /** The upstream keys of a stage agree iff each dependency's key does. */
  lemma UpstreamAgreesIff(p: seq<Planned>, q: seq<Planned>, i: nat)
    requires GoodPlan(p) && GoodPlan(q) && i < |p| == |q| && PlansAlike(p, q, |p|)
    requires forall j | 0 <= j < i :: p[j].state != Skipped ==> p[j].key != "" && q[j].key != ""
    ensures PlannedKeys(p, i) == PlannedKeys(q, i) <==> SameUpstream(p, q, i)
  {
    forall dep | dep in Dependencies(p[i].stage)
      ensures !InPlan(p, dep) ==> UpstreamKey(dep, SeenAt(p, i), p[i].external) == UpstreamKey(dep, SeenAt(q, i), q[i].external)
      ensures forall j | 0 <= j < i && p[j].stage.name == dep ::
                && UpstreamKey(dep, SeenAt(p, i), p[i].external) == (if p[j].state == Skipped then None else Some(p[j].key))
                && UpstreamKey(dep, SeenAt(q, i), q[i].external) == (if p[j].state == Skipped then None else Some(q[j].key))
    {
      DependencyKeys(p, q, i, dep);
    }
    if SameUpstream(p, q, i) {
      forall dep | dep in Dependencies(p[i].stage)
        ensures UpstreamKey(dep, SeenAt(p, i), p[i].external) == UpstreamKey(dep, SeenAt(q, i), q[i].external)
      {
        if InPlan(p, dep) {
          assert GoodDependencies(p, i);
          var j :| 0 <= j < i && p[..i][j].stage.name == dep;
          assert p[j].stage.name == dep;
        }
      }
    }
    if PlannedKeys(p, i) == PlannedKeys(q, i) {
      forall j | 0 <= j < i && p[j].stage.name in Dependencies(p[i].stage) && p[j].state != Skipped
        ensures p[j].key == q[j].key
      {
        assert PlannedKeys(p, i)[p[j].stage.name] == PlannedKeys(q, i)[p[j].stage.name];
      }
    }
  }

  lemma DependencyKeys(p: seq<Planned>, q: seq<Planned>, i: nat, dep: string)
    requires GoodPlan(p) && GoodPlan(q) && i < |p| == |q| && PlansAlike(p, q, |p|) && dep in Dependencies(p[i].stage)
    requires forall j | 0 <= j < i :: p[j].state != Skipped ==> p[j].key != "" && q[j].key != ""
    ensures !InPlan(p, dep) ==> UpstreamKey(dep, SeenAt(p, i), p[i].external) == UpstreamKey(dep, SeenAt(q, i), q[i].external)
    ensures forall j | 0 <= j < i && p[j].stage.name == dep ::
              && UpstreamKey(dep, SeenAt(p, i), p[i].external) == (if p[j].state == Skipped then None else Some(p[j].key))
              && UpstreamKey(dep, SeenAt(q, i), q[i].external) == (if p[j].state == Skipped then None else Some(q[j].key))
  {
    assert SameNamesOnly(p, q);
    PlansShareNames(p, q, dep);
    PlannedKeyOf(p, i, dep);
    PlannedKeyOf(q, i, dep);
    forall j | 0 <= j < i && p[j].stage.name == dep
      ensures UpstreamKey(dep, SeenAt(p, i), p[i].external) == (if p[j].state == Skipped then None else Some(p[j].key))
      ensures UpstreamKey(dep, SeenAt(q, i), q[i].external) == (if p[j].state == Skipped then None else Some(q[j].key))
    {
      assert GoodEntry(p[j]) && GoodEntry(q[j]) && q[j].stage.name == dep;
      assert InPlan(p, dep) && InPlan(q, dep);
    }
  }

  ghost predicate SameNamesOnly(p: seq<Planned>, q: seq<Planned>) {
    |p| == |q| && forall i | 0 <= i < |p| :: p[i].stage.name == q[i].stage.name
  }

  lemma PlansShareNames(p: seq<Planned>, q: seq<Planned>, name: string)
    requires SameNamesOnly(p, q)
    ensures InPlan(p, name) <==> InPlan(q, name)
  {
    if InPlan(p, name) { var i :| 0 <= i < |p| && p[i].stage.name == name; assert q[i].stage.name == name; }
    if InPlan(q, name) { var i :| 0 <= i < |q| && q[i].stage.name == name; assert p[i].stage.name == name; }
  }

  ghost predicate CleanSetting(a: Setting) {
    CleanOptions(a.opts) && CleanFingerprints(a.fps)
  }

  /** The source, for a stage that depends on "probe". */
  ghost predicate SameSource(s: Stage, t: Stage, a: Options, b: Options) {
    (if "probe" in s.depends then a.source else "") == if "probe" in t.depends then b.source else ""
  }

  /** Any two stages, planned in any two stores under any two settings, have the
      same key iff they are the same version of one stage, run by the same
      revision under the same configuration, with the same fingerprint, source
      and upstream keys. */
  lemma SameKeyIff(key: Keyer, d: Disk, a: Setting, i: nat, d': Disk, b: Setting, j: nat)
    requires IdentifiesInputs(key) && HexHits(d) && HexHits(d') && CleanSetting(a) && CleanSetting(b)
    requires ValidRegistry(a.opts.registry) && ValidRegistry(b.opts.registry)
    requires BuildPlan(key, d, a.opts, a.fps).Ok? && BuildPlan(key, d', b.opts, b.fps).Ok?
    requires i < |BuildPlan(key, d, a.opts, a.fps).value| && j < |BuildPlan(key, d', b.opts, b.fps).value|
    ensures var p, q := BuildPlan(key, d, a.opts, a.fps).value, BuildPlan(key, d', b.opts, b.fps).value;
            var s, t := p[i].stage, q[j].stage;
            p[i].state != Skipped && q[j].state != Skipped ==>
              && s.name in a.fps && t.name in b.fps
              && (p[i].key == q[j].key <==>
                    && s.name == t.name && s.version == t.version && a.opts.revision == b.opts.revision
                    && !ConfiguredDifferently(s.name, a.opts.config, b.opts.config) && a.fps[s.name] == b.fps[t.name]
                    && SameSource(s, t, a.opts, b.opts) && PlannedKeys(p, i) == PlannedKeys(q, j))
  {
    PlannedKey(key, d, a.opts, a.fps, i);
    PlannedKey(key, d', b.opts, b.fps, j);
    PlanKeysAreHex(key, d, a.opts, a.fps, i);
    PlanKeysAreHex(key, d', b.opts, b.fps, j);
  }

  /** One stage: its key changes iff its own inputs or an upstream key did. */
  lemma KeyChangesIff(key: Keyer, d: Disk, a: Setting, b: Setting, i: nat)
    requires IdentifiesInputs(key) && HexHits(d) && CleanSetting(a) && CleanSetting(b)
    requires SameWork(a, b) && BothPlan(key, d, a, b) && i < |BuildPlan(key, d, a.opts, a.fps).value|
    ensures var p, q := BuildPlan(key, d, a.opts, a.fps).value, BuildPlan(key, d, b.opts, b.fps).value;
            && |p| == |q|
            && (p[i].state != Skipped ==>
                  (p[i].key == q[i].key <==> !OwnInputsDiffer(p[i].stage, q[i].stage, a, b) && SameUpstream(p, q, i)))
            && (p[i].key == q[i].key ==> p[i].(stage := q[i].stage) == q[i])
  {
    var p, q := BuildPlan(key, d, a.opts, a.fps).value, BuildPlan(key, d, b.opts, b.fps).value;
    BuildMakesGoodPlans(key, d, a.opts, a.fps);
    BuildMakesGoodPlans(key, d, b.opts, b.fps);
    BuildNames(key, d, a.opts, a.fps);
    BuildNames(key, d, b.opts, b.fps);
    SettingsBlockAlike(key, d, a, b, |p|);
    forall j | 0 <= j <= i ensures p[j].state != Skipped ==> p[j].key != "" && q[j].key != "" {
      PlanKeysAreHex(key, d, a.opts, a.fps, j);
      PlanKeysAreHex(key, d, b.opts, b.fps, j);
    }
    PlannedKey(key, d, a.opts, a.fps, i);
    PlannedKey(key, d, b.opts, b.fps, i);
    SameKeyIff(key, d, a, i, d, b, i);
    UpstreamAgreesIff(p, q, i);
    assert GoodEntry(p[i]) && GoodEntry(q[i]);
    assert p[i].ordinal == q[i].ordinal;
  }

  /** Exact invalidation. Planning the same stages under two settings, a
      stage's key differs iff the stage is affected by what changed between
      them; an unaffected stage keeps its key, and its cached or pending state. */
  lemma {:induction false} InvalidationIsExact(key: Keyer, d: Disk, a: Setting, b: Setting, i: nat)
    requires IdentifiesInputs(key) && HexHits(d) && CleanSetting(a) && CleanSetting(b)
    requires SameWork(a, b) && BothPlan(key, d, a, b) && i < |BuildPlan(key, d, a.opts, a.fps).value|
    ensures var p, q := BuildPlan(key, d, a.opts, a.fps).value, BuildPlan(key, d, b.opts, b.fps).value;
            && |p| == |q|
            && (p[i].key != q[i].key <==> Affected(p, q, i, a, b))
            && (!Affected(p, q, i, a, b) ==> p[i].(stage := q[i].stage) == q[i])
    decreases i
  {
    var p, q := BuildPlan(key, d, a.opts, a.fps).value, BuildPlan(key, d, b.opts, b.fps).value;
    SettingsBlockAlike(key, d, a, b, |p|);
    KeyChangesIff(key, d, a, b, i);
    forall j | 0 <= j < i ensures p[j].key != q[j].key <==> Affected(p, q, j, a, b) {
      InvalidationIsExact(key, d, a, b, j);
    }
    if p[i].state != Skipped {
      assert SameUpstream(p, q, i) <==> !AffectedDependency(p, q, i, a, b) by {
        if !SameUpstream(p, q, i) {
          var j :| 0 <= j < i && p[j].state != Skipped && p[j].key != q[j].key &&
            (p[j].stage.name in p[i].stage.depends || p[j].stage.name in p[i].stage.optionalDepends);
          assert Affected(p, q, j, a, b);
        }
      }
    }
  }
}
