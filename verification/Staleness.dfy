/** Stages served stale after the source of a project has changed. */
module Staleness {
  import opened KeyTrees
  import opened ArtifactStore
  import opened Optional
  import opened StoreSafety
  import opened Planning
  import opened Execution
  import opened Agreement
  import opened Provenance
  import opened Soundness
  import opened Reruns
  import opened Sources
  import opened SoloRuns
  import opened MarkedRuns

  /** The probe stage depends on nothing and reads the source. */
  const PROBE := Stage("probe", "1", [], [], false)

  function Settings(source: string): Options {
    Options([PROBE], map[], "", source, false, [], "", "", [], -1)
  }

  const FPS: Fingerprints := map[PROBE.name := map[]]

  const WORLD := World(map[PROBE.name := Succeeds([], "probe.json", true, 4, 0, AbortFault(false, false))], FPS, 100)

  /** What a probe computes: here, all there is to know about the source. */
  ghost function Echo(): Semantics {
    (r: Recipe, read: map<string, Content>, source: string) => source
  }

  ghost function ProbeKey(key: Keyer): string {
    key(KeyInputsOf(PROBE, Settings(""), map[], map[]))
  }

  lemma SelectsProbe(source: string)
    ensures Selection(Settings(source)) == Ok([Selected(PROBE, 1)])
  {
    var opts := Settings(source);
    assert opts.fromStage == "" && opts.toStage == "" && |opts.registry| == 1;
    assert From(opts) == 1 && To(opts) == 1 && PROBE.name !in opts.disabled;
    assert InRange(opts)(PROBE, 1);
    assert Chosen(opts.registry, 1, InRange(opts)) == [Selected(PROBE, 1)];
  }

  ghost function PlannedProbe(key: Keyer, d: Disk): Planned {
    var hit := Lookup(d, ProbeKey(key));
    FreshPlan(PROBE, 1).(key := ProbeKey(key), state := if hit.Some? then Cached else Pending, artifact := hit)
  }

  lemma PlansStage(key: Keyer, d: Disk, source: string)
    ensures PlanStage(key, d, Settings(source), FPS, map[], Selected(PROBE, 1)) == Ok(PlannedProbe(key, d))
  {
    var seen: ByStage := map[][PROBE.name := FreshPlan(PROBE, 1)];
    assert Dependencies(PROBE) == [];
    assert ExternalInputs(d, PROBE, seen) == map[];
    assert UpstreamKeys(PROBE, seen, map[]) == map[];
    assert KeyInputsOf(PROBE, Settings(source), map[], map[]) == KeyInputsOf(PROBE, Settings(""), map[], map[]);
    assert FreshPlan(PROBE, 1).(external := map[]) == FreshPlan(PROBE, 1);
  }

  /** The probe is planned the same whatever the source. */
  lemma PlansProbe(key: Keyer, d: Disk, source: string)
    ensures BuildPlan(key, d, Settings(source), FPS) == Ok([PlannedProbe(key, d)])
  {
    SelectsProbe(source);
    PlansStage(key, d, source);
    PlansOne(key, d, Settings(source), FPS, Selected(PROBE, 1), PlannedProbe(key, d));
  }

  ghost function Probing(key: Keyer, source: string): Env {
    Env(key, Echo(), Settings(source), WORLD)
  }

  ghost function ProbeRun(key: Keyer, source: string): Op {
    Attempt(PROBE.name, ProbeKey(key), [("probe.json", source)], "probe.json", Commits)
  }

  lemma ProbePublishes(source: string)
    ensures Publishable(Contents([("probe.json", source)]), "probe.json")
    ensures Contents([("probe.json", source)])["probe.json"] == source
  {
    var files := [("probe.json", source)];
    assert files[..0] == [];
  }

  lemma RunsStage(key: Keyer, source: string)
    ensures Execution.RunStage(Probing(key, source), EMPTY_DISK, 0, PROBE, map[]).ops == [Whole(ProbeRun(key, source))]
  {
    var o := WORLD.outcomes[PROBE.name];
    assert KeysOf(map[]) == map[];
    assert Effective(WORLD, PROBE, EMPTY_DISK, map[]) == o;
    assert FilesOf(o, source) == [("probe.json", source)];
    ProbePublishes(source);
    assert RunCommit(EMPTY_DISK, PROBE.name, ProbeKey(key), FilesOf(o, source), "probe.json", 4, -1, 0).ops
        == [Whole(ProbeRun(key, source))];
  }

  lemma RunsProbe(key: Keyer, source: string)
    ensures RunPlan(Probing(key, source), [PlannedProbe(key, EMPTY_DISK)], EMPTY_DISK).progress.disk
         == Exec(EMPTY_DISK, OpSteps(EMPTY_DISK, ProbeRun(key, source)))
  {
    var env, plan := Probing(key, source), [PlannedProbe(key, EMPTY_DISK)];
    var st := Begun(plan, EMPTY_DISK);
    var planned := ByName(plan);
    assert Dependencies(PROBE) == [];
    assert Inputs(PROBE, planned, map[]) == map[];
    RunsStage(key, source);
    var run := Execution.RunStage(env, EMPTY_DISK, 0, PROBE, map[]);
    assert run.ops[..0] == [];
    assert After(EMPTY_DISK, run.ops[..0]) == EMPTY_DISK;
    var next := RunPending(env, st, 0);
    assert next.disk == After(EMPTY_DISK, run.ops);
    assert RunFrom(env, next, 1).progress == next;
    assert RunFrom(env, st, 0) == RunFrom(env, next, 1);
  }

  lemma ProbeIsStored(key: Keyer, source: string)
    ensures var d := Exec(EMPTY_DISK, OpSteps(EMPTY_DISK, ProbeRun(key, source)));
            Lookup(d, ProbeKey(key)).Some? && Open(d, Lookup(d, ProbeKey(key)).value) == Some(source)
  {
    var op := ProbeRun(key, source);
    ProbePublishes(source);
    assert After(EMPTY_DISK, []) == EMPTY_DISK;
    RetriesCommit(Law(map[op.key := PROBE.name], (dir: Dir) => true), [], op);
  }

  /** After the source changes, the probe is planned as cached, and what is
      cached is what it said about the old source. */
  lemma ProbeIsServedStale(key: Keyer, before: string, now: string)
    ensures BuildPlan(key, EMPTY_DISK, Settings(before), FPS).Ok?
    ensures var first := BuildPlan(key, EMPTY_DISK, Settings(before), FPS).value;
            var d := RunPlan(Probing(key, before), first, EMPTY_DISK).progress.disk;
            var second := BuildPlan(key, d, Settings(now), FPS);
            && second.Ok? && |second.value| == 1 && HandedInputs(second.value, second.value, 0) == map[]
            && var p := second.value[0];
               && p.stage == PROBE && p.state == Cached && p.artifact.Some?
               && Open(d, p.artifact.value) == Some(before)
               && Product(Echo(), Settings(now), WORLD, d, PROBE, map[]) == now
  {
    PlansProbe(key, EMPTY_DISK, before);
    RunsProbe(key, before);
    ProbeIsStored(key, before);
    var d := Exec(EMPTY_DISK, OpSteps(EMPTY_DISK, ProbeRun(key, before)));
    PlansProbe(key, d, now);
    assert HandedInputs([PlannedProbe(key, d)], [PlannedProbe(key, d)], 0) == map[];
  }

  // ---------------------------------------------------------------------
  // A stage that records the source, over one that does not
  // ---------------------------------------------------------------------

  /** The audio stage depends on the probe, so that its key records the source. */
  const AUDIO := Stage("audio", "1", ["probe"], [], false)

  /** Payloads show whether the probe in them is of the current source. */
  ghost function Studio(key: Keyer, now: string): Bench {
    Bench(key, Marks(PROBE.name, now), [PROBE, AUDIO], map[], "", map[PROBE.name := map[], AUDIO.name := map[]], now)
  }

  lemma StudioIsGood(key: Keyer, now: string)
    requires IdentifiesInputs(key)
    ensures Marking(Studio(key, now), 0) && Reaches([PROBE, AUDIO], 1, 0)
  {
    var all := [PROBE, AUDIO];
    assert all[0] == PROBE && all[1] == AUDIO && PROBE.name != AUDIO.name;
    assert all[..1] == [PROBE] && PROBE in all[..1] && PROBE.depends == [] && AUDIO.depends == ["probe"];
    assert RegisteredBefore(all, 1, "probe");
    assert Reaches(all, 0, 0) && all[0].name in Dependencies(all[1]);
  }

  lemma StudioTurns(x: Bench, before: string) returns (turns: seq<Turn>)
    requires Marking(x, 0) && |x.all| == 2 && before != x.source
    ensures turns == [Turn(0, before), Turn(1, x.source), Turn(0, x.source)] && Leads(x, 0, before, turns, 2, 1)
  {
    var none := NothingRun(x, 0, before, 0);
    var one := FirstTurn(x, 0, before, none, 0, 1);
    var two := FirstTurn(x, 0, before, one, 1, 2);
    turns := SecondTurn(x, 0, before, two, 0, 1);
  }

  /** The probe is run with one source. Then audio is run with another, on what
      the probe made of the first; then the probe is run again. After that
      audio is planned as cached, and is not what running it would produce,
      although its key records the current source. */
  lemma AudioIsServedStale(key: Keyer, before: string, now: string) returns (actions: seq<Action>)
    requires IdentifiesInputs(key) && before != now && now != "" && DistinctIds(Keys(Studio(key, now)).Values)
    ensures var x := Studio(key, now);
            && GoodBench(x)
            && Played(x, Usage({before, now}, StagesOf(x.all)), Filing(x), [Turn(0, before), Turn(1, now), Turn(0, now)], actions)
            && ServesStale(x, Usage({before, now}, StagesOf(x.all)), Filing(x), actions, Entries(x, 2), 1)
            && forall blind :: SourceIsAccountedFor(AUDIO, Full(x), blind)
  {
    var x := Studio(key, now);
    StudioIsGood(key, now);
    FilingFiles(x);
    var turns := StudioTurns(x, before);
    actions := Plays(x, Usage({before, now}, StagesOf(x.all)), Filing(x), turns);
    StaleThere(x, Usage({before, now}, StagesOf(x.all)), Filing(x), 0, 1, turns, actions);
  }
}
