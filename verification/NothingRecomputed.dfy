/** Nothing is recomputed: planning again after a run in which every stage
  succeeded finds every stage cached. */
module NothingRecomputed {
  import opened ArtifactHash
  import opened KeyTrees
  import opened ArtifactStore
  import opened Optional
  import opened StoreSafety
  import opened Retention
  import opened Planning
  import opened Planner
  import opened Execution
  import opened PlanFacts
  import opened Settlement
  import opened Provenance
  import opened Soundness
  import opened Agreement
  import opened KeyAgreement

  // ---------------------------------------------------------------------
  // What a run leaves alone
  // ---------------------------------------------------------------------

  /** The stores agree on everything about a stage: its rows and its directories. */
  ghost predicate SameFor(a: Disk, b: Disk, stage: string) {
    && (forall k :: k in a.rows && a.rows[k].stage == stage ==> k in b.rows && b.rows[k] == a.rows[k])
    && (forall k :: k in b.rows && b.rows[k].stage == stage ==> k in a.rows && a.rows[k] == b.rows[k])
    && (forall p: Place :: p.0 == stage ==> (p in a.dirs <==> p in b.dirs))
    && (forall p: Place :: p.0 == stage && p in a.dirs && p in b.dirs ==> a.dirs[p] == b.dirs[p])
  }

  lemma SameLookup(a: Disk, b: Disk, key: string)
    requires Lookup(a, key).Some? && SameFor(a, b, Lookup(a, key).value.stage)
    ensures Lookup(b, key) == Lookup(a, key)
  {
    var p := (a.rows[key].stage, a.rows[key].id);
    assert p in b.dirs;
  }

  lemma SameLatest(a: Disk, b: Disk, stage: string)
    requires SameFor(a, b, stage)
    ensures LatestIn(a, stage) == LatestIn(b, stage)
  {
    forall k ensures IsLatestKey(a, stage, k) <==> IsLatestKey(b, stage, k) {}
    if k :| IsLatestKey(a, stage, k) {
      LatestIsUnique(a, stage, k);
      LatestIsUnique(b, stage, k);
      var p := (a.rows[k].stage, a.rows[k].id);
      assert p in a.dirs <==> p in b.dirs;
      assert Lookup(a, k) == Lookup(b, k);
    }
  }

  /** What adding a published artifact to a store changes. */
  lemma PublishedLeaves(law: Law, d: Disk, d': Disk, stage: string, key: string, dir: Dir, other: string)
    requires Consistent(law, d) && (key in d.rows ==> d.rows[key].stage == stage)
    requires var id := IDForKey(key);
             d' == d.(rows := d.rows[key := Row(id, stage, Status.Ready, d.clock)], dirs := d.dirs[(stage, id) := dir],
                      clock := d.clock + 1, nextTemp := d.nextTemp + 1)
    ensures NewerIsEmpty(d', stage, key) && Lookup(d', key) == Some(Artifact(IDForKey(key), stage, key))
    ensures other != stage ==> SameFor(d, d', other)
  {
    forall k | k in d.rows ensures RowFits(law, k, d.rows[k], d.clock) {}
    assert forall k | k in d'.rows && k != key :: !IsNewer(d'.rows[k], d'.rows[key]);
    NewerIsOrder(d'.rows[key], d'.rows[key], d'.rows[key]);
  }

  /** Publishing an artifact touches no other stage, and leaves the artifact
      where Lookup finds it, the newest of its stage. */
  lemma CommitLeaves(law: Law, d: Disk, attempt: Op, other: string)
    requires Consistent(law, d) && DistinctIds(law.stageOf.Keys)
    requires attempt.Attempt? && attempt.finish.Commits? && Obeys(law, attempt)
    requires Publishable(Contents(attempt.files), attempt.primary)
    ensures var d' := Exec(d, OpSteps(d, attempt));
            && Consistent(law, d') && NewerIsEmpty(d', attempt.stage, attempt.key)
            && Lookup(d', attempt.key) == Some(Artifact(IDForKey(attempt.key), attempt.stage, attempt.key))
            && (other != attempt.stage ==> SameFor(d, d', other))
  {
    AfterCommit(law, d, attempt);
    IdIsFree(law, d, attempt);
    var dir := PublishedDir(attempt.stage, attempt.key, Contents(attempt.files), attempt.primary);
    PublishedLeaves(law, d, Exec(d, OpSteps(d, attempt)), attempt.stage, attempt.key, dir, other);
    OpsAreLawful(law, d, attempt);
    var steps := OpSteps(d, attempt);
    assert steps[..|steps|] == steps;
    StoppingAnywhere(law, d, steps, |steps|);
  }

  ghost predicate NewerIsEmpty(d: Disk, stage: string, key: string) {
    key in StageKeys(d, stage) && NewerRows(d, key) == {}
  }

  lemma PartlyPrunedIsSame(d: Disk, stage: string, keys: seq<string>, rows: nat, dirs: nat, other: string)
    requires (forall k | k in keys :: k in d.rows && d.rows[k].stage == stage) && rows <= |keys| && dirs <= |keys|
    requires other != stage
    ensures SameFor(d, PartlyPruned(d, keys, rows, dirs), other)
  {
    forall k | k in Sorting.Elements(keys[..rows]) ensures k in keys {}
    forall k | k in Sorting.Elements(keys[..dirs]) ensures k in keys {}
  }

  lemma PartialCollectLeaves(law: Law, d: Disk, stage: string, retention: int,
                             n: nat, rows: nat, dirs: nat, key: string, other: string)
    requires Consistent(law, d) && DistinctIds(law.stageOf.Keys) && retention != 0
    requires NewerIsEmpty(d, stage, key)
    requires n == rows + dirs && dirs <= rows <= dirs + 1 && rows <= |Pruned(d, stage, retention)|
    ensures |GCSteps(d, stage, retention)| == 2 * |Pruned(d, stage, retention)|
    ensures var d' := Exec(d, GCSteps(d, stage, retention)[..n]);
            Lookup(d', key) == Lookup(d, key) && (other != stage ==> SameFor(d, d', other))
  {
    var pruned := Pruned(d, stage, retention);
    StoppedGC(law, d, stage, retention, n, rows, dirs, key);
    if retention > 0 {
      PrunedIffEnoughNewer(d, stage, retention, key);
    }
    assert key !in Sorting.Elements(pruned[..rows]) by {
      forall k | k in pruned[..rows] ensures k in pruned {}
    }
    if other != stage {
      PartlyPrunedIsSame(d, stage, pruned, rows, dirs, other);
    }
  }

  /** Pruning, complete or not, keeps the newest artifact and touches no other stage. */
  lemma CollectLeaves(law: Law, d: Disk, stage: string, retention: int, steps: nat, key: string, other: string)
    requires Consistent(law, d) && DistinctIds(law.stageOf.Keys) && retention != 0
    requires NewerIsEmpty(d, stage, key)
    ensures var d' := AfterOne(d, Stopped(Collect(stage, retention), steps));
            Lookup(d', key) == Lookup(d, key) && (other != stage ==> SameFor(d, d', other))
  {
    PartialCollectLeaves(law, d, stage, retention, 0, 0, 0, key, other);
    var n := Min(steps, |GCSteps(d, stage, retention)|);
    var dirs := n / 2;
    PartialCollectLeaves(law, d, stage, retention, n, n - dirs, dirs, key, other);
  }

  lemma SameForTransitive(a: Disk, b: Disk, c: Disk, stage: string)
    requires SameFor(a, b, stage) && SameFor(b, c, stage)
    ensures SameFor(a, c, stage)
  {
    forall p: Place | p.0 == stage ensures p in a.dirs <==> p in c.dirs
                                   ensures p in a.dirs && p in c.dirs ==> a.dirs[p] == c.dirs[p] {
      assert p in a.dirs <==> p in b.dirs;
      assert p in b.dirs <==> p in c.dirs;
    }
  }

  lemma AfterTwo(d: Disk, a: Run, b: Run)
    ensures After(d, [a]) == AfterOne(d, a)
    ensures After(d, [a, b]) == AfterOne(AfterOne(d, a), b)
  {
    assert [a][..0] == [] && [a, b][..1] == [a];
    assert After(d, []) == d;
  }

  /** What a completed stage leaves in the store. */
  lemma CompletedLeaves(law: Law, d: Disk, stage: string, k: string, files: Files, primary: string, fault: nat, retention: int,
                        gcFault: nat, other: string)
    requires Consistent(law, d) && DistinctIds(law.stageOf.Keys) && retention != 0
    requires RunCommit(d, stage, k, files, primary, fault, retention, gcFault).state == Completed
    requires AllObey(law, RunCommit(d, stage, k, files, primary, fault, retention, gcFault).ops)
    ensures var d' := After(d, RunCommit(d, stage, k, files, primary, fault, retention, gcFault).ops);
            && Lookup(d', k) == Some(Artifact(IDForKey(k), stage, k))
            && (other != stage ==> SameFor(d, d', other))
  {
    var ops := RunCommit(d, stage, k, files, primary, fault, retention, gcFault).ops;
    var attempt := Attempt(stage, k, files, primary, Commits);
    assert ops[0] == Whole(attempt) && Obeys(law, ops[0].op);
    AfterTwo(d, Whole(attempt), Stopped(Collect(stage, retention), gcFault));
    CommitLeaves(law, d, attempt, other);
    var d1 := Exec(d, OpSteps(d, attempt));
    if retention > 0 {
      CollectLeaves(law, d1, stage, retention, gcFault, k, other);
      if other != stage {
        SameForTransitive(d, d1, After(d, ops), other);
      }
    }
  }

  // ---------------------------------------------------------------------
  // The store after a run
  // ---------------------------------------------------------------------

  /** All that matters here of what a store is used for: the stage of each key. */
  ghost function Keeping(stageOf: map<string, string>): Law {
    Law(stageOf, (dir: Dir) => true)
  }

  ghost predicate Tracked(stageOf: map<string, string>, d0: Disk, st: Progress) {
    Consistent(Keeping(stageOf), st.disk) && st.disk == After(d0, st.ops)
  }

  lemma CoveredObey(stageOf: map<string, string>, ops: seq<Run>)
    requires Covers(stageOf, ops)
    ensures AllObey(Keeping(stageOf), ops)
  {
    forall i | 0 <= i < |ops| ensures Obeys(Keeping(stageOf), ops[i].op) {}
  }

  lemma TurnObeys(env: Env, stageOf: map<string, string>, st: Progress, i: nat)
    requires i < |st.plan| && TurnRan(env, st, i) && Covers(stageOf, RunPending(env, st, i).ops)
    ensures AllObey(Keeping(stageOf), TurnRun(env, st, i).ops)
  {
    var ops := TurnRun(env, st, i).ops;
    CoversLater(stageOf, st.ops, ops);
    CoveredObey(stageOf, ops);
  }

  lemma TurnIsTracked(env: Env, stageOf: map<string, string>, d0: Disk, st: Progress, i: nat)
    requires i < |st.plan| && Tracked(stageOf, d0, st) && Covers(stageOf, RunPending(env, st, i).ops)
    ensures Tracked(stageOf, d0, RunPending(env, st, i))
  {
    TurnShape(env, st, i);
    if TurnRan(env, st, i) {
      var ops := TurnRun(env, st, i).ops;
      TurnObeys(env, stageOf, st, i);
      HistoriesKeepConsistent(Keeping(stageOf), st.disk, ops);
      AfterAppend(d0, st.ops, ops);
    }
  }

  lemma CompletedTurnLeaves(env: Env, stageOf: map<string, string>, d0: Disk, st: Progress, i: nat, other: string)
    requires DistinctIds(stageOf.Keys) && i < |st.plan| && env.opts.retention != 0
    requires Tracked(stageOf, d0, st) && Covers(stageOf, RunPending(env, st, i).ops)
    requires RunPending(env, st, i).plan[i].state == Completed
    ensures var after := RunPending(env, st, i);
            && after.plan[i].artifact.Some?
            && Lookup(after.disk, after.plan[i].artifact.value.key) == after.plan[i].artifact
            && (other != st.plan[i].stage.name ==> SameFor(st.disk, after.disk, other))
  {
    var p := st.plan[i];
    TurnShape(env, st, i);
    TurnObeys(env, stageOf, st, i);
    CompletedStageLeaves(env, Keeping(stageOf), st.disk, i, p.stage, Inputs(p.stage, ByName(st.plan), p.external), other);
  }

  lemma CompletedStageLeaves(env: Env, law: Law, d: Disk, i: nat, s: Stage, inputs: map<string, Artifact>, other: string)
    requires Consistent(law, d) && DistinctIds(law.stageOf.Keys) && env.opts.retention != 0
    requires Execution.RunStage(env, d, i, s, inputs).state == Completed
    requires AllObey(law, Execution.RunStage(env, d, i, s, inputs).ops)
    ensures var r := Execution.RunStage(env, d, i, s, inputs);
            && r.artifact.Some?
            && Lookup(After(d, r.ops), r.artifact.value.key) == r.artifact
            && (other != s.name ==> SameFor(d, After(d, r.ops), other))
  {
    var o := Effective(env.world, s, d, inputs);
    var files := FilesOf(o, Product(env.sem, env.opts, env.world, d, s, inputs));
    CompletedLeaves(law, d, s.name, RunKey(env, s, inputs), files, o.primary, o.fault, env.opts.retention, o.gcFault,
                    other);
  }

  /** The stage is one of those the run still has to execute, from `i` on. */
  ghost predicate ToRun(before: seq<Planned>, i: nat, stage: string) {
    exists j | i <= j < |before| :: before[j].stage.name == stage && before[j].state == Pending
  }

  ghost predicate LeftAlone(before: seq<Planned>, i: nat, a: Disk, b: Disk) {
    forall stage {:trigger ToRun(before, i, stage)} | !ToRun(before, i, stage) :: SameFor(a, b, stage)
  }

  ghost predicate ResultsAreThere(before: seq<Planned>, now: seq<Planned>, i: nat, d: Disk)
    requires |before| == |now|
  {
    forall j | i <= j < |before| && before[j].state == Pending ::
      now[j].artifact.Some? && Lookup(d, now[j].artifact.value.key) == now[j].artifact
  }

  lemma TurnLeaves(env: Env, stageOf: map<string, string>, d0: Disk, before: seq<Planned>, st: Progress, i: nat,
                   end: Progress)
    requires DistinctIds(stageOf.Keys) && env.opts.retention != 0
    requires GoodPlan(before) && Going(before, st, i) && i < |before| && before[i].state == Pending
    requires Tracked(stageOf, d0, st) && Covers(stageOf, RunPending(env, st, i).ops)
    requires |end.plan| == |before| && end.plan[i] == RunPending(env, st, i).plan[i] && end.plan[i].state.Succeeded()
    requires LeftAlone(before, i + 1, RunPending(env, st, i).disk, end.disk)
    requires ResultsAreThere(before, end.plan, i + 1, end.disk)
    ensures LeftAlone(before, i, st.disk, end.disk) && ResultsAreThere(before, end.plan, i, end.disk)
  {
    var mid := RunPending(env, st, i).disk;
    var name := before[i].stage.name;
    TurnEnds(env, before, st, i);
    SucceededTurnCompletes(env, before, st, i);
    CompletedTurnLeaves(env, stageOf, d0, st, i, name);
    assert !ToRun(before, i + 1, name);
    var a := end.plan[i].artifact.value;
    TurnArtifactIsOfItsStage(env, before, st, i);
    assert SameFor(mid, end.disk, name);
    SameLookup(mid, end.disk, a.key);
    forall stage | !ToRun(before, i, stage) ensures SameFor(st.disk, end.disk, stage) {
      assert before[i].stage.name != stage;
      assert !ToRun(before, i + 1, stage);
      CompletedTurnLeaves(env, stageOf, d0, st, i, stage);
      SameForTransitive(st.disk, mid, end.disk, stage);
    }
  }

  lemma SucceededTurnCompletes(env: Env, before: seq<Planned>, st: Progress, i: nat)
    requires GoodPlan(before) && Going(before, st, i) && i < |before| && before[i].state == Pending
    requires RunPending(env, st, i).plan[i].state.Succeeded()
    ensures RunPending(env, st, i).plan[i].state == Completed
  {
  }

  lemma TurnArtifactIsOfItsStage(env: Env, before: seq<Planned>, st: Progress, i: nat)
    requires GoodPlan(before) && Going(before, st, i) && i < |before| && before[i].state == Pending
    ensures var p := RunPending(env, st, i).plan[i];
            p.artifact.Some? ==> p.artifact.value.stage == before[i].stage.name
  {
    assert GoodEntry(before[i]);
  }

  lemma CancelledIsNotSucceeded(before: seq<Planned>, st: Progress, i: nat)
    requires GoodPlan(before) && Going(before, st, i) && AllSucceeded(CancelRemaining(st).plan)
    ensures forall j | i <= j < |before| :: before[j].state != Pending
    ensures forall stage :: !ToRun(before, i, stage)
  {
    var now := CancelRemaining(st).plan;
    forall j | i <= j < |before| ensures before[j].state != Pending {
      assert now[j] == CancelOne(st.plan[j]) && now[j].state.Succeeded();
    }
  }

  ghost predicate Ready(env: Env, stageOf: map<string, string>, d0: Disk, before: seq<Planned>, st: Progress, i: nat) {
    Going(before, st, i) && Tracked(stageOf, d0, st)
  }

  ghost predicate Left(before: seq<Planned>, i: nat, d: Disk, end: Progress) {
    && |end.plan| == |before|
    && LeftAlone(before, i, d, end.disk) && ResultsAreThere(before, end.plan, i, end.disk)
  }

  lemma PassedStaysAsItIs(env: Env, before: seq<Planned>, st: Progress, i: nat)
    requires GoodPlan(before) && Going(before, st, i + 1) && i < |before|
    ensures var end := RunFrom(env, st, i + 1).progress; |end.plan| == |before| && end.plan[i] == st.plan[i]
  {
    RunKeepsAndKeys(env, before, st, i + 1);
  }

  lemma TurnKeepsReady(env: Env, stageOf: map<string, string>, d0: Disk, before: seq<Planned>, st: Progress, i: nat)
    requires DistinctIds(stageOf.Keys) && GoodPlan(before)
    requires Ready(env, stageOf, d0, before, st, i) && i < |before| && before[i].state == Pending
    requires Covers(stageOf, RunPending(env, st, i).ops)
    ensures Ready(env, stageOf, d0, before, RunPending(env, st, i), i + 1)
  {
    TurnKeepsGoing(env, before, st, i);
    TurnIsTracked(env, stageOf, d0, st, i);
  }

  lemma PassingLeaves(before: seq<Planned>, i: nat, d: Disk, end: Progress)
    requires i < |before| && before[i].state != Pending && Left(before, i + 1, d, end)
    ensures Left(before, i, d, end)
  {
    forall stage | !ToRun(before, i, stage) ensures SameFor(d, end.disk, stage) {
      assert !ToRun(before, i + 1, stage);
    }
  }

  lemma CancelLeaves(before: seq<Planned>, st: Progress, i: nat)
    requires GoodPlan(before) && Going(before, st, i)
    ensures AllSucceeded(CancelRemaining(st).plan) ==> Left(before, i, st.disk, CancelRemaining(st))
    ensures i == |before| ==> Left(before, i, st.disk, st)
  {
    if AllSucceeded(CancelRemaining(st).plan) { CancelledIsNotSucceeded(before, st, i); }
  }

  /** When every stage of a run succeeds, each artifact the run produced is
      still there at its end, and the stages it did not run are untouched. */
  lemma {:induction false} RunLeaves(env: Env, stageOf: map<string, string>, d0: Disk, before: seq<Planned>,
                                     st: Progress, i: nat)
    requires DistinctIds(stageOf.Keys) && env.opts.retention != 0 && GoodPlan(before)
    requires Ready(env, stageOf, d0, before, st, i) && Covers(stageOf, RunFrom(env, st, i).progress.ops)
    requires AllSucceeded(RunFrom(env, st, i).progress.plan)
    ensures Left(before, i, st.disk, RunFrom(env, st, i).progress)
    decreases |before| - i, 1
  {
    CancelLeaves(before, st, i);
    SameStateNow(before, st, i);
    if i < |before| {
      if st.plan[i].state != Pending {
        PassAndRest(env, stageOf, d0, before, st, i);
      } else if !CancelledAt(env.world, 2 * i) {
        TurnAndRest(env, stageOf, d0, before, st, i);
      }
    }
  }

  lemma SameStateNow(before: seq<Planned>, st: Progress, i: nat)
    requires Going(before, st, i)
    ensures i <= |before| == |st.plan| && (i < |before| ==> st.plan[i].state == before[i].state)
  {
  }

  lemma {:induction false} PassAndRest(env: Env, stageOf: map<string, string>, d0: Disk, before: seq<Planned>,
                                       st: Progress, i: nat)
    requires DistinctIds(stageOf.Keys) && env.opts.retention != 0 && GoodPlan(before)
    requires Ready(env, stageOf, d0, before, st, i) && i < |before| && before[i].state != Pending
    requires Covers(stageOf, RunFrom(env, st, i + 1).progress.ops)
    requires AllSucceeded(RunFrom(env, st, i + 1).progress.plan)
    ensures Left(before, i, st.disk, RunFrom(env, st, i + 1).progress)
    decreases |before| - i, 0
  {
    SettledStageIsPassed(before, st, i);
    RunLeaves(env, stageOf, d0, before, st, i + 1);
    PassingLeaves(before, i, st.disk, RunFrom(env, st, i + 1).progress);
  }

  lemma {:induction false} TurnAndRest(env: Env, stageOf: map<string, string>, d0: Disk, before: seq<Planned>,
                                       st: Progress, i: nat)
    requires DistinctIds(stageOf.Keys) && env.opts.retention != 0 && GoodPlan(before)
    requires Ready(env, stageOf, d0, before, st, i) && i < |before| && before[i].state == Pending
    requires |RunPending(env, st, i).plan| == |before|
    requires Covers(stageOf, RunFrom(env, RunPending(env, st, i), i + 1).progress.ops)
    requires AllSucceeded(RunFrom(env, RunPending(env, st, i), i + 1).progress.plan)
    ensures Left(before, i, st.disk, RunFrom(env, RunPending(env, st, i), i + 1).progress)
    decreases |before| - i, 0
  {
    var next := RunPending(env, st, i);
    EarlierIsCovered(env, stageOf, next, i + 1);
    TurnKeepsReady(env, stageOf, d0, before, st, i);
    RunLeaves(env, stageOf, d0, before, next, i + 1);
    PassedStaysAsItIs(env, before, next, i);
    TurnLeaves(env, stageOf, d0, before, st, i, RunFrom(env, next, i + 1).progress);
  }

  // ---------------------------------------------------------------------
  // Planning again
  // ---------------------------------------------------------------------

  /** What the second plan is to be: the first one, with every stage cached. */
  ghost function AllCached(plan: seq<Planned>, now: seq<Planned>): seq<Planned>
    requires |plan| == |now|
  {
    seq(|plan|, i requires 0 <= i < |plan| => plan[i].(state := Cached, artifact := now[i].artifact))
  }

  ghost predicate CachedTwin(a: ByStage, b: ByStage) {
    && a.Keys == b.Keys
    && forall n | n in a :: a[n].key == b[n].key != "" && b[n].state == Cached && b[n].artifact.Some?
  }

  lemma {:induction false} NothingEnded(deps: seq<string>, planned: ByStage)
    requires forall n | n in planned :: !planned[n].state.Unusable()
    ensures FirstEnded(deps, planned).None?
  {
    if deps != [] { NothingEnded(deps[1..], planned); }
  }

  lemma {:induction false} NothingMissing(deps: seq<string>, a: ByStage, b: ByStage, external: map<string, Artifact>)
    requires a.Keys == b.Keys && FirstMissing(deps, a, external).None?
    requires forall n | n in b :: !b[n].state.Terminal() || b[n].artifact.Some?
    ensures FirstMissing(deps, b, external).None?
  {
    if deps != [] { NothingMissing(deps[1..], a, b, external); }
  }

  lemma TwinsShareKeys(s: Stage, fresh_: Planned, a: ByStage, b: ByStage, external: map<string, Artifact>)
    requires CachedTwin(a, b)
    ensures UpstreamKeys(s, a[s.name := fresh_], external) == UpstreamKeys(s, b[s.name := fresh_], external)
  {
    var sa, sb := a[s.name := fresh_], b[s.name := fresh_];
    forall dep | dep in Dependencies(s) ensures UpstreamKey(dep, sa, external) == UpstreamKey(dep, sb, external) {}
  }

  /** How an unblocked stage came to be planned. */
  lemma UnblockedStage(key: Keyer, d: Disk, opts: Options, fps: Fingerprints, a: ByStage, sel: Selected)
    requires PlanStage(key, d, opts, fps, a, sel).Ok? && PlanStage(key, d, opts, fps, a, sel).value.state != Skipped
    ensures var s, fresh_ := sel.stage, FreshPlan(sel.stage, sel.ordinal);
            var external := ExternalInputs(d, s, a[s.name := fresh_]);
            var p := PlanStage(key, d, opts, fps, a, sel).value;
            && Unsatisfied(s, a[s.name := fresh_], external).None?
            && s.name in fps && Subtree(s, opts).Canonical?
            && p == fresh_.(external := external, state := p.state, artifact := p.artifact,
                            key := key(KeyInputsOf(s, opts, fps[s.name], UpstreamKeys(s, a[s.name := fresh_], external))))
  {
  }

  /** A stage with nothing in its way, whose key is a hit, is cached. */
  lemma HitStage(key: Keyer, d: Disk, opts: Options, fps: Fingerprints, b: ByStage, sel: Selected,
                 external: map<string, Artifact>)
    requires !opts.force && sel.stage.name in fps && Subtree(sel.stage, opts).Canonical?
    requires var seen := b[sel.stage.name := FreshPlan(sel.stage, sel.ordinal)];
             && BlockedBy(sel.stage, seen).None?
             && external == ExternalInputs(d, sel.stage, seen)
             && Unsatisfied(sel.stage, seen, external).None?
             && Lookup(d, key(KeyInputsOf(sel.stage, opts, fps[sel.stage.name], UpstreamKeys(sel.stage, seen, external)))).Some?
    ensures var s, fresh_ := sel.stage, FreshPlan(sel.stage, sel.ordinal);
            var k := key(KeyInputsOf(s, opts, fps[s.name], UpstreamKeys(s, b[s.name := fresh_], external)));
            PlanStage(key, d, opts, fps, b, sel)
              == Ok(fresh_.(external := external, key := k, state := Cached, artifact := Lookup(d, k)))
  {
  }

  ghost predicate SameLatestOutside(d: Disk, d': Disk, s: Stage, a: ByStage) {
    forall dep | dep in Dependencies(s) && dep !in a && dep != s.name :: LatestIn(d, dep) == LatestIn(d', dep)
  }

  lemma SameExternal(d: Disk, d': Disk, deps: seq<string>, a: ByStage, b: ByStage)
    requires a.Keys == b.Keys && forall dep | dep in deps && dep !in a :: LatestIn(d, dep) == LatestIn(d', dep)
    ensures ExternalOf(d, deps, a) == ExternalOf(d', deps, b)
  {
    forall dep | dep in deps ensures dep in a <==> dep in b {}
    var x, y := ExternalOf(d, deps, a), ExternalOf(d', deps, b);
    assert x.Keys == y.Keys;
  }

  /** Seen with everything before it cached, a stage has the same inputs to resolve and to hash. */
  lemma SeenAgain(d: Disk, d': Disk, s: Stage, fresh_: Planned, a: ByStage, b: ByStage)
    requires CachedTwin(a, b) && SameLatestOutside(d, d', s, a) && fresh_.state == Pending
    requires Unsatisfied(s, a[s.name := fresh_], ExternalInputs(d, s, a[s.name := fresh_])).None?
    ensures var sa, sb := a[s.name := fresh_], b[s.name := fresh_];
            var external := ExternalInputs(d, s, sa);
            && BlockedBy(s, sb).None? && ExternalInputs(d', s, sb) == external && Unsatisfied(s, sb, external).None?
            && UpstreamKeys(s, sb, external) == UpstreamKeys(s, sa, external)
  {
    var sa, sb := a[s.name := fresh_], b[s.name := fresh_];
    var external := ExternalInputs(d, s, sa);
    NothingEnded(s.depends, sb);
    SameExternal(d, d', Dependencies(s), sa, sb);
    NothingMissing(s.depends, sa, sb, external);
    TwinsShareKeys(s, fresh_, a, b, external);
  }

  /** A stage whose planned key is now a hit is planned as cached. */
  lemma StageAgain(key: Keyer, d: Disk, d': Disk, opts: Options, fps: Fingerprints, a: ByStage, b: ByStage,
                   sel: Selected, p: Planned)
    requires CachedTwin(a, b) && PlanStage(key, d, opts, fps, a, sel) == Ok(p) && p.state != Skipped
    requires SameLatestOutside(d, d', sel.stage, a) && Lookup(d', p.key).Some?
    ensures PlanStage(key, d', opts.(force := false), fps, b, sel) == Ok(p.(state := Cached, artifact := Lookup(d', p.key)))
  {
    var s, fresh_ := sel.stage, FreshPlan(sel.stage, sel.ordinal);
    UnblockedStage(key, d, opts, fps, a, sel);
    SeenAgain(d, d', s, fresh_, a, b);
    HitStage(key, d', opts.(force := false), fps, b, sel, p.external);
  }

  lemma ByNameTwins(plan: seq<Planned>, twin: seq<Planned>)
    requires |plan| == |twin| && NamesDiffer(plan)
    requires forall i | 0 <= i < |plan| ::
               && twin[i].stage == plan[i].stage && twin[i].key == plan[i].key != ""
               && twin[i].state == Cached && twin[i].artifact.Some?
    ensures CachedTwin(ByName(plan), ByName(twin))
    ensures forall n :: n in ByName(plan) <==> InPlan(plan, n)
  {
    assert NamesDiffer(twin);
    FindByName(plan);
    FindByName(twin);
    forall n | n in ByName(plan) ensures n in ByName(twin) && ByName(plan)[n].key == ByName(twin)[n].key != ""
      && ByName(twin)[n].state == Cached && ByName(twin)[n].artifact.Some? {
      var i :| 0 <= i < |plan| && plan[i].stage.name == n;
      assert ByName(twin)[twin[i].stage.name] == twin[i];
    }
    forall n | n in ByName(twin) ensures n in ByName(plan) {
      var i :| 0 <= i < |twin| && twin[i].stage.name == n;
      assert plan[i].stage.name in ByName(plan);
    }
    forall n | InPlan(plan, n) ensures n in ByName(plan) {
      var i :| 0 <= i < |plan| && plan[i].stage.name == n;
    }
  }

  /** The store at the end of the run, as far as planning can tell: every
      planned key is a hit, and stages outside the plan have the same latest. */
  ghost predicate Serves(d: Disk, d': Disk, plan: seq<Planned>, now: seq<Planned>) {
    && |plan| == |now|
    && (forall i | 0 <= i < |plan| ::
          plan[i].state != Skipped && plan[i].key != "" && now[i].artifact.Some? && Lookup(d', plan[i].key) == now[i].artifact)
    && (forall dep | !InPlan(plan, dep) :: LatestIn(d, dep) == LatestIn(d', dep))
  }

  lemma {:induction false} StagesAgain(key: Keyer, d: Disk, d': Disk, opts: Options, fps: Fingerprints, now: seq<Planned>, n: nat)
    requires ValidRegistry(opts.registry) && BuildPlan(key, d, opts, fps).Ok?
    requires Serves(d, d', BuildPlan(key, d, opts, fps).value, now) && n <= |BuildPlan(key, d, opts, fps).value|
    ensures |Selection(opts).value| == |now|
    ensures PlanStages(key, d', opts.(force := false), fps, Selection(opts).value[..n])
         == Ok(AllCached(BuildPlan(key, d, opts, fps).value, now)[..n])
    decreases n
  {
    var plan, sel := BuildPlan(key, d, opts, fps).value, Selection(opts).value;
    BuildNames(key, d, opts, fps);
    if n > 0 {
      StagesAgain(key, d, d', opts, fps, now, n - 1);
      NextAgain(key, d, d', opts, fps, plan, now, n - 1);
      OneMore(key, d', opts.(force := false), fps, sel, AllCached(plan, now), n - 1);
    }
  }

  lemma OneMore(key: Keyer, d: Disk, opts: Options, fps: Fingerprints, sel: seq<Selected>, plan: seq<Planned>, m: nat)
    requires |sel| == |plan| && m < |plan| && PlanStages(key, d, opts, fps, sel[..m]) == Ok(plan[..m])
    requires PlanStage(key, d, opts, fps, ByName(plan[..m]), sel[m]) == Ok(plan[m])
    ensures PlanStages(key, d, opts, fps, sel[..m + 1]) == Ok(plan[..m + 1])
  {
    OneMorePlanned(key, d, opts, fps, sel, m, plan[..m], plan[m]);
    assert plan[..m + 1] == plan[..m] + [plan[m]];
  }

  lemma OneMorePlanned(key: Keyer, d: Disk, opts: Options, fps: Fingerprints, sel: seq<Selected>, m: nat,
                       before: seq<Planned>, p: Planned)
    requires m < |sel| && PlanStages(key, d, opts, fps, sel[..m]) == Ok(before)
    requires PlanStage(key, d, opts, fps, ByName(before), sel[m]) == Ok(p)
    ensures PlanStages(key, d, opts, fps, sel[..m + 1]) == Ok(before + [p])
  {
    PlanStagesStep(key, d, opts, fps, sel, m, before);
  }

  /** How stage `m` was planned, and where what it depends on is. */
  lemma PlannedAt(key: Keyer, d: Disk, opts: Options, fps: Fingerprints, plan: seq<Planned>, m: nat)
    requires ValidRegistry(opts.registry) && BuildPlan(key, d, opts, fps) == Ok(plan) && m < |plan|
    ensures m < |Selection(opts).value| && Selection(opts).value[m].stage == plan[m].stage
    ensures PlanStage(key, d, opts, fps, ByName(plan[..m]), Selection(opts).value[m]) == Ok(plan[m])
    ensures NamesDiffer(plan[..m])
    ensures forall dep | dep in Dependencies(plan[m].stage) && InPlan(plan, dep) :: InPlan(plan[..m], dep)
  {
    BuildNames(key, d, opts, fps);
    PlanAt(key, d, opts, fps, Selection(opts).value, m);
    BuildMakesGoodPlans(key, d, opts, fps);
    assert GoodDependencies(plan, m);
  }

  lemma TwinsBefore(d: Disk, d': Disk, plan: seq<Planned>, now: seq<Planned>, m: nat)
    requires Serves(d, d', plan, now) && m <= |plan| && NamesDiffer(plan[..m])
    ensures CachedTwin(ByName(plan[..m]), ByName(AllCached(plan, now)[..m]))
    ensures forall n :: n in ByName(plan[..m]) <==> InPlan(plan[..m], n)
  {
    ByNameTwins(plan[..m], AllCached(plan, now)[..m]);
  }

  lemma NextAgain(key: Keyer, d: Disk, d': Disk, opts: Options, fps: Fingerprints, plan: seq<Planned>, now: seq<Planned>, m: nat)
    requires ValidRegistry(opts.registry) && BuildPlan(key, d, opts, fps) == Ok(plan)
    requires Serves(d, d', plan, now) && m < |plan|
    ensures m < |Selection(opts).value|
    ensures PlanStage(key, d', opts.(force := false), fps, ByName(AllCached(plan, now)[..m]), Selection(opts).value[m])
         == Ok(AllCached(plan, now)[m])
  {
    PlannedAt(key, d, opts, fps, plan, m);
    TwinsBefore(d, d', plan, now, m);
    var before := ByName(plan[..m]);
    assert SameLatestOutside(d, d', plan[m].stage, before);
    StageAgain(key, d, d', opts, fps, before, ByName(AllCached(plan, now)[..m]), Selection(opts).value[m], plan[m]);
  }

  lemma SelectionIgnoresForce(opts: Options)
    ensures Selection(opts.(force := false)) == Selection(opts)
  {
    var opts' := opts.(force := false);
    ChosenDependsOnWant(opts.registry, |opts.registry|, Listed(opts'), Listed(opts));
    assert From(opts') == From(opts) && To(opts') == To(opts);
    forall s, o ensures InRange(opts')(s, o) == InRange(opts)(s, o) {}
    ChosenDependsOnWant(opts.registry, |opts.registry|, InRange(opts'), InRange(opts));
  }

  lemma PlansAgain(key: Keyer, d: Disk, d': Disk, opts: Options, fps: Fingerprints, now: seq<Planned>)
    requires ValidRegistry(opts.registry) && BuildPlan(key, d, opts, fps).Ok?
    requires Serves(d, d', BuildPlan(key, d, opts, fps).value, now)
    ensures BuildPlan(key, d', opts.(force := false), fps) == Ok(AllCached(BuildPlan(key, d, opts, fps).value, now))
  {
    var plan, sel := BuildPlan(key, d, opts, fps).value, Selection(opts).value;
    StagesAgain(key, d, d', opts, fps, now, |plan|);
    SelectionIgnoresForce(opts);
    BuildNames(key, d, opts, fps);
    assert sel[..|plan|] == sel && AllCached(plan, now)[..|plan|] == AllCached(plan, now);
  }

  // ---------------------------------------------------------------------
  // The theorem
  // ---------------------------------------------------------------------

  /** No key is filed under a stage other than the one whose inputs it hashes. */
  ghost predicate FiledByStage(key: Keyer, stageOf: map<string, string>) {
    forall inputs {:trigger WellFormed(inputs)} | WellFormed(inputs) && key(inputs) in stageOf ::
        stageOf[key(inputs)] == inputs.stage
  }

  /** A planned key that was a hit is still a hit when its stage was left alone. */
  lemma CachedKeyStays(key: Keyer, stageOf: map<string, string>, d: Disk, d': Disk, opts: Options, fps: Fingerprints, j: nat)
    requires IdentifiesInputs(key) && FiledByStage(key, stageOf) && Consistent(Keeping(stageOf), d) && HexHits(d)
    requires ValidRegistry(opts.registry) && CleanOptions(opts) && CleanFingerprints(fps) && BuildPlan(key, d, opts, fps).Ok?
    requires j < |BuildPlan(key, d, opts, fps).value|
    requires BuildPlan(key, d, opts, fps).value[j].state == Cached
    requires SameFor(d, d', BuildPlan(key, d, opts, fps).value[j].stage.name)
    ensures var p := BuildPlan(key, d, opts, fps).value[j]; Lookup(d', p.key) == p.artifact
  {
    var p := BuildPlan(key, d, opts, fps).value[j];
    PlannedKey(key, d, opts, fps, j);
    PlanKeysAreHex(key, d, opts, fps, j);
    BuildNames(key, d, opts, fps);
    assert GoodEntry(p);
    assert RowFits(Keeping(stageOf), p.key, d.rows[p.key], d.clock);
    SameLookup(d, d', p.key);
  }

  /** What the run leaves serves a second plan. */
  lemma RunServes(env: Env, stageOf: map<string, string>, d: Disk, fps: Fingerprints, end: Progress)
    requires CleanEnv(env) && CleanFingerprints(fps) && ValidRegistry(env.opts.registry)
        && BuildPlan(env.key, d, env.opts, fps).Ok?
    requires FiledByStage(env.key, stageOf) && Consistent(Keeping(stageOf), d) && HexHits(d)
    requires var plan := BuildPlan(env.key, d, env.opts, fps).value;
             && |end.plan| == |plan| && LeftAlone(plan, 0, d, end.disk) && ResultsAreThere(plan, end.plan, 0, end.disk)
             && (forall j | 0 <= j < |plan| :: Delivered(plan[j], end.plan[j]) && end.plan[j].artifact.Some?)
             && (forall j | 0 <= j < |plan| && plan[j].state != Pending :: end.plan[j] == plan[j])
    ensures Serves(d, end.disk, BuildPlan(env.key, d, env.opts, fps).value, end.plan)
  {
    var plan := BuildPlan(env.key, d, env.opts, fps).value;
    BuildMakesGoodPlans(env.key, d, env.opts, fps);
    forall j | 0 <= j < |plan| ensures Lookup(end.disk, plan[j].key) == end.plan[j].artifact {
      assert Delivered(plan[j], end.plan[j]) && GoodEntry(plan[j]);
      if plan[j].state != Pending {
        assert !ToRun(plan, 0, plan[j].stage.name);
        CachedKeyStays(env.key, stageOf, d, end.disk, env.opts, fps, j);
      }
    }
    forall dep | !InPlan(plan, dep) ensures LatestIn(d, dep) == LatestIn(end.disk, dep) {
      assert !ToRun(plan, 0, dep);
      SameLatest(d, end.disk, dep);
    }
  }

  /** A run in which every planned stage succeeds, under a retention other than
      zero and with stable fingerprints. */
  ghost predicate FullRun(env: Env, stageOf: map<string, string>, d: Disk, fps: Fingerprints) {
    && CleanEnv(env) && CleanFingerprints(fps) && ValidRegistry(env.opts.registry) && env.opts.retention != 0
    && BuildPlan(env.key, d, env.opts, fps).Ok?
    && var plan := BuildPlan(env.key, d, env.opts, fps).value;
       && Covers(stageOf, RunPlan(env, plan, d).progress.ops)
       && AllSucceeded(RunPlan(env, plan, d).progress.plan)
       && StableFingerprints(plan, fps, env.world)
  }

  /** What such a run leaves: every stage delivered, and the store serves the plan. */
  ghost predicate RanInFull(plan: seq<Planned>, d: Disk, end: Progress) {
    && SameStages(plan, end.plan) && Serves(d, end.disk, plan, end.plan) && LeftAlone(plan, 0, d, end.disk)
    && forall j | 0 <= j < |plan| :: Delivered(plan[j], end.plan[j])
  }

  lemma FullRunServes(env: Env, stageOf: map<string, string>, d: Disk, fps: Fingerprints)
    requires FullRun(env, stageOf, d, fps)
    requires DistinctIds(stageOf.Keys) && FiledByStage(env.key, stageOf) && Consistent(Keeping(stageOf), d) && HexHits(d)
    ensures var plan := BuildPlan(env.key, d, env.opts, fps).value;
            RanInFull(plan, d, RunPlan(env, plan, d).progress)
  {
    var plan := BuildPlan(env.key, d, env.opts, fps).value;
    var end := RunPlan(env, plan, d).progress;
    BuildMakesGoodPlans(env.key, d, env.opts, fps);
    StartIsGoing(plan, d);
    RunLeaves(env, stageOf, d, plan, Begun(plan, d), 0);
    RunIsKeyed(env, plan, d);
    StableRunsDeliver(env, d, fps, end.plan, |plan|);
    RunServes(env, stageOf, d, fps, end);
  }

  /** After such a run, building again without Force makes the same plan with
      every stage cached, whatever the run pruned: nothing is left to execute. */
  lemma NothingIsRecomputed(env: Env, stageOf: map<string, string>, d: Disk, fps: Fingerprints)
    requires FullRun(env, stageOf, d, fps)
    requires DistinctIds(stageOf.Keys) && FiledByStage(env.key, stageOf) && Consistent(Keeping(stageOf), d) && HexHits(d)
    ensures var plan := BuildPlan(env.key, d, env.opts, fps).value;
            var end := RunPlan(env, plan, d).progress;
            && |end.plan| == |plan|
            && BuildPlan(env.key, end.disk, env.opts.(force := false), fps) == Ok(AllCached(plan, end.plan))
            && !WillExecute(AllCached(plan, end.plan))
  {
    FullRunServes(env, stageOf, d, fps);
    var plan := BuildPlan(env.key, d, env.opts, fps).value;
    PlansAgain(env.key, d, RunPlan(env, plan, d).progress.disk, env.opts, fps, RunPlan(env, plan, d).progress.plan);
  }

  // ---------------------------------------------------------------------
  // After any history
  // ---------------------------------------------------------------------

  /** Every key is the key of well-formed inputs of the stage it is filed under. */
  ghost predicate KeysAreDerived(key: Keyer, stageOf: map<string, string>) {
    forall k | k in stageOf :: exists inputs :: WellFormed(inputs) && key(inputs) == k && inputs.stage == stageOf[k]
  }

  lemma DerivedKeysAreFiled(key: Keyer, stageOf: map<string, string>)
    requires IdentifiesInputs(key) && KeysAreDerived(key, stageOf)
    ensures FiledByStage(key, stageOf)
  {
    forall inputs | WellFormed(inputs) && key(inputs) in stageOf ensures stageOf[key(inputs)] == inputs.stage {
      var other :| WellFormed(other) && key(other) == key(inputs) && other.stage == stageOf[key(inputs)];
    }
  }

  /** Whatever was done to a store before, and wherever it crashed, its rows and
      directories fit the keys attempted, and every key it can find is hex. */
  lemma HistoriesFit(key: Keyer, stageOf: map<string, string>, history: seq<Run>)
    requires IdentifiesInputs(key) && KeysAreDerived(key, stageOf) && Covers(stageOf, history)
    ensures Consistent(Keeping(stageOf), After(EMPTY_DISK, history)) && HexHits(After(EMPTY_DISK, history))
  {
    var law, d := Keeping(stageOf), After(EMPTY_DISK, history);
    CoveredObey(stageOf, history);
    HistoriesKeepConsistent(law, EMPTY_DISK, history);
    forall k | Lookup(d, k).Some? ensures IsHex(k) {
      assert RowFits(law, k, d.rows[k], d.clock);
      var inputs :| WellFormed(inputs) && key(inputs) == k && inputs.stage == stageOf[k];
    }
  }

  /** The theorem, for a store with any history of operations and crashes. */
  lemma NothingIsRecomputedAfter(env: Env, stageOf: map<string, string>, history: seq<Run>, fps: Fingerprints)
    requires DistinctIds(stageOf.Keys) && KeysAreDerived(env.key, stageOf) && Covers(stageOf, history)
    requires FullRun(env, stageOf, After(EMPTY_DISK, history), fps)
    ensures var d := After(EMPTY_DISK, history);
            var plan := BuildPlan(env.key, d, env.opts, fps).value;
            var end := RunPlan(env, plan, d).progress;
            && |end.plan| == |plan|
            && BuildPlan(env.key, end.disk, env.opts.(force := false), fps) == Ok(AllCached(plan, end.plan))
            && !WillExecute(AllCached(plan, end.plan))
  {
    HistoriesFit(env.key, stageOf, history);
    DerivedKeysAreFiled(env.key, stageOf);
    NothingIsRecomputed(env, stageOf, After(EMPTY_DISK, history), fps);
  }
}
