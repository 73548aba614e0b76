/** How a stage's run, a cancelled run and a job end, told by what happened. */
module Outcomes {
  import opened ArtifactHash
  import opened KeyTrees
  import opened ArtifactStore
  import opened Optional
  import opened StoreSafety
  import opened Planning
  import opened PlanFacts
  import opened Execution
  import opened Settlement
  import Jobs

  // ---------------------------------------------------------------------
  // One stage
  // ---------------------------------------------------------------------

  /** The stage's own code ended in an error: by itself, or because what it
      reads or fingerprints could not be read. */
  ghost predicate RunFailed(w: World, s: Stage, d: Disk, inputs: map<string, Artifact>)
    requires s.name in w.outcomes
  {
    w.outcomes[s.name].Fails? || (w.outcomes[s.name].Succeeds? && (s.name !in w.fps || !Readable(d, inputs)))
  }

  /** The stage wrote a primary that can be published, and nothing went wrong. */
  ghost predicate RunPublishes(w: World, s: Stage, d: Disk, inputs: map<string, Artifact>, key: string)
    requires s.name in w.outcomes
  {
    var o := w.outcomes[s.name];
    && o.Succeeds? && s.name in w.fps && Readable(d, inputs)
    && o.writesPrimary && o.primary != "" && o.primary != MANIFEST_NAME
    && o.fault >= 4 && !IdTaken(d, key, IDForKey(key))
  }

  /** Its error was the cancellation, or the context was cancelled by then. */
  ghost predicate FoundCancelled(w: World, s: Stage, i: nat)
    requires s.name in w.outcomes
  {
    w.cancelAt <= 2 * i + 1 || (w.outcomes[s.name].Fails? && w.outcomes[s.name].cancelled)
  }

  /** A stage that was begun completes iff it publishes, is cancelled iff its run
      failed with the cancellation or found the context cancelled, and fails
      otherwise. Only a completed stage has an artifact, and no other lacks an error. */
  lemma StageEnds(env: Env, d: Disk, i: nat, s: Stage, inputs: map<string, Artifact>)
    requires s.name in env.world.outcomes && !env.world.outcomes[s.name].CannotBegin?
    requires s.name in env.opts.config ==> env.opts.config[s.name].Canonical?
    ensures var r, w, k := RunStage(env, d, i, s, inputs), env.world, RunKey(env, s, inputs);
            && r.state == (if RunPublishes(w, s, d, inputs, k) then Completed
                           else if RunFailed(w, s, d, inputs) && FoundCancelled(w, s, i) then Cancelled else Failed)
            && r.artifact == (if r.state == Completed then Some(Artifact(IDForKey(k), s.name, k)) else None)
            && (r.err == None <==> r.state == Completed)
  {
    var o := env.world.outcomes[s.name];
    if o.Succeeds? && s.name in env.world.fps && Readable(d, inputs) {
      var product := Product(env.sem, env.opts, env.world, d, s, inputs);
      WrittenLast(o.written, o.primary, product);
      CommitEnds(d, s.name, RunKey(env, s, inputs), FilesOf(o, product), o.primary, o.fault, env.opts.retention, o.gcFault);
    }
  }

  lemma CommitEnds(d: Disk, stage: string, k: string, files: Files, primary: string, fault: nat, retention: int, gcFault: nat)
    ensures var r := RunCommit(d, stage, k, files, primary, fault, retention, gcFault);
            && r.state == (if Publishable(Contents(files), primary) && fault >= 4 && !IdTaken(d, k, IDForKey(k))
                           then Completed else Failed)
            && r.artifact == (if r.state == Completed then Some(Artifact(IDForKey(k), stage, k)) else None)
            && (r.err == None <==> r.state == Completed)
  {
  }

  /** What a stage's run does to the store. A completed one publishes its files
      with what it computed as the primary, and prunes its stage unless the
      retention is negative; one whose code failed gives its attempt up. */
  lemma StageStores(env: Env, d: Disk, i: nat, s: Stage, inputs: map<string, Artifact>)
    requires s.name in env.world.outcomes && !env.world.outcomes[s.name].CannotBegin?
    requires s.name in env.opts.config ==> env.opts.config[s.name].Canonical?
    ensures var r, o, k := RunStage(env, d, i, s, inputs), env.world.outcomes[s.name], RunKey(env, s, inputs);
            && (r.state == Completed ==> o.Succeeds? && Readable(d, inputs))
            && (r.state == Completed ==>
                  (var product := Product(env.sem, env.opts, env.world, d, s, inputs);
                   var publish := Attempt(s.name, k, o.written + [(o.primary, product)], o.primary, Commits);
                   r.ops == [Whole(publish)]
                            + if env.opts.retention < 0 then [] else [Stopped(Collect(s.name, env.opts.retention), o.gcFault)]))
            && (RunFailed(env.world, s, d, inputs) ==>
                  r.ops == [Whole(Attempt(s.name, k, o.written, "", Aborts(o.abort)))])
  {
    var o := env.world.outcomes[s.name];
    StageEnds(env, d, i, s, inputs);
    if o.Succeeds? && s.name in env.world.fps && Readable(d, inputs) {
      var product := Product(env.sem, env.opts, env.world, d, s, inputs);
      CommitStores(d, s.name, RunKey(env, s, inputs), FilesOf(o, product), o.primary, o.fault, env.opts.retention, o.gcFault);
    }
  }

  lemma CommitStores(d: Disk, stage: string, k: string, files: Files, primary: string, fault: nat, retention: int, gcFault: nat)
    ensures var r := RunCommit(d, stage, k, files, primary, fault, retention, gcFault);
            r.state == Completed ==>
              r.ops == [Whole(Attempt(stage, k, files, primary, Commits))]
                       + if retention < 0 then [] else [Stopped(Collect(stage, retention), gcFault)]
  {
  }

  lemma WrittenLast(written: Files, primary: string, product: Content)
    ensures primary in Contents(written + [(primary, product)]) && Contents([]) == map[]
    ensures Contents(written + [(primary, product)])[primary] == product
  {
    var files := written + [(primary, product)];
    assert files[..|files| - 1] == written;
  }

  // ---------------------------------------------------------------------
  // A cancelled run
  // ---------------------------------------------------------------------

  /** From the first look that finds the context cancelled, nothing is entered:
      only a stage whose turn came before can have been. */
  lemma {:induction false} EnteredInTime(env: Env, st: Progress, i: nat, name: string)
    requires i <= |st.plan| && Entered(name) in RunFrom(env, st, i).progress.events && Entered(name) !in st.events
    ensures exists k | i <= k < |st.plan| :: st.plan[k].stage.name == name && 2 * k < env.world.cancelAt
    decreases |st.plan| - i
  {
    AnnouncesSettle(st.plan, CancelState);
    if i < |st.plan| && st.plan[i].state != Pending {
      EnteredInTime(env, st, i + 1, name);
    } else if i < |st.plan| && !CancelledAt(env.world, 2 * i) {
      TurnKeepsRest(env, st, i);
      if Entered(name) !in RunPending(env, st, i).events {
        EnteredInTime(env, RunPending(env, st, i), i + 1, name);
      }
    }
  }

  /** A turn changes one stage of the plan, and enters no other. */
  lemma TurnKeepsRest(env: Env, st: Progress, i: nat)
    requires i < |st.plan|
    ensures var after := RunPending(env, st, i);
            && |after.plan| == |st.plan|
            && (forall j | 0 <= j < |st.plan| :: after.plan[j].stage == st.plan[j].stage && (j != i ==> after.plan[j] == st.plan[j]))
            && (forall name | Entered(name) in after.events :: Entered(name) in st.events || name == st.plan[i].stage.name)
            && (after.plan[i].reason == RunCancelled ==> st.plan[i].reason == RunCancelled)
            && after.plan[i].state.Terminal()
  {
    var p := st.plan[i];
    RunStageEndsWell(env, st.disk, i, p.stage, Inputs(p.stage, ByName(st.plan), p.external));
    FirstEndedIsNoCancel(p.stage.depends, ByName(st.plan));
  }

  lemma {:induction false} FirstEndedIsNoCancel(deps: seq<string>, planned: ByStage)
    ensures FirstEnded(deps, planned) != Some(RunCancelled)
  {
    if deps != [] { FirstEndedIsNoCancel(deps[1..], planned); }
  }

  /** How the run leaves the stages from `i` on. */
  ghost predicate StopsAt(w: World, before: seq<Planned>, now: seq<Planned>, i: nat) {
    && |now| == |before|
    && forall j | i <= j < |before| && before[j].state == Pending ::
         if w.cancelAt <= 2 * j then now[j] == before[j].(state := Cancelled, reason := RunCancelled)
         else now[j].reason != RunCancelled
  }

  /** Before stage `i`'s turn: those before it have ended, and none as cancelled
      with the run. */
  ghost predicate Underway(plan: seq<Planned>, i: nat) {
    && i <= |plan|
    && (forall j | 0 <= j < |plan| :: plan[j].reason != RunCancelled && plan[j].state != Running)
    && (forall j | 0 <= j < i :: plan[j].state.Terminal())
  }

  lemma CancelledRest(w: World, st: Progress, i: nat)
    requires Underway(st.plan, i) && (i < |st.plan| ==> w.cancelAt <= 2 * i)
    ensures StopsAt(w, st.plan, CancelRemaining(st).plan, i)
    ensures forall j | 0 <= j < i :: CancelRemaining(st).plan[j] == st.plan[j]
  {
  }

  lemma {:induction false} RunStops(env: Env, st: Progress, i: nat)
    requires Underway(st.plan, i)
    ensures StopsAt(env.world, st.plan, RunFrom(env, st, i).progress.plan, i)
    ensures forall j | 0 <= j < i :: RunFrom(env, st, i).progress.plan[j] == st.plan[j]
    decreases |st.plan| - i
  {
    if i < |st.plan| && st.plan[i].state != Pending {
      RunStops(env, st, i + 1);
    } else if CancelledAt(env.world, 2 * i) {
      CancelledRest(env.world, st, i);
    } else if i < |st.plan| {
      TurnKeepsRest(env, st, i);
      RunStops(env, RunPending(env, st, i), i + 1);
    }
  }

  /** A run is cancelled iff some look at the context, the last of them at its
      end, finds it so. The stages whose turn had not come by then are settled as
      cancelled, untouched and never entered; no other stage is left that way. */
  lemma CancelStops(env: Env, plan: seq<Planned>, d: Disk)
    requires GoodPlan(plan) && forall j | 0 <= j < |plan| :: plan[j].reason != RunCancelled
    ensures var e := RunPlan(env, plan, d);
            && (e.cancelled <==> env.world.cancelAt <= 2 * |plan|)
            && StopsAt(env.world, plan, e.progress.plan, 0)
            && forall j | 0 <= j < |plan| && Entered(plan[j].stage.name) in e.progress.events :: 2 * j < env.world.cancelAt
  {
    SettlesExactlyOnce(env, plan, d);
    AnnouncesSettle(plan, EndState);
    forall j | 0 <= j < |plan| ensures plan[j].state != Running { assert GoodEntry(plan[j]); }
    RunStops(env, Begun(plan, d), 0);
    forall j | 0 <= j < |plan| && Entered(plan[j].stage.name) in RunPlan(env, plan, d).progress.events
      ensures 2 * j < env.world.cancelAt
    {
      EnteredInTime(env, Begun(plan, d), 0, plan[j].stage.name);
    }
  }

  // ---------------------------------------------------------------------
  // Skipped stages
  // ---------------------------------------------------------------------

  /** A stage was skipped for a required dependency, and says how that ended. */
  ghost predicate SkippedFor(plan: seq<Planned>, j: nat)
    requires j < |plan|
  {
    && plan[j].blocked && plan[j].reason.DependencyEnded? && plan[j].reason.dep in plan[j].stage.depends
    && exists k | 0 <= k < j ::
         && plan[k].stage.name == plan[j].reason.dep && plan[k].state == plan[j].reason.state
         && (plan[k].state == Skipped || plan[k].state == Failed || plan[k].state == Cancelled)
  }

  lemma EndedBefore(before: seq<Planned>, st: Progress, i: nat, dep: string)
    requires GoodPlan(before) && Going(before, st, i) && i < |before|
    requires dep in before[i].stage.depends && dep in ByName(st.plan)
    ensures exists k | 0 <= k < i :: st.plan[k].stage.name == dep && ByName(st.plan)[dep] == st.plan[k]
  {
    SameNames(before, st.plan);
    FindByName(st.plan);
    assert InPlan(before, dep);
    DependencyAt(before, i, dep);
    var k :| 0 <= k < i && before[k].stage.name == dep;
    assert st.plan[k].stage.name == dep;
  }

  lemma DependencyAt(before: seq<Planned>, i: nat, dep: string)
    requires GoodPlan(before) && i < |before| && dep in before[i].stage.depends && InPlan(before, dep)
    ensures exists k | 0 <= k < i :: before[k].stage.name == dep
  {
    assert GoodDependencies(before, i) && dep in Dependencies(before[i].stage);
    var k :| 0 <= k < i && before[..i][k].stage.name == dep;
    assert before[k].stage.name == dep;
  }

  /** What the executor finds ended is what it says. */
  lemma EndedTells(before: seq<Planned>, st: Progress, i: nat, after: seq<Planned>)
    requires GoodPlan(before) && Going(before, st, i) && i < |before| && |after| == |before|
    requires BlockedBy(st.plan[i].stage, ByName(st.plan)) == Some(after[i].reason) && after[i].blocked
    requires after[i].stage == st.plan[i].stage && forall k | 0 <= k < i :: after[k] == st.plan[k]
    ensures SkippedFor(after, i)
  {
    FirstEndedMeans(st.plan[i].stage.depends, ByName(st.plan));
    EndedBefore(before, st, i, after[i].reason.dep);
    var k :| 0 <= k < i && st.plan[k].stage.name == after[i].reason.dep && ByName(st.plan)[after[i].reason.dep] == st.plan[k];
    assert after[k].stage.name == after[i].reason.dep;
  }

  lemma TurnSkipsFor(env: Env, before: seq<Planned>, st: Progress, i: nat)
    requires GoodPlan(before) && Going(before, st, i) && i < |before| && before[i].state == Pending
    ensures var after := RunPending(env, st, i).plan;
            |after| == |before| && TellsAt(after, i)
  {
    TurnEnds(env, before, st, i);
    BlockedMeansLost(before, st, i);
    var after := RunPending(env, st, i).plan;
    if after[i].state == Skipped { EndedTells(before, st, i, after); }
  }

  /** Every stage from `i` on that was skipped says for what. */
  ghost predicate SkipsTold(before: seq<Planned>, now: seq<Planned>, i: nat) {
    && |now| == |before|
    && forall j | i <= j < |before| && before[j].state == Pending && now[j].state == Skipped :: SkippedFor(now, j)
  }

  ghost predicate TellsAt(plan: seq<Planned>, i: nat) {
    i < |plan| && (plan[i].state == Skipped ==> SkippedFor(plan, i))
  }

  /** What has ended stays as it was told. */
  lemma ToldEarlier(plan: seq<Planned>, now: seq<Planned>, i: nat, n: nat)
    requires i < |plan| == |now| && n == i + 1 && TellsAt(plan, i) && (forall k | 0 <= k < n :: now[k] == plan[k])
    ensures TellsAt(now, i)
  {
    assert now[i] == plan[i];
    if SkippedFor(plan, i) {
      var k :| 0 <= k < i && plan[k].stage.name == plan[i].reason.dep && plan[k].state == plan[i].reason.state
               && (plan[k].state == Skipped || plan[k].state == Failed || plan[k].state == Cancelled);
      assert now[k].stage.name == now[i].reason.dep;
    }
  }

  lemma TurnUnderway(env: Env, st: Progress, i: nat)
    requires Underway(st.plan, i) && i < |st.plan| && st.plan[i].state == Pending
    ensures Underway(RunPending(env, st, i).plan, i + 1)
  {
    TurnKeepsRest(env, st, i);
  }

  lemma ToldFrom(before: seq<Planned>, now: seq<Planned>, i: nat)
    requires i < |before| && SkipsTold(before, now, i + 1) && (before[i].state == Pending ==> TellsAt(now, i))
    ensures SkipsTold(before, now, i)
  {
  }

  lemma CancelTells(before: seq<Planned>, st: Progress, i: nat)
    requires Progressed(before, st.plan, i)
    ensures SkipsTold(before, CancelRemaining(st).plan, i)
  {
    assert forall j | i <= j < |before| && before[j].state == Pending :: CancelOne(st.plan[j]).state == Cancelled;
  }

  lemma {:induction false} SkipsTell(env: Env, before: seq<Planned>, st: Progress, i: nat)
    requires GoodPlan(before) && Going(before, st, i) && Underway(st.plan, i)
    ensures SkipsTold(before, RunFrom(env, st, i).progress.plan, i)
    decreases |before| - i
  {
    if i < |before| && before[i].state != Pending {
      SettledStageIsPassed(before, st, i);
      SkipsTell(env, before, st, i + 1);
      ToldFrom(before, RunFrom(env, st, i + 1).progress.plan, i);
    } else if CancelledAt(env.world, 2 * i) {
      CancelTells(before, st, i);
    } else if i < |before| {
      var next := RunPending(env, st, i);
      SkipsTellNext(env, before, st, i);
      TurnKeepsGoing(env, before, st, i);
      TurnUnderway(env, st, i);
      SkipsTell(env, before, next, i + 1);
      ToldFrom(before, RunFrom(env, next, i + 1).progress.plan, i);
    }
  }

  lemma SkipsTellNext(env: Env, before: seq<Planned>, st: Progress, i: nat)
    requires GoodPlan(before) && Going(before, st, i) && Underway(st.plan, i)
    requires i < |before| && before[i].state == Pending && !CancelledAt(env.world, 2 * i)
    ensures TellsAt(RunFrom(env, st, i).progress.plan, i)
  {
    var next := RunPending(env, st, i);
    TurnSkipsFor(env, before, st, i);
    TurnUnderway(env, st, i);
    RunStops(env, next, i + 1);
    ToldEarlier(next.plan, RunFrom(env, next, i + 1).progress.plan, i, i + 1);
    NextTurn(env, st, i);
  }

  lemma NextTurn(env: Env, st: Progress, i: nat)
    requires i < |st.plan| && st.plan[i].state == Pending && !CancelledAt(env.world, 2 * i)
    requires |RunPending(env, st, i).plan| == |st.plan|
    ensures RunFrom(env, st, i) == RunFrom(env, RunPending(env, st, i), i + 1)
  {
  }

  /** A stage the run skipped names a required dependency, and how that ended. */
  lemma SkippedTells(env: Env, plan: seq<Planned>, d: Disk, j: nat)
    requires GoodPlan(plan) && forall k | 0 <= k < |plan| :: plan[k].reason != RunCancelled
    requires j < |plan| && plan[j].state == Pending
    ensures var now := RunPlan(env, plan, d).progress.plan;
            |now| == |plan| && (now[j].state == Skipped ==> SkippedFor(now, j))
  {
    StartIsGoing(plan, d);
    forall k | 0 <= k < |plan| ensures plan[k].state != Running { assert GoodEntry(plan[k]); }
    SkipsTell(env, plan, Begun(plan, d), 0);
  }

  // ---------------------------------------------------------------------
  // The job
  // ---------------------------------------------------------------------

  /** The run's plan is finished: every stage is cached or completed. */
  ghost predicate Finished(plan: seq<Planned>) {
    forall j | 0 <= j < |plan| :: plan[j].state == Cached || plan[j].state == Completed
  }

  /** A job that says completed is one whose plan is finished, uncancelled. */
  lemma CompletedTells(env: Env, plan: seq<Planned>, d: Disk, cancelled: bool, outcome: Jobs.Status)
    requires GoodPlan(plan) && (env.world.cancelAt <= 2 * |plan| ==> cancelled)
    requires Jobs.TellsHow(outcome, RunPlan(env, plan, d), cancelled)
    ensures var e := RunPlan(env, plan, d);
            outcome == if cancelled then Jobs.Cancelled else if Finished(e.progress.plan) then Jobs.Completed else Jobs.Failed
  {
    SettlesExactlyOnce(env, plan, d);
    var e := RunPlan(env, plan, d);
    if !cancelled {
      CompletedMeansDone(env, plan, d, 2 * |plan|);
      NoProblemMeans(e.progress.plan);
    }
  }

  /** From the end of a run to its job's row. Of a plan from Build, run with its
      job marked running and its outcome written, the row says cancelled iff the
      context was, completed iff it was not and every planned stage is cached or
      completed, and failed otherwise. */
  method ConcludeRun(app: Jobs.App, project: string, end: Ended, ghost env: Env, ghost fps: Fingerprints, ghost d0: Disk,
                     ghost plan: seq<Planned>, ghost d: Disk)
    requires app.Valid() && project in app.runs && app.runs[project].Executing?
    requires ValidRegistry(env.opts.registry) && BuildPlan(env.key, d0, env.opts, fps) == Ok(plan)
    requires end == RunPlan(env, plan, d)
    requires env.world.cancelAt <= 2 * |plan| ==> app.scheduler.running[project].cancelled
    requires !Jobs.WriteFailed(app, project)
    modifies app, app.jobs
    ensures app.Valid() && app.runs == old(app.runs)[project := Jobs.Concluded]
    ensures var id := app.scheduler.running[project].jobID;
            && id in app.jobs.rows && app.jobs.rows[id].project == project
            && app.jobs.rows[id].status ==
                 if app.scheduler.running[project].cancelled then Jobs.Cancelled
                 else if Finished(end.progress.plan) then Jobs.Completed else Jobs.Failed
  {
    BuildMakesGoodPlans(env.key, d0, env.opts, fps);
    SettlesExactlyOnce(env, plan, d);
    Jobs.Finish(app, project, end);
    var held := app.scheduler.running[project];
    CompletedTells(env, plan, d, held.cancelled, app.jobs.rows[held.jobID].status);
  }
}
