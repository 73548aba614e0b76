/** The executor's code: `Run`, `runStage`, `settle` and `cancelRemaining` of
  internal/pipeline/executor.go, proved to do what Execution specifies. */
module Executor {
  import opened ArtifactHash
  import opened KeyTrees
  import opened ArtifactStore
  import opened Optional
  import opened StoreSafety
  import opened Planning
  import opened Planner
  import opened Execution

  /** Receives stage lifecycle notifications. */
  class Observer {
    var events: seq<Event>

    constructor ()
      ensures events == []
    {
      events := [];
    }

    method StageEntered(sp: StagePlan)
      modifies this
      ensures events == old(events) + [Entered(sp.stage.name)]
    {
      events := events + [Entered(sp.stage.name)];
    }

    method StageSettled(sp: StagePlan)
      modifies this
      ensures events == old(events) + [Settled(sp.stage.name, sp.state)]
    {
      events := events + [Settled(sp.stage.name, sp.state)];
    }
  }

  /** Gives a stage its final state and announces it. */
  method Settle(sp: StagePlan, state: State, artifact: Option<Artifact>, err: Option<StageError>, obs: Observer)
    modifies sp, obs
    ensures sp.Value() == old(sp.Value()).(state := state, artifact := artifact, err := err)
    ensures obs.events == old(obs.events) + [Settled(sp.stage.name, state)]
  {
    sp.state, sp.artifact, sp.err := state, artifact, err;
    obs.StageSettled(sp);
  }

  /** The stage writing its files into the writer's directory. */
  method WriteFiles(writer: Writer, files: Files)
    requires writer.temp in writer.store.temps && writer.store.temps[writer.temp] == Dir(None, map[])
    modifies writer.store
    ensures writer.store.Performed(Writes(writer.temp, files))
    ensures writer.Written() == Contents(files)
  {
    assert Exec(writer.store.State(), []) == writer.store.State();
    ghost var d0 := writer.store.State();
    for i := 0 to |files|
      invariant writer.store.Performed(Writes(writer.temp, files[..i]))
    {
      ghost var done := Writes(writer.temp, files[..i]);
      writer.Write(files[i].0, files[i].1);
      ExecAppend(d0, done, [WriteFile(writer.temp, files[i].0, files[i].1)]);
      assert Writes(writer.temp, files[..i + 1]) == done + [WriteFile(writer.temp, files[i].0, files[i].1)];
    }
    assert files[..|files|] == files;
    WritesFillTemp(d0, writer.temp, files);
  }

  /** Begin, then the stage's writes. */
  method BeginAndWrite(store: Store, inputs: KeyInputs, files: Files) returns (writer: Writer)
    requires inputs.config.Canonical?
    modifies store
    ensures fresh(writer) && writer.store == store && !writer.done
    ensures writer.stage == inputs.stage && writer.key == Key(store.h, inputs) && writer.temp == old(store.nextTemp)
    ensures store.Performed(BeginSteps(old(store.State()), files))
    ensures writer.Written() == Contents(files)
  {
    ghost var d0 := store.State();
    writer := store.Begin(inputs, false);
    ExecOne(d0, MakeTemp);
    WriteFiles(writer, files);
    BeginThenWrite(d0, files);
  }

  lemma BeginThenWrite(d: Disk, files: Files)
    ensures Exec(d, BeginSteps(d, files)) == Exec(Exec(d, [MakeTemp]), Writes(d.nextTemp, files))
  {
    ExecAppend(d, [MakeTemp], Writes(d.nextTemp, files));
  }

  lemma OneOp(d: Disk, r: Run)
    ensures After(d, [r]) == AfterOne(d, r)
  {
    assert [r][..0] == [];
    assert After(d, []) == d;
  }

  lemma TwoOps(d: Disk, r: Run, s: Run)
    ensures After(d, [r, s]) == AfterOne(AfterOne(d, r), s)
  {
    assert [r, s][..1] == [r];
    OneOp(d, r);
  }

  /** A stage that produced no result: its attempt is discarded and recorded. */
  method RunAndAbort(store: Store, inputs: KeyInputs, written: Files, fault: AbortFault)
    requires inputs.config.Canonical?
    modifies store
    ensures store.State() == After(old(store.State()),
              [Whole(Attempt(inputs.stage, Key(store.h, inputs), written, "", Aborts(fault)))])
  {
    ghost var d0 := store.State();
    var writer := BeginAndWrite(store, inputs, written);
    writer.Abort(fault);
    ghost var op := Attempt(inputs.stage, Key(store.h, inputs), written, "", Aborts(fault));
    ExecAppend(d0, BeginSteps(d0, written), FinishSteps(op, d0.nextTemp));
    OneOp(d0, Whole(op));
  }

  /** What gets done before an error. */
  function UpTo(steps: seq<Step>, n: nat): seq<Step> {
    steps[..Min(n, |steps|)]
  }

  predicate CommitRefuses(d: Disk, key: string, files: Files, primary: string, fault: nat) {
    !Publishable(Contents(files), primary) || fault < 4 || IdTaken(d, key, IDForKey(key))
  }

  /** A stage that produced a result: it is published, unless Commit refuses it. */
  method RunAndCommit(store: Store, inputs: KeyInputs, files: Files, primary: string, fault: nat)
    returns (published: Option<Artifact>)
    requires inputs.config.Canonical?
    modifies store
    ensures published == Publication(old(store.State()), Attempt(inputs.stage, Key(store.h, inputs), files, primary, Commits), fault)
    ensures var d, k := old(store.State()), Key(store.h, inputs);
            store.State() == Exec(d, UpTo(OpSteps(d, Attempt(inputs.stage, k, files, primary, Commits)), 1 + |files| + fault))
  {
    ghost var d := store.State();
    ghost var op := Attempt(inputs.stage, Key(store.h, inputs), files, primary, Commits);
    var writer := BeginAndWrite(store, inputs, files);
    ghost var begun := store.State();
    assert begun == Exec(d, BeginSteps(d, op.files));
    published := CommitWritten(writer, primary, fault, d, op);
    assert store.State() == Exec(begun, UpTo(FinishSteps(op, d.nextTemp), fault));
    AttemptStops(d, op, fault);
  }

  /** What an attempt publishes, unless Commit refuses it. */
  function Publication(d: Disk, op: Op, fault: nat): Option<Artifact>
    requires op.Attempt?
  {
    if CommitRefuses(d, op.key, op.files, op.primary, fault) then None else Some(Artifact(IDForKey(op.key), op.stage, op.key))
  }

  /** Commits an attempt that was begun in `d` and has written its files. */
  method CommitWritten(writer: Writer, primary: string, fault: nat, ghost d: Disk, ghost op: Op)
    returns (published: Option<Artifact>)
    requires op.Attempt? && op == Attempt(writer.stage, writer.key, op.files, primary, Commits)
    requires !writer.done && writer.Written() == Contents(op.files) && writer.temp == d.nextTemp
    requires writer.store.State() == Exec(d, BeginSteps(d, op.files))
    modifies writer, writer.store
    ensures published == Publication(d, op, fault)
    ensures writer.store.State() == Exec(old(writer.store.State()), UpTo(FinishSteps(op, d.nextTemp), fault))
  {
    AfterBegin(d, op.files);
    var committed := writer.Commit(primary, fault);
    published := if committed.Published? then Some(committed.artifact) else None;
  }

  lemma AttemptStops(d: Disk, op: Op, fault: nat)
    requires op.Attempt? && op.finish.Commits?
    ensures Exec(Exec(d, BeginSteps(d, op.files)), UpTo(FinishSteps(op, d.nextTemp), fault))
         == Exec(d, UpTo(OpSteps(d, op), 1 + |op.files| + fault))
  {
    StoppedSteps(d, BeginSteps(d, op.files), FinishSteps(op, d.nextTemp), fault, 1 + |op.files| + fault);
  }

  lemma StoppedSteps(d: Disk, begin: seq<Step>, finish: seq<Step>, fault: nat, n: nat)
    requires n == |begin| + fault
    ensures Exec(Exec(d, begin), UpTo(finish, fault)) == Exec(d, UpTo(begin + finish, n))
  {
    ExecAppend(d, begin, UpTo(finish, fault));
    assert UpTo(begin + finish, n) == begin + UpTo(finish, fault);
  }

  /** As an operation of the history: stopped, or whole when nothing failed. */
  lemma AsRun(d: Disk, op: Op, fault: nat)
    requires op.Attempt? && op.finish.Commits?
    ensures Exec(d, UpTo(OpSteps(d, op), 1 + |op.files| + fault)) == After(d, [Stopped(op, 1 + |op.files| + fault)])
    ensures fault >= 4 ==> Exec(d, UpTo(OpSteps(d, op), 1 + |op.files| + fault)) == After(d, [Whole(op)])
  {
    OneOp(d, Stopped(op, 1 + |op.files| + fault));
    OneOp(d, Whole(op));
    if fault >= 4 { NoFault(d, op, fault); }
  }

  lemma NoFault(d: Disk, op: Op, fault: nat)
    requires op.Attempt? && op.finish.Commits? && fault >= 4
    ensures UpTo(OpSteps(d, op), 1 + |op.files| + fault) == OpSteps(d, op)
  {
    assert |FinishSteps(op, d.nextTemp)| <= 4;
  }

  /** Publishes a result and prunes what it superseded. */
  method CommitAndCollect(store: Store, inputs: KeyInputs, files: Files, primary: string, fault: nat, retention: int,
                          gcFault: nat)
    returns (published: Option<Artifact>)
    requires inputs.config.Canonical? && UniqueIds(store.State())
    modifies store
    ensures var r := RunCommit(old(store.State()), inputs.stage, Key(store.h, inputs), files, primary, fault, retention, gcFault);
            published == r.artifact && store.State() == After(old(store.State()), r.ops)
  {
    ghost var d0 := store.State();
    ghost var attempt := Attempt(inputs.stage, Key(store.h, inputs), files, primary, Commits);
    AsRun(d0, attempt, fault);
    published := RunAndCommit(store, inputs, files, primary, fault);
    if published.Some? && retention >= 0 {
      OneOp(d0, Whole(attempt));
      StepsKeepIds(d0, OpSteps(d0, attempt));
      TwoOps(d0, Whole(attempt), Stopped(Collect(inputs.stage, retention), gcFault));
      var _ := store.GC(inputs.stage, retention, gcFault);
    }
  }

  /** Runs a stage against the store: how it ended, what it published, what went wrong. */
  method Attempted(s: Stage, opts: Options, inputs: map<string, Artifact>, sem: Semantics, w: World, i: nat, store: Store)
    returns (state: State, artifact: Option<Artifact>, err: Option<StageError>)
    requires UniqueIds(store.State())
    modifies store
    ensures var r := Execution.RunStage(Env(HashedKey(store.h), sem, opts, w), old(store.State()), i, s, inputs);
            && state == r.state && artifact == r.artifact && err == r.err
            && store.State() == After(old(store.State()), r.ops)
  {
    var outcome := Effective(w, s, store.State(), inputs);
    var keyed := KeyInputsOf(s, opts, RunFingerprint(w, s.name), KeysOf(inputs));
    if outcome.CannotBegin? || keyed.config.Unencodable? {
      var _ := store.Begin(keyed, outcome.CannotBegin?);
      return Failed, None, Some(BeginFailed);
    }
    match outcome {
      case Fails(written, cancelled, abort) =>
        RunAndAbort(store, keyed, written, abort);
        return FailureState(cancelled, w, 2 * i + 1), None, Some(StageFailed(cancelled));
      case ReturnsNothing(written, abort) =>
        RunAndAbort(store, keyed, written, abort);
        return Failed, None, Some(NoResult);
      case Succeeds(written, primary, writesPrimary, fault, gcFault, abort) =>
        var files := FilesOf(outcome, Product(sem, opts, w, store.State(), s, inputs));
        artifact := CommitAndCollect(store, keyed, files, primary, fault, opts.retention, gcFault);
        if artifact.None? { return Failed, None, Some(CommitFailed); }
        return Completed, artifact, None;
    }
  }

  /** A pending stage's turn, from its announcement to its final state. */
  method RunStage(sp: StagePlan, opts: Options, inputs: map<string, Artifact>, sem: Semantics, w: World, i: nat,
                  store: Store, obs: Observer)
    requires UniqueIds(store.State())
    modifies sp, store, obs
    ensures var r := Execution.RunStage(Env(HashedKey(store.h), sem, opts, w), old(store.State()), i, sp.stage, inputs);
            && sp.Value() == old(sp.Value()).(state := r.state, artifact := r.artifact, err := r.err)
            && store.State() == After(old(store.State()), r.ops)
            && obs.events == old(obs.events) + [Entered(sp.stage.name)] + [Settled(sp.stage.name, r.state)]
  {
    sp.state := Running;
    obs.StageEntered(sp);
    sp.artifact := None;
    var state, artifact, err := Attempted(sp.stage, opts, inputs, sem, w, i, store);
    Settle(sp, state, artifact, err, obs);
  }

  // ---------------------------------------------------------------------
  // Run
  // ---------------------------------------------------------------------

  method Skip(sp: StagePlan, reason: Reason, obs: Observer)
    modifies sp, obs
    ensures sp.Value() == old(sp.Value()).(state := Skipped, reason := reason, blocked := true)
    ensures obs.events == old(obs.events) + [Settled(sp.stage.name, Skipped)]
  {
    sp.state, sp.reason, sp.blocked := Skipped, reason, true;
    obs.StageSettled(sp);
  }

  /** One turn of the run loop, for a pending stage and a live context. */
  method RunNext(plan: seq<StagePlan>, i: nat, byName: map<string, StagePlan>, opts: Options, sem: Semantics, w: World,
                 store: Store, obs: Observer, ghost st: Progress)
    requires i < |plan| && Indexes(byName, plan) && UniqueIds(store.State())
    requires st.plan == Values(plan) && st.disk == store.State()
    modifies plan[i], store, obs
    ensures var after := RunPending(Env(HashedKey(store.h), sem, opts, w), st, i);
            && plan[i].Value() == after.plan[i] && store.State() == after.disk
            && st.events <= after.events && obs.events == old(obs.events) + after.events[|st.events|..]
  {
    ViewIsByName(byName, plan);
    var sp := plan[i];
    assert Values(plan)[i] == sp.Value();
    var planned := View(byName);
    var ended := BlockedBy(sp.stage, planned);
    if ended.Some? {
      Skip(sp, ended.value, obs);
      return;
    }
    var missing := FirstWithoutInput(sp.stage.depends, planned, sp.external);
    if missing.Some? {
      Skip(sp, NoInput(missing.value), obs);
      return;
    }
    RunReadyStage(sp, i, Inputs(sp.stage, planned, sp.external), opts, sem, w, store, obs, st);
  }

  method RunReadyStage(sp: StagePlan, i: nat, inputs: map<string, Artifact>, opts: Options, sem: Semantics, w: World,
                       store: Store, obs: Observer, ghost st: Progress)
    requires i < |st.plan| && st.plan[i] == sp.Value() && st.disk == store.State() && UniqueIds(store.State())
    modifies sp, store, obs
    ensures var after := RunReady(Env(HashedKey(store.h), sem, opts, w), st, i, inputs);
            && sp.Value() == after.plan[i] && store.State() == after.disk
            && st.events <= after.events && obs.events == old(obs.events) + after.events[|st.events|..]
  {
    RunStage(sp, opts, inputs, sem, w, i, store, obs);
  }

  /** A run step changes one stage and leaves ids unique. */
  lemma RunPendingFrame(env: Env, st: Progress, i: nat)
    requires i < |st.plan| && UniqueIds(st.disk)
    ensures var after := RunPending(env, st, i);
            && after.plan == st.plan[i := after.plan[i]]
            && after.plan[i].stage == st.plan[i].stage
            && st.events <= after.events
            && UniqueIds(after.disk)
  {
    var p := st.plan[i];
    var planned := ByName(st.plan);
    var run := Execution.RunStage(env, st.disk, i, p.stage, Inputs(p.stage, planned, p.external));
    HistoriesKeepIds(st.disk, run.ops);
  }

  lemma {:induction false} HistoriesKeepIds(d: Disk, history: seq<Run>)
    requires UniqueIds(d)
    ensures UniqueIds(After(d, history))
    decreases |history|
  {
    if history != [] {
      var n := |history| - 1;
      HistoriesKeepIds(d, history[..n]);
      var d1 := After(d, history[..n]);
      StepsKeepIds(d1, RunSteps(d1, history[n]));
    }
  }

  method ReportPlanned(plan: seq<StagePlan>, obs: Observer)
    modifies obs
    ensures obs.events == old(obs.events) + Announce(Values(plan), EndState)
  {
    for i := 0 to |plan|
      invariant obs.events == old(obs.events) + Announce(Values(plan[..i]), EndState)
    {
      assert Values(plan[..i + 1])[..i] == Values(plan[..i]);
      if plan[i].state.Terminal() { obs.StageSettled(plan[i]); }
    }
    assert plan[..|plan|] == plan;
  }

  method CancelStage(sp: StagePlan, obs: Observer)
    modifies sp, obs
    ensures sp.Value() == CancelOne(old(sp.Value()))
    ensures obs.events == old(obs.events) + Announcement(old(sp.Value()), CancelState)
  {
    if !sp.state.Terminal() {
      sp.state, sp.reason := Cancelled, RunCancelled;
      obs.StageSettled(sp);
    }
  }

  function CancelFirst(plan: seq<Planned>, i: nat): seq<Planned> {
    seq(|plan|, j requires 0 <= j < |plan| => if j < i then CancelOne(plan[j]) else plan[j])
  }

  lemma CancelNext(plan: seq<Planned>, i: nat)
    requires i < |plan|
    ensures CancelFirst(plan, i)[i] == plan[i]
    ensures CancelFirst(plan, i)[i := CancelOne(plan[i])] == CancelFirst(plan, i + 1)
  {
  }

  method CancelRest(plan: seq<StagePlan>, obs: Observer)
    requires NoAliases(plan)
    modifies plan, obs
    ensures Values(plan) == CancelFirst(old(Values(plan)), |plan|)
    ensures obs.events == old(obs.events) + Announce(old(Values(plan)), CancelState)
  {
    ghost var was := Values(plan);
    assert CancelFirst(was, 0) == was;
    for i := 0 to |plan|
      invariant Values(plan) == CancelFirst(was, i)
      invariant obs.events == old(obs.events) + Announce(was[..i], CancelState)
    {
      AnnounceNext(was, CancelState, i);
      CancelNext(was, i);
      ghost var before := Values(plan);
      assert plan[i].Value() == before[i];
      CancelStage(plan[i], obs);
      OthersUnchanged(plan, before, i);
    }
    assert was[..|plan|] == was;
  }

  method RunTurn(plan: seq<StagePlan>, i: nat, byName: map<string, StagePlan>, opts: Options, sem: Semantics, w: World,
                 store: Store, obs: Observer, ghost st: Progress)
    requires i < |plan| && Indexes(byName, plan) && UniqueIds(store.State())
    requires st.plan == Values(plan) && st.disk == store.State()
    modifies plan, store, obs
    ensures var after := RunPending(Env(HashedKey(store.h), sem, opts, w), st, i);
            && Values(plan) == after.plan && store.State() == after.disk && UniqueIds(store.State())
            && st.events <= after.events && obs.events == old(obs.events) + after.events[|st.events|..]
  {
    RunPendingFrame(Env(HashedKey(store.h), sem, opts, w), st, i);
    RunNext(plan, i, byName, opts, sem, w, store, obs, st);
    OthersUnchanged(plan, st.plan, i);
  }

  method IndexStages(plan: seq<StagePlan>) returns (byName: map<string, StagePlan>)
    requires NoAliases(plan) && NamesDiffer(Values(plan))
    ensures Indexes(byName, plan)
  {
    ghost var vs := Values(plan);
    assert forall j | 0 <= j < |plan| :: vs[j].stage == plan[j].stage;
    byName := map[];
    for i := 0 to |plan|
      invariant Indexes(byName, plan[..i])
    {
      assert forall j | 0 <= j < i :: vs[j].stage.name != vs[i].stage.name;
      IndexesExtend(byName, plan[..i], plan[i]);
      assert plan[..i + 1] == plan[..i] + [plan[i]];
      byName := byName[plan[i].stage.name := plan[i]];
    }
    assert plan[..|plan|] == plan;
  }

  /** The next stage of the run loop: it is passed over if it has ended, stops
      the loop if the context is cancelled, and is run otherwise. */
  method RunStep(plan: seq<StagePlan>, i: nat, byName: map<string, StagePlan>, opts: Options, sem: Semantics, w: World,
                 store: Store, obs: Observer, ghost st: Progress)
    returns (stop: bool, ghost next: Progress)
    requires i < |plan| && Indexes(byName, plan) && UniqueIds(store.State())
    requires st.plan == Values(plan) && st.disk == store.State() && obs.events == st.events
    modifies plan, store, obs
    ensures next.plan == Values(plan) && next.disk == store.State() && UniqueIds(store.State()) && obs.events == next.events
    ensures RunFrom(Env(HashedKey(store.h), sem, opts, w), st, i)
         == if stop then Ended(CancelRemaining(next), true) else RunFrom(Env(HashedKey(store.h), sem, opts, w), next, i + 1)
  {
    assert Values(plan)[i] == plan[i].Value();
    if plan[i].state != Pending { return false, st; }
    if CancelledAt(w, 2 * i) { return true, st; }
    RunTurn(plan, i, byName, opts, sem, w, store, obs, st);
    stop, next := false, RunPending(Env(HashedKey(store.h), sem, opts, w), st, i);
  }

  /** The run loop. It stops at the first pending stage that finds the context
      cancelled. */
  method RunLoop(plan: seq<StagePlan>, byName: map<string, StagePlan>, opts: Options, sem: Semantics, w: World,
                 store: Store, obs: Observer, ghost start: Progress)
    returns (stopped: bool, ghost st: Progress)
    requires Indexes(byName, plan) && UniqueIds(store.State())
    requires start.plan == Values(plan) && start.disk == store.State() && obs.events == start.events
    modifies plan, store, obs
    ensures st.plan == Values(plan) && st.disk == store.State() && obs.events == st.events
    ensures RunFrom(Env(HashedKey(store.h), sem, opts, w), start, 0)
         == if stopped then Ended(CancelRemaining(st), true)
            else RunFrom(Env(HashedKey(store.h), sem, opts, w), st, |plan|)
  {
    st := start;
    ghost var env := Env(HashedKey(store.h), sem, opts, w);
    ghost var e := RunFrom(env, start, 0);
    for i := 0 to |plan|
      invariant st.plan == Values(plan) && st.disk == store.State() && UniqueIds(store.State())
      invariant obs.events == st.events
      invariant RunFrom(env, st, i) == e
    {
      stopped, st := RunStep(plan, i, byName, opts, sem, w, store, obs, st);
      if stopped { return; }
    }
    stopped := false;
  }

  lemma LoopEnded(env: Env, st: Progress)
    ensures RunFrom(env, st, |st.plan|)
         == if CancelledAt(env.world, 2 * |st.plan|) then Ended(CancelRemaining(st), true) else Ended(st, false)
  {
  }

  /** The run loop and the last look at the context. */
  method RunToEnd(plan: seq<StagePlan>, byName: map<string, StagePlan>, opts: Options, sem: Semantics, w: World,
                  store: Store, obs: Observer, ghost start: Progress)
    returns (cancelled: bool, ghost end: Ended)
    requires Indexes(byName, plan) && UniqueIds(store.State())
    requires start.plan == Values(plan) && start.disk == store.State() && obs.events == start.events
    modifies plan, store, obs
    ensures end == RunFrom(Env(HashedKey(store.h), sem, opts, w), start, 0)
    ensures Values(plan) == end.progress.plan && store.State() == end.progress.disk
    ensures obs.events == end.progress.events && cancelled == end.cancelled
  {
    ghost var st;
    cancelled, st := RunLoop(plan, byName, opts, sem, w, store, obs, start);
    LoopEnded(Env(HashedKey(store.h), sem, opts, w), st);
    cancelled := cancelled || CancelledAt(w, 2 * |plan|);
    end := if cancelled then Ended(CancelRemaining(st), true) else Ended(st, false);
    if cancelled {
      CancelRest(plan, obs);
      assert CancelFirst(st.plan, |plan|) == CancelRemaining(st).plan;
    }
  }

  /** Executes the plan and reports whether it was cancelled. */
  method Run(plan: seq<StagePlan>, opts: Options, sem: Semantics, w: World, store: Store, obs: Observer)
    returns (cancelled: bool, ghost end: Ended)
    requires NoAliases(plan) && NamesDiffer(Values(plan)) && UniqueIds(store.State()) && obs.events == []
    modifies plan, store, obs
    ensures end == RunPlan(Env(HashedKey(store.h), sem, opts, w), old(Values(plan)), old(store.State()))
    ensures Values(plan) == end.progress.plan && store.State() == end.progress.disk
    ensures obs.events == end.progress.events && cancelled == end.cancelled
  {
    var byName := IndexStages(plan);
    ghost var start := Begun(Values(plan), store.State());
    ReportPlanned(plan, obs);
    cancelled, end := RunToEnd(plan, byName, opts, sem, w, store, obs, start);
  }

  lemma OthersUnchanged(plan: seq<StagePlan>, before: seq<Planned>, i: nat)
    requires NoAliases(plan) && i < |plan| && |before| == |plan|
    requires forall j | 0 <= j < |plan| && j != i :: plan[j].Value() == before[j]
    ensures Values(plan) == before[i := plan[i].Value()]
  {
  }
}
