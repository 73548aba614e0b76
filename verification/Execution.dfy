/** Executing a plan: internal/pipeline/executor.go, as a function of the world.

  The world decides how each stage's run ends, what its fingerprint is when it
  runs, and when the run is cancelled; the executor decides everything else.
  A run yields the plan as it ended, what the observer was told, and the store
  operations it performed, so that the store lemmas apply to it.
  */
module Execution {
  import opened ArtifactHash
  import opened KeyTrees
  import opened ArtifactStore
  import opened Optional
  import opened StoreSafety
  import opened Planning

  datatype Event = Entered(stage: string) | Settled(stage: string, state: State)

  /** How a stage's run ends. `fault` is the number of Commit's steps that
      succeed before an error of the disk or the database, `gcFault` that of
      the pruning that follows; `abort` is what goes wrong when the attempt is
      given up. */
  datatype Outcome =
    | CannotBegin
    | Fails(written: Files, cancelled: bool, abort: AbortFault)
    | ReturnsNothing(written: Files, abort: AbortFault)
    | Succeeds(written: Files, primary: string, writesPrimary: bool, fault: nat, gcFault: nat, abort: AbortFault)

  /** `cancelAt` counts the looks at the context that still find it live: look
      2i comes before stage i, look 2i+1 after its run, and later ones follow. */
  datatype World = World(outcomes: map<string, Outcome>, fps: Fingerprints, cancelAt: nat)

  datatype Env = Env(key: Keyer, sem: Semantics, opts: Options, world: World)

  predicate CancelledAt(w: World, look: nat) { look >= w.cancelAt }

  function OutcomeOf(w: World, name: string): Outcome {
    if name in w.outcomes then w.outcomes[name] else CannotBegin
  }

  /** A fingerprint that fails at execution time yields an empty map. */
  function RunFingerprint(w: World, name: string): map<string, string> {
    if name in w.fps then w.fps[name] else map[]
  }

  // ---------------------------------------------------------------------
  // Inputs
  // ---------------------------------------------------------------------

  function InputOf(dep: string, planned: ByStage, external: map<string, Artifact>): Option<Artifact> {
    if dep in planned && planned[dep].artifact.Some? then planned[dep].artifact
    else if dep in external then Some(external[dep])
    else None
  }

  function FirstWithoutInput(deps: seq<string>, planned: ByStage, external: map<string, Artifact>): Option<string> {
    if deps == [] then None
    else if InputOf(deps[0], planned, external).None? then Some(deps[0])
    else FirstWithoutInput(deps[1..], planned, external)
  }

  function Inputs(s: Stage, planned: ByStage, external: map<string, Artifact>): map<string, Artifact> {
    map dep | dep in Dependencies(s) && InputOf(dep, planned, external).Some? :: InputOf(dep, planned, external).value
  }

  function KeysOf(inputs: map<string, Artifact>): map<string, string> {
    map dep | dep in inputs :: inputs[dep].key
  }

  predicate Readable(d: Disk, inputs: map<string, Artifact>) {
    forall dep | dep in inputs :: Open(d, inputs[dep]).Some?
  }

  function ReadAll(d: Disk, inputs: map<string, Artifact>): map<string, Content>
    requires Readable(d, inputs)
  {
    map dep | dep in inputs :: Open(d, inputs[dep]).value
  }

  // ---------------------------------------------------------------------
  // One stage
  // ---------------------------------------------------------------------

  function RecipeOf(s: Stage, opts: Options, fingerprint: map<string, string>): Recipe
    requires Subtree(s, opts).Canonical?
  {
    Recipe(s.name, s.version, opts.revision, Subtree(s, opts).text, fingerprint)
  }

  ghost function RunKey(env: Env, s: Stage, inputs: map<string, Artifact>): string {
    env.key(KeyInputsOf(s, env.opts, RunFingerprint(env.world, s.name), KeysOf(inputs)))
  }

  /** What a stage computes: a function of its recipe, what it reads, and the source. */
  function Product(sem: Semantics, opts: Options, w: World, d: Disk, s: Stage, inputs: map<string, Artifact>): Content
    requires Subtree(s, opts).Canonical? && Readable(d, inputs)
  {
    sem(RecipeOf(s, opts, RunFingerprint(w, s.name)), ReadAll(d, inputs), opts.source)
  }

  /** A stage that did not write its primary has its other files refused with it. */
  function FilesOf(o: Outcome, product: Content): Files
    requires o.Succeeds?
  {
    if o.writesPrimary then o.written + [(o.primary, product)] else []
  }

  /** A stage reads every input it is handed, and fails when one cannot be read.
      It also fails when what it fingerprints cannot be read. */
  function Effective(w: World, s: Stage, d: Disk, inputs: map<string, Artifact>): Outcome {
    var o := OutcomeOf(w, s.name);
    if o.Succeeds? && (s.name !in w.fps || !Readable(d, inputs)) then Fails(o.written, false, o.abort) else o
  }

  /** What happened to a stage: how it settled, and what was done to the store. */
  datatype StageRun = StageRun(state: State, artifact: Option<Artifact>, err: Option<StageError>, ops: seq<Run>)

  function FailureState(cancelled: bool, w: World, look: nat): State {
    if cancelled || CancelledAt(w, look) then Cancelled else Failed
  }

  ghost function RunStage(env: Env, d: Disk, i: nat, s: Stage, inputs: map<string, Artifact>): StageRun {
    var o := Effective(env.world, s, d, inputs);
    if Subtree(s, env.opts).Unencodable? || o.CannotBegin? then StageRun(Failed, None, Some(BeginFailed), []) else
    var k := RunKey(env, s, inputs);
    match o
    case Fails(written, cancelled, abort) =>
      StageRun(FailureState(cancelled, env.world, 2 * i + 1), None, Some(StageFailed(cancelled)),
               [Whole(Attempt(s.name, k, written, "", Aborts(abort)))])
    case ReturnsNothing(written, abort) =>
      StageRun(Failed, None, Some(NoResult), [Whole(Attempt(s.name, k, written, "", Aborts(abort)))])
    case Succeeds(written, primary, writesPrimary, fault, gcFault, abort) =>
      var files := FilesOf(o, Product(env.sem, env.opts, env.world, d, s, inputs));
      RunCommit(d, s.name, k, files, primary, fault, env.opts.retention, gcFault)
  }

  /** Publishing what a stage produced, and pruning what that superseded. A
      pruning that fails part-way changes nothing about how the stage ends. */
  ghost function RunCommit(d: Disk, stage: string, k: string, files: Files, primary: string, fault: nat,
                           retention: int, gcFault: nat): StageRun {
    var attempt := Attempt(stage, k, files, primary, Commits);
    if !Publishable(Contents(files), primary) || fault < 4 || IdTaken(d, k, IDForKey(k))
    then StageRun(Failed, None, Some(CommitFailed), [Stopped(attempt, 1 + |files| + fault)])
    else if retention < 0
    then StageRun(Completed, Some(Artifact(IDForKey(k), stage, k)), None, [Whole(attempt)])
    else StageRun(Completed, Some(Artifact(IDForKey(k), stage, k)), None,
                  [Whole(attempt), Stopped(Collect(stage, retention), gcFault)])
  }

  // ---------------------------------------------------------------------
  // The run
  // ---------------------------------------------------------------------

  /** Where a run has got to. `ops` is what it did to the store so far. */
  datatype Progress = Progress(plan: seq<Planned>, disk: Disk, events: seq<Event>, ops: seq<Run>)

  function Settle(st: Progress, i: nat, p: Planned): Progress
    requires i < |st.plan|
  {
    st.(plan := st.plan[i := p], events := st.events + [Settled(p.stage.name, p.state)])
  }

  ghost function RunPending(env: Env, st: Progress, i: nat): Progress
    requires i < |st.plan|
  {
    var p := st.plan[i];
    var planned := ByName(st.plan);
    var ended := BlockedBy(p.stage, planned);
    if ended.Some? then Settle(st, i, p.(state := Skipped, reason := ended.value, blocked := true)) else
    var missing := FirstWithoutInput(p.stage.depends, planned, p.external);
    if missing.Some? then Settle(st, i, p.(state := Skipped, reason := NoInput(missing.value), blocked := true)) else
    RunReady(env, st, i, Inputs(p.stage, planned, p.external))
  }

  /** Runs stage `i`, which nothing stands in the way of. */
  ghost function RunReady(env: Env, st: Progress, i: nat, inputs: map<string, Artifact>): Progress
    requires i < |st.plan|
  {
    var p := st.plan[i];
    var run := RunStage(env, st.disk, i, p.stage, inputs);
    var entered := st.(events := st.events + [Entered(p.stage.name)],
                       disk := After(st.disk, run.ops), ops := st.ops + run.ops);
    Settle(entered, i, p.(state := run.state, artifact := run.artifact, err := run.err))
  }

  /** What running stage `i`, if nothing stands in its way, does. */
  ghost function TurnRun(env: Env, st: Progress, i: nat): StageRun
    requires i < |st.plan|
  {
    var p := st.plan[i];
    RunStage(env, st.disk, i, p.stage, Inputs(p.stage, ByName(st.plan), p.external))
  }

  ghost predicate TurnRan(env: Env, st: Progress, i: nat)
    requires i < |st.plan|
  {
    var after, run := RunPending(env, st, i), TurnRun(env, st, i);
    && after.disk == After(st.disk, run.ops) && after.ops == st.ops + run.ops
    && after.plan == st.plan[i := st.plan[i].(state := run.state, artifact := run.artifact, err := run.err)]
  }

  /** A turn either runs the stage or leaves the store as it was. */
  lemma TurnShape(env: Env, st: Progress, i: nat)
    requires i < |st.plan|
    ensures TurnRan(env, st, i)
        || (exists reason :: RunPending(env, st, i)
                == Settle(st, i, st.plan[i].(state := Skipped, reason := reason, blocked := true)))
  {
  }

  function CancelOne(p: Planned): Planned {
    if p.state.Terminal() then p else p.(state := Cancelled, reason := RunCancelled)
  }

  /** Announces, stage by stage, the state `says` gives it, if any. */
  function Announce(plan: seq<Planned>, says: Planned -> Option<State>): seq<Event> {
    if plan == [] then []
    else Announce(plan[..|plan| - 1], says) + Announcement(plan[|plan| - 1], says)
  }

  function Announcement(p: Planned, says: Planned -> Option<State>): seq<Event> {
    match says(p)
    case None => []
    case Some(state) => [Settled(p.stage.name, state)]
  }

  lemma AnnounceNext(plan: seq<Planned>, says: Planned -> Option<State>, i: nat)
    requires i < |plan|
    ensures Announce(plan[..i + 1], says) == Announce(plan[..i], says) + Announcement(plan[i], says)
  {
    assert plan[..i + 1][..i] == plan[..i];
  }

  function EndState(p: Planned): Option<State> {
    if p.state.Terminal() then Some(p.state) else None
  }

  function CancelState(p: Planned): Option<State> {
    if p.state.Terminal() then None else Some(Cancelled)
  }

  /** Every stage that has not ended is settled as cancelled. */
  function CancelRemaining(st: Progress): Progress {
    st.(plan := seq(|st.plan|, i requires 0 <= i < |st.plan| => CancelOne(st.plan[i])),
        events := st.events + Announce(st.plan, CancelState))
  }

  datatype Ended = Ended(progress: Progress, cancelled: bool)

  /** The rest of the run, from stage `i` on. */
  ghost function RunFrom(env: Env, st: Progress, i: nat): Ended
    requires i <= |st.plan|
    decreases |st.plan| - i
  {
    if i == |st.plan| then
      if CancelledAt(env.world, 2 * i) then Ended(CancelRemaining(st), true) else Ended(st, false)
    else if st.plan[i].state != Pending then RunFrom(env, st, i + 1)
    else if CancelledAt(env.world, 2 * i) then Ended(CancelRemaining(st), true)
    else RunFrom(env, RunPending(env, st, i), i + 1)
  }

  /** A run begins by announcing what planning has already decided. */
  function Begun(plan: seq<Planned>, d: Disk): Progress {
    Progress(plan, d, Announce(plan, EndState), [])
  }

  ghost function RunPlan(env: Env, plan: seq<Planned>, d: Disk): Ended {
    RunFrom(env, Begun(plan, d), 0)
  }
}
