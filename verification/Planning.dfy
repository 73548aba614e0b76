/** Planning a run: internal/pipeline/plan.go.

  The planner walks the selected stages in registry order and decides for each
  one whether it is blocked, cached or pending. It derives every key before
  anything has run: a dependency contributes the key it was planned under.
  */
module Planning {
  import opened ArtifactHash
  import opened KeyTrees
  import opened ArtifactStore
  import opened Optional

  // ---------------------------------------------------------------------
  // Stages and options
  // ---------------------------------------------------------------------

  datatype Stage = Stage(name: string, version: string, depends: seq<string>, optionalDepends: seq<string>,
                         optional: bool)

  /** What NewRegistry accepts: distinct names, and dependencies that come
      earlier. An optional dependency need not be registered at all. */
  ghost predicate ValidRegistry(all: seq<Stage>) {
    && (forall i, j | 0 <= i < j < |all| :: all[i].name != all[j].name)
    && (forall i | 0 <= i < |all| :: all[i].name != "" && all[i].version != "")
    && (forall i, dep | 0 <= i < |all| && dep in all[i].depends :: RegisteredBefore(all, i, dep))
    && (forall i, dep | 0 <= i < |all| && dep in all[i].optionalDepends ::
          dep !in all[i].depends && (RegisteredBefore(all, i, dep) || !Registered(all, dep)))
  }

  predicate Registered(all: seq<Stage>, name: string) {
    exists s | s in all :: s.name == name
  }

  predicate RegisteredBefore(all: seq<Stage>, i: nat, name: string)
    requires i <= |all|
  {
    Registered(all[..i], name)
  }

  datatype Options = Options(
    registry: seq<Stage>,
    /** Each stage's configuration subtree; a stage not listed reads none. */
    config: map<string, Config>,
    revision: string,
    source: string,
    force: bool,
    only: seq<string>,
    fromStage: string,
    toStage: string,
    disabled: seq<string>,
    retention: int)

  /** What each stage's Fingerprint returns. A stage not listed fails. */
  type Fingerprints = map<string, map<string, string>>

  function Subtree(s: Stage, opts: Options): Config {
    if s.name in opts.config then opts.config[s.name] else Canonical("null")
  }

  function Dependencies(s: Stage): seq<string> {
    s.depends + s.optionalDepends
  }

  /** Only direct dependents of "probe" have the source in their key. */
  function SourceFor(s: Stage, opts: Options): string {
    if "probe" in s.depends then opts.source else ""
  }

  function KeyInputsOf(s: Stage, opts: Options, fingerprint: map<string, string>, upstream: map<string, string>): KeyInputs {
    KeyInputs(s.name, s.version, opts.revision, Subtree(s, opts), fingerprint, upstream, SourceFor(s, opts))
  }

  // ---------------------------------------------------------------------
  // Plans
  // ---------------------------------------------------------------------

  datatype State = Pending | Running | Cached | Completed | Failed | Skipped | Cancelled {
    predicate Terminal() { !Pending? && !Running? }
    predicate Succeeded() { Cached? || Completed? }
    /** Ended without an artifact its dependents could use. */
    predicate Unusable() { Skipped? || Failed? || Cancelled? }
  }

  datatype Reason = NoReason | DependencyEnded(dep: string, state: State) | NoInput(dep: string) | RunCancelled

  datatype StageError = StageFailed(cancelled: bool) | BeginFailed | NoResult | CommitFailed

  /** What a plan says about one of its stages, as a value. */
  datatype Planned = Planned(
    stage: Stage,
    ordinal: nat,
    key: string,
    state: State,
    artifact: Option<Artifact>,
    reason: Reason,
    blocked: bool,
    err: Option<StageError>,
    external: map<string, Artifact>)

  type ByStage = map<string, Planned>

  function FreshPlan(s: Stage, ordinal: nat): Planned {
    Planned(s, ordinal, "", Pending, None, NoReason, false, None, map[])
  }

  function ByName(plan: seq<Planned>): ByStage {
    if plan == [] then map[]
    else ByName(plan[..|plan| - 1])[plan[|plan| - 1].stage.name := plan[|plan| - 1]]
  }

  // ---------------------------------------------------------------------
  // Questions about the stages planned so far
  // ---------------------------------------------------------------------

  /** The first required dependency that ended without an artifact. */
  function FirstEnded(deps: seq<string>, planned: ByStage): Option<Reason> {
    if deps == [] then None
    else if deps[0] in planned && planned[deps[0]].state.Unusable()
    then Some(DependencyEnded(deps[0], planned[deps[0]].state))
    else FirstEnded(deps[1..], planned)
  }

  function BlockedBy(s: Stage, planned: ByStage): Option<Reason> {
    FirstEnded(s.depends, planned)
  }

  /** Optional dependencies are never consulted here. */
  function FirstMissing(deps: seq<string>, planned: ByStage, external: map<string, Artifact>): Option<string> {
    if deps == [] then None
    else if deps[0] !in planned && deps[0] !in external then Some(deps[0])
    else if deps[0] in planned && planned[deps[0]].state.Terminal() && planned[deps[0]].artifact.None? then Some(deps[0])
    else FirstMissing(deps[1..], planned, external)
  }

  function Unsatisfied(s: Stage, planned: ByStage, external: map<string, Artifact>): Option<string> {
    FirstMissing(s.depends, planned, external)
  }

  /** The key a dependency's artifact has or will have. */
  function UpstreamKey(dep: string, planned: ByStage, external: map<string, Artifact>): Option<string> {
    if dep in planned then
      if planned[dep].key != "" then Some(planned[dep].key)
      else if planned[dep].artifact.Some? then Some(planned[dep].artifact.value.key)
      else None
    else if dep in external then Some(external[dep].key)
    else None
  }

  function UpstreamKeys(s: Stage, planned: ByStage, external: map<string, Artifact>): map<string, string> {
    map dep | dep in Dependencies(s) && UpstreamKey(dep, planned, external).Some? ::
      UpstreamKey(dep, planned, external).value
  }

  /** Dependencies left out of this run, resolved to whatever they last produced. */
  ghost function ExternalInputs(d: Disk, s: Stage, planned: ByStage): map<string, Artifact> {
    ExternalOf(d, Dependencies(s), planned)
  }

  ghost function ExternalOf(d: Disk, deps: seq<string>, planned: ByStage): map<string, Artifact> {
    map dep | dep in deps && dep !in planned && LatestIn(d, dep).Some? :: LatestIn(d, dep).value
  }

  // ---------------------------------------------------------------------
  // The specification of Build
  // ---------------------------------------------------------------------

  datatype PlanError =
    | NoSuchStage(name: string)
    | NotOptional(name: string)
    | BackwardsRange
    | EmptyRange
    | FingerprintError(stage: string)
    | ConfigError(stage: string)

  datatype Result<+T> = Ok(value: T) | Error(error: PlanError)

  datatype Selected = Selected(stage: Stage, ordinal: nat)

  ghost function PlanStage(key: Keyer, d: Disk, opts: Options, fps: Fingerprints, before: ByStage,
                           sel: Selected): Result<Planned> {
    var s := sel.stage;
    var fresh_ := FreshPlan(s, sel.ordinal);
    var planned := before[s.name := fresh_];
    var ended := BlockedBy(s, planned);
    if ended.Some? then Ok(fresh_.(state := Skipped, reason := ended.value, blocked := true)) else
    var external := ExternalInputs(d, s, planned);
    var resolved := fresh_.(external := external);
    var missing := Unsatisfied(s, planned, external);
    if missing.Some? then Ok(resolved.(state := Skipped, reason := NoInput(missing.value), blocked := true)) else
    KeyStage(key, d, opts, fps, UpstreamKeys(s, planned, external), resolved)
  }

  /** An unblocked stage gets its key, and the artifact filed under it. */
  ghost function KeyStage(key: Keyer, d: Disk, opts: Options, fps: Fingerprints, upstream: map<string, string>,
                          resolved: Planned): Result<Planned> {
    var s := resolved.stage;
    if s.name !in fps then Error(FingerprintError(s.name)) else
    if Subtree(s, opts).Unencodable? then Error(ConfigError(s.name)) else
    var k := key(KeyInputsOf(s, opts, fps[s.name], upstream));
    if opts.force then Ok(resolved.(key := k)) else
    match Lookup(d, k)
    case Some(a) => Ok(resolved.(key := k, state := Cached, artifact := Some(a)))
    case None => Ok(resolved.(key := k))
  }

  ghost function PlanStages(key: Keyer, d: Disk, opts: Options, fps: Fingerprints, sel: seq<Selected>): Result<seq<Planned>>
    decreases |sel|
  {
    if sel == [] then Ok([]) else
    var n := |sel| - 1;
    match PlanStages(key, d, opts, fps, sel[..n])
    case Error(e) => Error(e)
    case Ok(before) => Extended(before, PlanStage(key, d, opts, fps, ByName(before), sel[n]))
  }

  function Extended(before: seq<Planned>, next: Result<Planned>): Result<seq<Planned>> {
    match next
    case Error(e) => Error(e)
    case Ok(p) => Ok(before + [p])
  }

  /** The stages of the registry's first `n` that are wanted, with their ordinals. */
  ghost function Chosen(all: seq<Stage>, n: nat, want: (Stage, nat) -> bool): (out: seq<Selected>)
    requires n <= |all|
    ensures forall i | 0 <= i < |out| ::
              0 < out[i].ordinal <= n && out[i].stage == all[out[i].ordinal - 1] && want(out[i].stage, out[i].ordinal)
    ensures forall i, j | 0 <= i < j < |out| :: out[i].ordinal < out[j].ordinal
  {
    if n == 0 then []
    else Chosen(all, n - 1, want) + (if want(all[n - 1], n) then [Selected(all[n - 1], n)] else [])
  }

  /** The one-based position of a stage, or 0. */
  function OrdinalOf(all: seq<Stage>, name: string): (o: nat)
    ensures o <= |all|
    ensures o > 0 ==> all[o - 1].name == name
    ensures o == 0 <==> !Registered(all, name)
  {
    if all == [] then 0
    else
      assert all == [all[0]] + all[1..];
      if all[0].name == name then assert all[0] in all; 1
      else var rest := OrdinalOf(all[1..], name); if rest == 0 then 0 else rest + 1
  }

  function FirstUnknown(all: seq<Stage>, names: seq<string>): Option<string> {
    if names == [] then None
    else if !Registered(all, names[0]) then Some(names[0])
    else FirstUnknown(all, names[1..])
  }

  /** The disabled list may name optional stages only. */
  function DisabledProblem(all: seq<Stage>, names: seq<string>): Option<PlanError> {
    if names == [] then None
    else if OrdinalOf(all, names[0]) == 0 then Some(NoSuchStage(names[0]))
    else if !all[OrdinalOf(all, names[0]) - 1].optional then Some(NotOptional(names[0]))
    else DisabledProblem(all, names[1..])
  }

  function From(opts: Options): nat {
    if opts.fromStage == "" then 1 else OrdinalOf(opts.registry, opts.fromStage)
  }

  function To(opts: Options): nat {
    if opts.toStage == "" then |opts.registry| else OrdinalOf(opts.registry, opts.toStage)
  }

  ghost function Listed(opts: Options): (Stage, nat) -> bool {
    (s: Stage, o: nat) => s.name in opts.only
  }

  ghost function InRange(opts: Options): (Stage, nat) -> bool {
    (s: Stage, o: nat) => s.name !in opts.disabled && From(opts) <= o <= To(opts)
  }

  /** The stages a run covers, always in registry order. An explicit list
      overrides the range, and includes stages that are disabled. */
  ghost function Selection(opts: Options): Result<seq<Selected>> {
    var all := opts.registry;
    var problem := DisabledProblem(all, opts.disabled);
    if problem.Some? then Error(problem.value)
    else if opts.only != [] then
      match FirstUnknown(all, opts.only)
      case Some(name) => Error(NoSuchStage(name))
      case None => Ok(Chosen(all, |all|, Listed(opts)))
    else if opts.fromStage != "" && From(opts) == 0 then Error(NoSuchStage(opts.fromStage))
    else if opts.toStage != "" && To(opts) == 0 then Error(NoSuchStage(opts.toStage))
    else if From(opts) > To(opts) then Error(BackwardsRange)
    else
      var out := Chosen(all, |all|, InRange(opts));
      if out == [] then Error(EmptyRange) else Ok(out)
  }

  ghost function BuildPlan(key: Keyer, d: Disk, opts: Options, fps: Fingerprints): Result<seq<Planned>> {
    match Selection(opts)
    case Error(e) => Error(e)
    case Ok(sel) => PlanStages(key, d, opts, fps, sel)
  }

  /** Some stage is left to run. */
  ghost predicate WillExecute(plan: seq<Planned>) {
    exists i | 0 <= i < |plan| :: plan[i].state == Pending
  }
}
