/** The planner's code: `selectStages` and `Build` of internal/pipeline/plan.go,
  proved to compute the plan the Planning module specifies. */
module Planner {
  import opened Sorting
  import opened ArtifactHash
  import opened KeyTrees
  import opened ArtifactStore
  import opened Optional
  import opened Planning

  // ---------------------------------------------------------------------
  // Stage selection
  // ---------------------------------------------------------------------

  function Earlier(): (Selected, Selected) -> bool {
    (a: Selected, b: Selected) => a.ordinal < b.ordinal
  }

  ghost predicate FromRegistry(all: seq<Stage>, out: set<Selected>) {
    forall s | s in out :: 0 < s.ordinal <= |all| && s.stage == all[s.ordinal - 1]
  }

  lemma {:induction false} ChosenAre(all: seq<Stage>, n: nat, want: (Stage, nat) -> bool)
    requires n <= |all|
    ensures forall i | 0 <= i < n && want(all[i], i + 1) :: Selected(all[i], i + 1) in Chosen(all, n, want)
  {
    if n > 0 { ChosenAre(all, n - 1, want); }
  }

  /** Naming stages in any order, with repetitions, and sorting what was named
      selects the registry's stages that were named. */
  lemma SortedIsChosen(all: seq<Stage>, want: (Stage, nat) -> bool, out: seq<Selected>)
    requires Distinct(out) && FromRegistry(all, Elements(out))
    requires forall i | 0 <= i < |all| :: Selected(all[i], i + 1) in out <==> want(all[i], i + 1)
    ensures Sort(Earlier(), out) == Chosen(all, |all|, want)
  {
    var chosen := Chosen(all, |all|, want);
    ChosenAre(all, |all|, want);
    assert Elements(out) == Elements(chosen) by {
      forall s | s in chosen ensures s in out {
        assert s == Selected(all[s.ordinal - 1], s.ordinal);
      }
      forall s | s in out ensures s in chosen {
        assert s in Elements(out);
        assert s == Selected(all[s.ordinal - 1], s.ordinal);
      }
    }
    assert StrictOrderOn(Earlier(), Elements(out));
    SortEnumerates(Earlier(), out);
    AscendingIsUnique(Earlier(), Sort(Earlier(), out), chosen);
  }

  ghost predicate DistinctNames(all: seq<Stage>) {
    forall i, j | 0 <= i < j < |all| :: all[i].name != all[j].name
  }

  /** What has been selected so far: the stages whose names have been seen. */
  ghost predicate Selects(all: seq<Stage>, out: seq<Selected>, seen: set<string>) {
    && Distinct(out) && FromRegistry(all, Elements(out))
    && forall j | 0 <= j < |all| :: Selected(all[j], j + 1) in out <==> all[j].name in seen
  }

  lemma SelectsMore(all: seq<Stage>, out: seq<Selected>, seen: set<string>, i: nat)
    requires DistinctNames(all) && Selects(all, out, seen) && i < |all| && all[i].name !in seen
    ensures Selects(all, out + [Selected(all[i], i + 1)], seen + {all[i].name})
  {
    var s := Selected(all[i], i + 1);
    assert Elements(out + [s]) == Elements(out) + {s};
  }

  method DisabledSet(all: seq<Stage>, names: seq<string>) returns (r: Result<set<string>>)
    ensures r == match DisabledProblem(all, names)
                 case Some(e) => Error(e)
                 case None => Ok(Elements(names))
  {
    var disabled := {};
    for i := 0 to |names|
      invariant disabled == Elements(names[..i])
      invariant DisabledProblem(all, names) == DisabledProblem(all, names[i..])
    {
      assert names[i..][1..] == names[i + 1..];
      assert names[..i + 1] == names[..i] + [names[i]];
      var o := OrdinalOf(all, names[i]);
      if o == 0 { return Error(NoSuchStage(names[i])); }
      if !all[o - 1].optional { return Error(NotOptional(names[i])); }
      disabled := disabled + {names[i]};
    }
    assert names[..|names|] == names;
    r := Ok(disabled);
  }

  method SelectListed(all: seq<Stage>, only: seq<string>) returns (r: Result<seq<Selected>>)
    requires ValidRegistry(all)
    ensures FirstUnknown(all, only).Some? ==> r == Error(NoSuchStage(FirstUnknown(all, only).value))
    ensures FirstUnknown(all, only).None? ==>
              r == Ok(Chosen(all, |all|, (s: Stage, o: nat) => s.name in only))
  {
    var out: seq<Selected> := [];
    var seen: set<string> := {};
    for i := 0 to |only|
      invariant FirstUnknown(all, only) == FirstUnknown(all, only[i..])
      invariant seen == Elements(only[..i]) && Selects(all, out, seen)
    {
      assert only[i..][1..] == only[i + 1..];
      assert only[..i + 1] == only[..i] + [only[i]];
      var o := OrdinalOf(all, only[i]);
      if o == 0 { return Error(NoSuchStage(only[i])); }
      if only[i] !in seen {
        SelectsMore(all, out, seen, o - 1);
        out := out + [Selected(all[o - 1], o)];
        seen := seen + {only[i]};
      }
    }
    assert only[..|only|] == only;
    SortedIsChosen(all, (s: Stage, o: nat) => s.name in only, out);
    r := Ok(Sort(Earlier(), out));
  }

  method SelectRange(all: seq<Stage>, disabled: set<string>, from: nat, to: nat) returns (out: seq<Selected>)
    ensures out == Chosen(all, |all|, (s: Stage, o: nat) => s.name !in disabled && from <= o <= to)
  {
    var want := (s: Stage, o: nat) => s.name !in disabled && from <= o <= to;
    out := [];
    for i := 0 to |all|
      invariant out == Chosen(all, i, want)
    {
      var ordinal := i + 1;
      if all[i].name in disabled || ordinal < from || ordinal > to { continue; }
      out := out + [Selected(all[i], ordinal)];
    }
  }

  lemma {:induction false} ChosenDependsOnWant(all: seq<Stage>, n: nat, f: (Stage, nat) -> bool, g: (Stage, nat) -> bool)
    requires n <= |all| && forall s, o :: f(s, o) == g(s, o)
    ensures Chosen(all, n, f) == Chosen(all, n, g)
  {
    if n > 0 { ChosenDependsOnWant(all, n - 1, f, g); }
  }

  method SelectStages(opts: Options) returns (r: Result<seq<Selected>>)
    requires ValidRegistry(opts.registry)
    ensures r == Selection(opts)
  {
    var all := opts.registry;
    var disabled := DisabledSet(all, opts.disabled);
    if disabled.Error? { return Error(disabled.error); }
    if |opts.only| > 0 {
      r := SelectListed(all, opts.only);
      ChosenDependsOnWant(all, |all|, (s: Stage, o: nat) => s.name in opts.only, Listed(opts));
      return;
    }
    var from, to := 1, |all|;
    if opts.fromStage != "" {
      from := OrdinalOf(all, opts.fromStage);
      if from == 0 { return Error(NoSuchStage(opts.fromStage)); }
    }
    if opts.toStage != "" {
      to := OrdinalOf(all, opts.toStage);
      if to == 0 { return Error(NoSuchStage(opts.toStage)); }
    }
    if from > to { return Error(BackwardsRange); }
    var out := SelectRange(all, disabled.value, from, to);
    assert from == From(opts) && to == To(opts) && disabled.value == Elements(opts.disabled);
    ChosenDependsOnWant(all, |all|, (s: Stage, o: nat) => s.name !in disabled.value && from <= o <= to, InRange(opts));
    if |out| == 0 { return Error(EmptyRange); }
    r := Ok(out);
  }

  // ---------------------------------------------------------------------
  // Building the plan
  // ---------------------------------------------------------------------

  class StagePlan {
    const stage: Stage
    const ordinal: nat
    var key: string
    var state: State
    var artifact: Option<Artifact>
    var reason: Reason
    var blocked: bool
    var err: Option<StageError>
    var external: map<string, Artifact>

    constructor (stage: Stage, ordinal: nat)
      ensures this.stage == stage && this.ordinal == ordinal
      ensures Value() == FreshPlan(stage, ordinal)
    {
      this.stage, this.ordinal := stage, ordinal;
      key, state, artifact, reason, blocked, err, external := "", Pending, None, NoReason, false, None, map[];
    }

    function Value(): Planned
      reads this
    {
      Planned(stage, ordinal, key, state, artifact, reason, blocked, err, external)
    }
  }

  function Values(plan: seq<StagePlan>): seq<Planned>
    reads plan
  {
    seq(|plan|, i requires 0 <= i < |plan| reads plan => plan[i].Value())
  }

  /** What the stages planned so far look like now. */
  function View(byName: map<string, StagePlan>): ByStage
    reads byName.Values
  {
    map n | n in byName :: byName[n].Value()
  }

  /** `byName` finds every stage of the plan, and nothing else. */
  ghost predicate Indexes(byName: map<string, StagePlan>, plan: seq<StagePlan>) {
    && (forall i | 0 <= i < |plan| :: plan[i].stage.name in byName && byName[plan[i].stage.name] == plan[i])
    && (forall n | n in byName :: byName[n] in plan && byName[n].stage.name == n)
    && NoAliases(plan)
  }

  ghost predicate NoAliases(plan: seq<StagePlan>) {
    forall i, j | 0 <= i < j < |plan| :: plan[i] != plan[j]
  }

  lemma ViewIsByName(byName: map<string, StagePlan>, plan: seq<StagePlan>)
    requires Indexes(byName, plan)
    ensures View(byName) == ByName(Values(plan))
  {
    ByNameFinds(Values(plan));
    var a, b := View(byName), ByName(Values(plan));
    forall n | n in a ensures n in b && a[n] == b[n] {
      var i :| 0 <= i < |plan| && plan[i] == byName[n];
      assert Values(plan)[i].stage.name == n;
    }
    forall n | n in b ensures n in a {
      var i :| 0 <= i < |plan| && Values(plan)[i].stage.name == n;
      assert plan[i].stage.name == n;
    }
  }

  ghost predicate NamesDiffer(plan: seq<Planned>) {
    forall i, j | 0 <= i < j < |plan| :: plan[i].stage.name != plan[j].stage.name
  }

  lemma {:induction false} ByNameHolds(plan: seq<Planned>)
    ensures forall n | n in ByName(plan) :: exists i | 0 <= i < |plan| :: plan[i].stage.name == n && ByName(plan)[n] == plan[i]
    decreases |plan|
  {
    if plan != [] {
      var m := |plan| - 1;
      ByNameHolds(plan[..m]);
      forall n | n in ByName(plan) ensures exists i | 0 <= i < |plan| :: plan[i].stage.name == n && ByName(plan)[n] == plan[i] {
        if n == plan[m].stage.name {
          assert plan[m].stage.name == n && ByName(plan)[n] == plan[m];
        } else {
          assert n in ByName(plan[..m]);
          var i :| 0 <= i < |plan[..m]| && plan[..m][i].stage.name == n && ByName(plan[..m])[n] == plan[..m][i];
          assert plan[i].stage.name == n && ByName(plan)[n] == plan[i];
        }
      }
    }
  }

  lemma {:induction false} ByNameHas(plan: seq<Planned>, i: nat)
    requires i < |plan|
    ensures plan[i].stage.name in ByName(plan)
    ensures NamesDiffer(plan) ==> ByName(plan)[plan[i].stage.name] == plan[i]
    decreases |plan|
  {
    var m := |plan| - 1;
    if i < m {
      assert plan[..m][i] == plan[i];
      ByNameHas(plan[..m], i);
    }
  }

  /** Looking a stage up by name finds it. */
  lemma ByNameFinds(plan: seq<Planned>)
    ensures forall n | n in ByName(plan) :: exists i | 0 <= i < |plan| :: plan[i].stage.name == n && ByName(plan)[n] == plan[i]
    ensures forall i | 0 <= i < |plan| :: plan[i].stage.name in ByName(plan)
    ensures NamesDiffer(plan) ==> forall i | 0 <= i < |plan| :: ByName(plan)[plan[i].stage.name] == plan[i]
  {
    ByNameHolds(plan);
    forall i | 0 <= i < |plan|
      ensures plan[i].stage.name in ByName(plan) && (NamesDiffer(plan) ==> ByName(plan)[plan[i].stage.name] == plan[i])
    {
      ByNameHas(plan, i);
    }
  }

  method ResolveExternal(store: Store, s: Stage, planned: ByStage) returns (external: map<string, Artifact>)
    requires UniqueIds(store.State())
    ensures external == ExternalInputs(store.State(), s, planned)
  {
    var deps := Dependencies(s);
    external := map[];
    for i := 0 to |deps|
      invariant external == ExternalOf(store.State(), deps[..i], planned)
    {
      ExternalStep(store.State(), deps, i, planned);
      if deps[i] in planned { continue; }
      var latest := store.Latest(deps[i]);
      if latest.Some? { external := external[deps[i] := latest.value]; }
    }
    assert deps[..|deps|] == deps;
  }

  lemma ExternalStep(d: Disk, deps: seq<string>, i: nat, planned: ByStage)
    requires i < |deps|
    ensures ExternalOf(d, deps[..i + 1], planned)
         == (if deps[i] !in planned && LatestIn(d, deps[i]).Some?
             then ExternalOf(d, deps[..i], planned)[deps[i] := LatestIn(d, deps[i]).value]
             else ExternalOf(d, deps[..i], planned))
  {
    assert deps[..i + 1] == deps[..i] + [deps[i]];
  }

  /** Decides one stage. The stage is already in the index, still pending. */
  method Decide(store: Store, opts: Options, fps: Fingerprints, sp: StagePlan, byName: map<string, StagePlan>,
                ghost before: ByStage)
    returns (problem: Option<PlanError>)
    requires UniqueIds(store.State())
    requires sp.Value() == FreshPlan(sp.stage, sp.ordinal)
    requires View(byName) == before[sp.stage.name := sp.Value()]
    modifies sp
    ensures (match PlanStage(HashedKey(store.h), old(store.State()), opts, fps, before, Selected(sp.stage, sp.ordinal))
             case Ok(p) => problem == None && sp.Value() == p
             case Error(e) => problem == Some(e))
  {
    var s := sp.stage;
    var planned := View(byName);
    var ended := BlockedBy(s, planned);
    if ended.Some? {
      sp.state, sp.reason, sp.blocked := Skipped, ended.value, true;
      return None;
    }
    var external := ResolveExternal(store, s, planned);
    sp.external := external;
    var missing := Unsatisfied(s, planned, external);
    if missing.Some? {
      sp.state, sp.reason, sp.blocked := Skipped, NoInput(missing.value), true;
      return None;
    }
    problem := LookForKey(store, opts, fps, sp, UpstreamKeys(s, planned, external));
  }

  /** Derives the stage's key and looks for its artifact. */
  method LookForKey(store: Store, opts: Options, fps: Fingerprints, sp: StagePlan, upstream: map<string, string>)
    returns (problem: Option<PlanError>)
    modifies sp
    ensures (match KeyStage(HashedKey(store.h), old(store.State()), opts, fps, upstream, old(sp.Value()))
             case Ok(p) => problem == None && sp.Value() == p
             case Error(e) => problem == Some(e))
  {
    var s := sp.stage;
    if s.name !in fps { return Some(FingerprintError(s.name)); }
    var derived := DeriveKey(store.h, KeyInputsOf(s, opts, fps[s.name], upstream));
    if derived.NoCanonicalForm? { return Some(ConfigError(s.name)); }
    sp.key := derived.derived.key;
    if opts.force { return None; }
    var cached := Lookup(store.State(), sp.key);
    if cached.Some? {
      sp.state, sp.artifact := Cached, cached;
    }
    problem := None;
  }

  /** One turn of the planning loop: adds a stage to the plan and the index. */
  method PlanNext(store: Store, opts: Options, fps: Fingerprints, sel: Selected,
                  plan: seq<StagePlan>, byName: map<string, StagePlan>)
    returns (problem: Option<PlanError>, sp: StagePlan, byName': map<string, StagePlan>)
    requires UniqueIds(store.State()) && Indexes(byName, plan) && sel.stage.name !in byName
    ensures fresh(sp) && sp.stage == sel.stage && byName' == byName[sel.stage.name := sp]
    ensures match PlanStage(HashedKey(store.h), store.State(), opts, fps, ByName(Values(plan)), sel)
            case Ok(p) => problem == None && sp.Value() == p
            case Error(e) => problem == Some(e)
  {
    ViewIsByName(byName, plan);
    ghost var before := View(byName);
    sp := new StagePlan(sel.stage, sel.ordinal);
    byName' := byName[sel.stage.name := sp];
    ViewExtends(byName, sp);
    assert View(byName) == before;
    problem := Decide(store, opts, fps, sp, byName', before);
  }

  lemma ViewExtends(byName: map<string, StagePlan>, sp: StagePlan)
    ensures View(byName[sp.stage.name := sp]) == View(byName)[sp.stage.name := sp.Value()]
  {
  }

  lemma IndexesExtend(byName: map<string, StagePlan>, plan: seq<StagePlan>, sp: StagePlan)
    requires Indexes(byName, plan) && sp.stage.name !in byName
    ensures Indexes(byName[sp.stage.name := sp], plan + [sp])
    ensures Values(plan + [sp]) == Values(plan) + [sp.Value()]
  {
  }

  method PlanSelected(store: Store, opts: Options, fps: Fingerprints, sel: seq<Selected>)
    returns (problem: Option<PlanError>, plan: seq<StagePlan>)
    requires UniqueIds(store.State())
    requires forall i, j | 0 <= i < j < |sel| :: sel[i].stage.name != sel[j].stage.name
    ensures fresh(plan) && NoAliases(plan)
    ensures match PlanStages(HashedKey(store.h), store.State(), opts, fps, sel)
            case Ok(p) => problem == None && Values(plan) == p
            case Error(e) => problem == Some(e)
  {
    plan := [];
    assert Values(plan) == [] && sel[..0] == [];
    var byName: map<string, StagePlan> := map[];
    for i := 0 to |sel|
      invariant fresh(plan) && Indexes(byName, plan)
      invariant forall j | i <= j < |sel| :: sel[j].stage.name !in byName
      invariant PlanStages(HashedKey(store.h), store.State(), opts, fps, sel[..i]) == Ok(Values(plan))
    {
      ghost var done := Values(plan);
      var sp, byName';
      problem, sp, byName' := PlanNext(store, opts, fps, sel[i], plan, byName);
      assert Values(plan) == done;
      PlanStagesStep(HashedKey(store.h), store.State(), opts, fps, sel, i, done);
      if problem.Some? {
        PlanErrorsPropagate(HashedKey(store.h), store.State(), opts, fps, sel, i);
        return;
      }
      IndexesExtend(byName, plan, sp);
      plan, byName := plan + [sp], byName';
    }
    assert sel[..|sel|] == sel;
    problem := None;
  }

  method Build(store: Store, opts: Options, fps: Fingerprints) returns (problem: Option<PlanError>, plan: seq<StagePlan>)
    requires ValidRegistry(opts.registry) && UniqueIds(store.State())
    ensures fresh(plan) && NoAliases(plan)
    ensures match BuildPlan(HashedKey(store.h), store.State(), opts, fps)
            case Ok(p) => problem == None && Values(plan) == p
            case Error(e) => problem == Some(e)
  {
    var selected := SelectStages(opts);
    if selected.Error? { return Some(selected.error), []; }
    SelectionNamesDiffer(opts);
    problem, plan := PlanSelected(store, opts, fps, selected.value);
  }

  method NeedsRun(plan: seq<StagePlan>) returns (needed: bool)
    ensures needed == WillExecute(Values(plan))
  {
    for i := 0 to |plan|
      invariant forall j | 0 <= j < i :: Values(plan)[j].state != Pending
    {
      assert Values(plan)[i] == plan[i].Value();
      if plan[i].state == Pending { return true; }
    }
    return false;
  }

  lemma PlanStagesStep(key: Keyer, d: Disk, opts: Options, fps: Fingerprints, sel: seq<Selected>, i: nat, done: seq<Planned>)
    requires i < |sel| && PlanStages(key, d, opts, fps, sel[..i]) == Ok(done)
    ensures PlanStages(key, d, opts, fps, sel[..i + 1])
         == Extended(done, PlanStage(key, d, opts, fps, ByName(done), sel[i]))
  {
    assert sel[..i + 1][..i] == sel[..i];
  }

  lemma SelectionNamesDiffer(opts: Options)
    requires ValidRegistry(opts.registry) && Selection(opts).Ok?
    ensures forall i, j | 0 <= i < j < |Selection(opts).value| ::
              Selection(opts).value[i].stage.name != Selection(opts).value[j].stage.name
  {
  }

  /** The first stage that cannot be planned fails the whole plan. */
  lemma {:induction false} PlanErrorsPropagate(key: Keyer, d: Disk, opts: Options, fps: Fingerprints, sel: seq<Selected>, i: nat)
    requires i < |sel| && PlanStages(key, d, opts, fps, sel[..i + 1]).Error?
    ensures PlanStages(key, d, opts, fps, sel) == PlanStages(key, d, opts, fps, sel[..i + 1])
    decreases |sel|
  {
    var n := |sel| - 1;
    if i < n {
      assert sel[..n][..i + 1] == sel[..i + 1];
      PlanErrorsPropagate(key, d, opts, fps, sel[..n], i);
    } else {
      assert sel[..i + 1] == sel;
    }
  }
}
