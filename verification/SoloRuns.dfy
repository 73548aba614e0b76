/** Forced runs of single stages, one after the other, and what they leave. */
module SoloRuns {
  import opened ArtifactHash
  import opened KeyTrees
  import opened ArtifactStore
  import opened Optional
  import opened StoreSafety
  import opened Planning
  import opened Planner
  import opened Execution
  import opened PlanFacts
  import opened Provenance
  import opened Agreement
  import opened Soundness
  import opened NothingRecomputed
  import opened Retention

  /** A registry whose every stage can be keyed, and the source its keys record. */
  datatype Bench = Bench(key: Keyer, sem: Semantics, all: seq<Stage>, config: map<string, Config>, revision: string,
                         fps: Fingerprints, source: string)

  function Settings(x: Bench, source: string, force: bool, only: seq<string>): Options {
    Options(x.all, x.config, x.revision, source, force, only, "", "", [], -1)
  }

  /** Everything is planned, nothing forced. */
  function Full(x: Bench): Options { Settings(x, x.source, false, []) }

  /** One stage is run, whatever the store has of it. */
  function Solo(x: Bench, i: nat, source: string): Options
    requires i < |x.all|
  {
    Settings(x, source, true, [x.all[i].name])
  }

  /** The stage succeeds, and so does publishing what it made. */
  function Succeeding(x: Bench, i: nat): World
    requires i < |x.all|
  {
    World(map[x.all[i].name := Succeeds([], "out", true, 4, 0, AbortFault(false, false))], x.fps, 3)
  }

  ghost predicate GoodBench(x: Bench) {
    && IdentifiesInputs(x.key) && ValidRegistry(x.all) && CleanOptions(Full(x)) && CleanFingerprints(x.fps)
    && forall s | s in x.all :: s.name in x.fps && Subtree(s, Full(x)).Canonical?
  }

  // ---------------------------------------------------------------------
  // The keys of the registry
  // ---------------------------------------------------------------------

  /** The entries of a map for these names, as far as it has them. */
  function Of<V>(m: map<string, V>, names: seq<string>): map<string, V> {
    map n | n in names && n in m :: m[n]
  }

  function FingerprintOf(x: Bench, i: nat): map<string, string>
    requires i < |x.all|
  {
    if x.all[i].name in x.fps then x.fps[x.all[i].name] else map[]
  }

  ghost function KeyAfter(x: Bench, i: nat, before: map<string, string>): string
    requires i < |x.all|
  {
    x.key(KeyInputsOf(x.all[i], Full(x), FingerprintOf(x, i), Of(before, Dependencies(x.all[i]))))
  }

  /** The keys of the first `n` stages, each hashed over those before it. */
  ghost function KeysTo(x: Bench, n: nat): map<string, string>
    requires n <= |x.all|
  {
    if n == 0 then map[] else KeysTo(x, n - 1)[x.all[n - 1].name := KeyAfter(x, n - 1, KeysTo(x, n - 1))]
  }

  ghost function Keys(x: Bench): map<string, string> { KeysTo(x, |x.all|) }

  lemma {:induction false} KeysToHas(x: Bench, n: nat, name: string)
    requires n <= |x.all|
    ensures name in KeysTo(x, n) <==> exists j | 0 <= j < n :: x.all[j].name == name
  {
    if n > 0 { KeysToHas(x, n - 1, name); }
  }

  lemma {:induction false} KeysToKeep(x: Bench, m: nat, n: nat, i: nat)
    requires ValidRegistry(x.all) && i < m <= n <= |x.all|
    ensures x.all[i].name in KeysTo(x, m) && x.all[i].name in KeysTo(x, n)
    ensures KeysTo(x, m)[x.all[i].name] == KeysTo(x, n)[x.all[i].name]
    decreases n
  {
    KeysToHas(x, m, x.all[i].name);
    KeysToHas(x, n, x.all[i].name);
    if m < n { KeysToKeep(x, m, n - 1, i); }
  }

  /** A stage's key is the key of its stage over the keys of its dependencies. */
  lemma KeyOfStage(x: Bench, i: nat)
    requires ValidRegistry(x.all) && i < |x.all|
    ensures x.all[i].name in Keys(x)
    ensures Keys(x)[x.all[i].name] == KeyAfter(x, i, Keys(x))
  {
    KeysToKeep(x, i + 1, |x.all|, i);
    var deps := Dependencies(x.all[i]);
    forall dep | dep in deps
      ensures dep in KeysTo(x, i) <==> dep in Keys(x)
      ensures dep in KeysTo(x, i) ==> KeysTo(x, i)[dep] == Keys(x)[dep]
    {
      KeysToHas(x, i, dep);
      KeysToHas(x, |x.all|, dep);
      if dep in Keys(x) {
        var j :| 0 <= j < |x.all| && x.all[j].name == dep;
        DependenciesComeEarlier(x.all, i, j);
        KeysToKeep(x, i, |x.all|, j);
      }
    }
    assert Of(KeysTo(x, i), deps) == Of(Keys(x), deps);
  }

  // ---------------------------------------------------------------------
  // What the store holds
  // ---------------------------------------------------------------------

  /** The payload each stage last produced. */
  type Shelf = map<string, Content>

  ghost function Kept(x: Bench, name: string): Artifact
    requires name in Keys(x)
  {
    Artifact(IDForKey(Keys(x)[name]), name, Keys(x)[name])
  }

  ghost predicate Shelved(x: Bench, d: Disk, shelf: Shelf, name: string) {
    if name !in shelf then LatestIn(d, name).None?
    else
      && name in Keys(x) && LatestIn(d, name) == Some(Kept(x, name))
      && Lookup(d, Keys(x)[name]) == Some(Kept(x, name)) && Open(d, Kept(x, name)) == Some(shelf[name])
  }

  ghost predicate Holds(x: Bench, stageOf: map<string, string>, d: Disk, shelf: Shelf) {
    Consistent(Keeping(stageOf), d) && forall name {:trigger Shelved(x, d, shelf, name)} :: Shelved(x, d, shelf, name)
  }

  /** The keys are filed under their stages. */
  ghost predicate FiledUnder(x: Bench, stageOf: map<string, string>) {
    DistinctIds(stageOf.Keys) && forall name | name in Keys(x) :: Keys(x)[name] in stageOf && stageOf[Keys(x)[name]] == name
  }

  /** Everything the stage depends on has been run. */
  ghost predicate ReadyFor(x: Bench, shelf: Shelf, i: nat)
    requires i < |x.all|
  {
    && shelf.Keys <= Keys(x).Keys
    && forall dep | dep in Dependencies(x.all[i]) && dep in Keys(x) :: dep in shelf
  }

  /** The source makes no difference to the key. */
  predicate KeyedAlike(x: Bench, i: nat, source: string)
    requires i < |x.all|
  {
    source == x.source || "probe" !in x.all[i].depends
  }

  // ---------------------------------------------------------------------
  // Planning one stage
  // ---------------------------------------------------------------------

  lemma ChosenNext(all: seq<Stage>, want: (Stage, nat) -> bool, n: nat)
    requires 0 < n <= |all|
    ensures Chosen(all, n, want) ==
              if want(all[n - 1], n) then Chosen(all, n - 1, want) + [Selected(all[n - 1], n)] else Chosen(all, n - 1, want)
  {
  }

  ghost predicate WantsOnly(all: seq<Stage>, want: (Stage, nat) -> bool, i: nat) {
    forall o | 0 <= o < |all| :: want(all[o], o + 1) <==> o == i
  }

  lemma WantsAt(all: seq<Stage>, want: (Stage, nat) -> bool, i: nat, n: nat)
    requires WantsOnly(all, want, i) && 0 < n <= |all|
    ensures want(all[n - 1], n) <==> n == i + 1
  {
    var o := n - 1;
    assert want(all[o], o + 1) <==> o == i;
  }

  lemma {:induction false} ChosenOnly(all: seq<Stage>, want: (Stage, nat) -> bool, i: nat, n: nat)
    requires i < |all| && n <= |all| && WantsOnly(all, want, i)
    ensures Chosen(all, n, want) == if n <= i then [] else [Selected(all[i], i + 1)]
    decreases n
  {
    if n > 0 {
      var m := n - 1;
      ChosenOnly(all, want, i, m);
      WantsAt(all, want, i, n);
      ChosenNext(all, want, n);
    }
  }

  lemma SelectsOnly(x: Bench, i: nat, source: string)
    requires ValidRegistry(x.all) && i < |x.all|
    ensures Selection(Solo(x, i, source)) == Ok([Selected(x.all[i], i + 1)])
  {
    var opts := Solo(x, i, source);
    forall o | 0 <= o < |x.all| ensures Listed(opts)(x.all[o], o + 1) <==> o == i {
      assert x.all[o].name in opts.only <==> x.all[o].name == x.all[i].name;
    }
    ChosenOnly(x.all, Listed(opts), i, |x.all|);
    assert x.all[i] in x.all && Registered(x.all, x.all[i].name);
    assert opts.only[0] == x.all[i].name && opts.only[1..] == [];
    assert FirstUnknown(x.all, opts.only) == FirstUnknown(x.all, []);
  }

  lemma NotItsOwn(x: Bench, i: nat, dep: string)
    requires ValidRegistry(x.all) && i < |x.all| && dep in Dependencies(x.all[i])
    ensures dep != x.all[i].name
    ensures dep in x.all[i].depends ==> dep in Keys(x)
  {
    if dep == x.all[i].name { DependenciesComeEarlier(x.all, i, i); }
    if dep in x.all[i].depends {
      assert RegisteredBefore(x.all, i, dep);
      var s :| s in x.all[..i] && s.name == dep;
      var j :| 0 <= j < i && x.all[..i][j] == s;
      KeysToHas(x, |x.all|, dep);
    }
  }

  /** What a stage finds of its dependencies when it is planned alone. */
  ghost function Found(x: Bench, shelf: Shelf, i: nat): map<string, Artifact>
    requires i < |x.all| && shelf.Keys <= Keys(x).Keys
  {
    map dep | dep in Dependencies(x.all[i]) && dep in shelf :: Kept(x, dep)
  }

  ghost function Alone(x: Bench, i: nat): ByStage
    requires i < |x.all|
  {
    map[x.all[i].name := FreshPlan(x.all[i], i + 1)]
  }

  lemma LatestOfShelved(x: Bench, stageOf: map<string, string>, d: Disk, shelf: Shelf, i: nat, dep: string)
    requires ValidRegistry(x.all) && i < |x.all| && Holds(x, stageOf, d, shelf) && ReadyFor(x, shelf, i)
    requires dep in Dependencies(x.all[i])
    ensures dep !in Alone(x, i)
    ensures LatestIn(d, dep) == if dep in shelf then Some(Kept(x, dep)) else None
  {
    NotItsOwn(x, i, dep);
    assert Shelved(x, d, shelf, dep);
  }

  lemma FindsLatest(x: Bench, stageOf: map<string, string>, d: Disk, shelf: Shelf, i: nat)
    requires ValidRegistry(x.all) && i < |x.all| && Holds(x, stageOf, d, shelf) && ReadyFor(x, shelf, i)
    ensures ExternalInputs(d, x.all[i], Alone(x, i)) == Found(x, shelf, i)
  {
    forall dep | dep in Dependencies(x.all[i])
      ensures dep !in Alone(x, i) && LatestIn(d, dep) == if dep in shelf then Some(Kept(x, dep)) else None
    {
      LatestOfShelved(x, stageOf, d, shelf, i, dep);
    }
  }

  lemma NothingInItsWay(x: Bench, shelf: Shelf, i: nat)
    requires ValidRegistry(x.all) && i < |x.all| && ReadyFor(x, shelf, i)
    ensures BlockedBy(x.all[i], Alone(x, i)).None?
    ensures Unsatisfied(x.all[i], Alone(x, i), Found(x, shelf, i)).None?
  {
    var s, planned, found := x.all[i], Alone(x, i), Found(x, shelf, i);
    FirstEndedMeans(s.depends, planned);
    FirstMissingMeans(s.depends, planned, found);
    forall dep | dep in s.depends ensures dep !in planned && dep in found {
      assert dep in Dependencies(s);
      NotItsOwn(x, i, dep);
    }
  }

  lemma FoundKeys(x: Bench, shelf: Shelf, i: nat)
    requires ValidRegistry(x.all) && i < |x.all| && ReadyFor(x, shelf, i)
    ensures UpstreamKeys(x.all[i], Alone(x, i), Found(x, shelf, i)) == Of(Keys(x), Dependencies(x.all[i]))
    ensures KeysOf(Found(x, shelf, i)) == Of(Keys(x), Dependencies(x.all[i]))
  {
    KeysOfFound(x, shelf, i);
    var s, planned, found := x.all[i], Alone(x, i), Found(x, shelf, i);
    forall dep | dep in Dependencies(s)
      ensures UpstreamKey(dep, planned, found) == if dep in Keys(x) then Some(Keys(x)[dep]) else None
    {
      NotItsOwn(x, i, dep);
    }
  }

  lemma KeysOfFound(x: Bench, shelf: Shelf, i: nat)
    requires i < |x.all| && ReadyFor(x, shelf, i)
    ensures KeysOf(Found(x, shelf, i)) == Of(Keys(x), Dependencies(x.all[i]))
  {
  }

  ghost function SoloPlan(x: Bench, shelf: Shelf, i: nat): Planned
    requires ValidRegistry(x.all) && i < |x.all| && shelf.Keys <= Keys(x).Keys
  {
    KeyOfStage(x, i);
    FreshPlan(x.all[i], i + 1).(external := Found(x, shelf, i), key := Keys(x)[x.all[i].name])
  }

  lemma SoloInputs(x: Bench, i: nat, source: string)
    requires GoodBench(x) && i < |x.all| && KeyedAlike(x, i, source)
    ensures x.all[i].name in x.fps && Subtree(x.all[i], Solo(x, i, source)).Canonical?
    ensures x.all[i].name in Keys(x)
    ensures x.key(KeyInputsOf(x.all[i], Solo(x, i, source), x.fps[x.all[i].name], Of(Keys(x), Dependencies(x.all[i]))))
         == Keys(x)[x.all[i].name]
  {
    KeyOfStage(x, i);
    assert x.all[i] in x.all;
    var s, up := x.all[i], Of(Keys(x), Dependencies(x.all[i]));
    assert KeyInputsOf(s, Solo(x, i, source), x.fps[s.name], up) == KeyInputsOf(s, Full(x), x.fps[s.name], up);
  }

  lemma PlansSolo(x: Bench, stageOf: map<string, string>, d: Disk, shelf: Shelf, i: nat, source: string)
    requires GoodBench(x) && i < |x.all| && Holds(x, stageOf, d, shelf) && ReadyFor(x, shelf, i) && KeyedAlike(x, i, source)
    ensures BuildPlan(x.key, d, Solo(x, i, source), x.fps) == Ok([SoloPlan(x, shelf, i)])
  {
    var sel := Selected(x.all[i], i + 1);
    SelectsOnly(x, i, source);
    FindsLatest(x, stageOf, d, shelf, i);
    NothingInItsWay(x, shelf, i);
    FoundKeys(x, shelf, i);
    SoloInputs(x, i, source);
    assert map[][x.all[i].name := FreshPlan(x.all[i], i + 1)] == Alone(x, i);
    assert PlanStage(x.key, d, Solo(x, i, source), x.fps, map[], sel) == Ok(SoloPlan(x, shelf, i));
    PlansOne(x.key, d, Solo(x, i, source), x.fps, sel, SoloPlan(x, shelf, i));
  }

  lemma PlansOne(key: Keyer, d: Disk, opts: Options, fps: Fingerprints, sel: Selected, p: Planned)
    requires Selection(opts) == Ok([sel]) && PlanStage(key, d, opts, fps, map[], sel) == Ok(p)
    ensures BuildPlan(key, d, opts, fps) == Ok([p])
  {
    assert [sel][..0] == [];
    assert PlanStages(key, d, opts, fps, [sel]) == Extended([], PlanStage(key, d, opts, fps, map[], sel));
    assert [] + [p] == [p];
  }

  // ---------------------------------------------------------------------
  // Running it
  // ---------------------------------------------------------------------

  /** What the stage computes from the shelf. */
  ghost function SoloPayload(x: Bench, shelf: Shelf, i: nat, source: string): Content
    requires GoodBench(x) && i < |x.all|
  {
    var s := x.all[i];
    assert s in x.all;
    x.sem(RecipeOf(s, Full(x), x.fps[s.name]), Of(shelf, Dependencies(s)), source)
  }

  ghost function SoloEnv(x: Bench, i: nat, source: string): Env
    requires i < |x.all|
  {
    Env(x.key, x.sem, Solo(x, i, source), Succeeding(x, i))
  }

  ghost function SoloAttempt(x: Bench, shelf: Shelf, i: nat, source: string): Op
    requires GoodBench(x) && i < |x.all|
  {
    KeyOfStage(x, i);
    var name := x.all[i].name;
    Attempt(name, Keys(x)[name], [("out", SoloPayload(x, shelf, i, source))], "out", Commits)
  }

  lemma FoundIsReadable(x: Bench, stageOf: map<string, string>, d: Disk, shelf: Shelf, i: nat)
    requires ValidRegistry(x.all) && i < |x.all| && Holds(x, stageOf, d, shelf) && ReadyFor(x, shelf, i)
    ensures Readable(d, Found(x, shelf, i))
    ensures ReadAll(d, Found(x, shelf, i)) == Of(shelf, Dependencies(x.all[i]))
  {
    var found := Found(x, shelf, i);
    forall dep | dep in found ensures Open(d, found[dep]) == Some(shelf[dep]) {
      assert Shelved(x, d, shelf, dep);
    }
  }

  lemma OneFile(c: Content)
    ensures Publishable(Contents([("out", c)]), "out") && Contents([("out", c)])["out"] == c
    ensures |[("out", c)]| == 1
  {
    var files := [("out", c)];
    assert files[..0] == [];
  }

  lemma SoloIsFree(x: Bench, stageOf: map<string, string>, d: Disk, shelf: Shelf, i: nat, source: string)
    requires GoodBench(x) && i < |x.all| && Consistent(Keeping(stageOf), d) && FiledUnder(x, stageOf)
    ensures Obeys(Keeping(stageOf), SoloAttempt(x, shelf, i, source))
    ensures !IdTaken(d, SoloAttempt(x, shelf, i, source).key, IDForKey(SoloAttempt(x, shelf, i, source).key))
  {
    KeyOfStage(x, i);
    IdIsFree(Keeping(stageOf), d, SoloAttempt(x, shelf, i, source));
  }

  /** The run publishes what the stage computes from the shelf, under its key. */
  lemma RunsSolo(x: Bench, stageOf: map<string, string>, d: Disk, shelf: Shelf, i: nat, source: string)
    requires GoodBench(x) && i < |x.all| && Holds(x, stageOf, d, shelf) && FiledUnder(x, stageOf)
    requires ReadyFor(x, shelf, i) && KeyedAlike(x, i, source)
    ensures Execution.RunStage(SoloEnv(x, i, source), d, 0, x.all[i], Found(x, shelf, i)).ops
         == [Whole(SoloAttempt(x, shelf, i, source))]
  {
    var env, s, found := SoloEnv(x, i, source), x.all[i], Found(x, shelf, i);
    var o := env.world.outcomes[s.name];
    SoloInputs(x, i, source);
    FoundKeys(x, shelf, i);
    FoundIsReadable(x, stageOf, d, shelf, i);
    SoloIsFree(x, stageOf, d, shelf, i, source);
    assert Effective(env.world, s, d, found) == o;
    var payload := SoloPayload(x, shelf, i, source);
    assert Product(x.sem, env.opts, env.world, d, s, found) == payload;
    OneFile(payload);
    assert FilesOf(o, payload) == [("out", payload)];
  }

  lemma ByNameOfOne(p: Planned)
    ensures ByName([p]) == map[p.stage.name := p]
  {
    assert [p][..0] == [];
    assert ByName([p][..0]) == map[];
  }

  lemma NothingMissing(x: Bench, shelf: Shelf, i: nat)
    requires ValidRegistry(x.all) && i < |x.all| && ReadyFor(x, shelf, i)
    ensures var p := SoloPlan(x, shelf, i);
            && BlockedBy(x.all[i], ByName([p])).None?
            && FirstWithoutInput(x.all[i].depends, ByName([p]), p.external).None?
            && Inputs(x.all[i], ByName([p]), p.external) == Found(x, shelf, i)
  {
    var p, s := SoloPlan(x, shelf, i), x.all[i];
    ByNameOfOne(p);
    var planned := ByName([p]);
    FirstEndedMeans(s.depends, planned);
    forall dep | dep in Dependencies(s)
      ensures dep !in planned && (dep in s.depends ==> dep in p.external)
      ensures InputOf(dep, planned, p.external) == if dep in shelf then Some(Kept(x, dep)) else None
    {
      NotItsOwn(x, i, dep);
    }
    forall dep | dep in s.depends ensures InputOf(dep, planned, p.external).Some? {
      assert dep in Dependencies(s);
    }
    Settlement.NoneWithoutInput(s.depends, planned, p.external);
  }

  lemma RunsToEnd(x: Bench, stageOf: map<string, string>, d: Disk, shelf: Shelf, i: nat, source: string)
    requires GoodBench(x) && i < |x.all| && Holds(x, stageOf, d, shelf) && FiledUnder(x, stageOf)
    requires ReadyFor(x, shelf, i) && KeyedAlike(x, i, source)
    ensures RunPlan(SoloEnv(x, i, source), [SoloPlan(x, shelf, i)], d).progress.ops == [Whole(SoloAttempt(x, shelf, i, source))]
  {
    var env, plan := SoloEnv(x, i, source), [SoloPlan(x, shelf, i)];
    var st := Begun(plan, d);
    NothingMissing(x, shelf, i);
    RunsSolo(x, stageOf, d, shelf, i, source);
    var next := RunPending(env, st, 0);
    assert next == RunReady(env, st, 0, Found(x, shelf, i));
    assert next.ops == [] + [Whole(SoloAttempt(x, shelf, i, source))];
    assert st.plan[0].state == Pending && !CancelledAt(env.world, 0) && |st.plan| == 1 == |next.plan|;
    assert !CancelledAt(env.world, 2);
    assert RunFrom(env, next, 1).progress.ops == next.ops;
    assert RunFrom(env, st, 0) == RunFrom(env, next, 1);
  }

  // ---------------------------------------------------------------------
  // What it leaves
  // ---------------------------------------------------------------------

  lemma LatestIsPublished(d: Disk, stage: string, key: string)
    requires UniqueIds(d) && NewerIsEmpty(d, stage, key) && Lookup(d, key).Some?
    ensures LatestIn(d, stage) == Lookup(d, key)
  {
    forall k | k in d.rows && d.rows[k].stage == stage && k != key ensures IsNewer(d.rows[key], d.rows[k]) {
      assert k !in NewerRows(d, key);
      NewerIsOrder(d.rows[k], d.rows[key], d.rows[k]);
    }
    assert IsLatestKey(d, stage, key);
    LatestIsUnique(d, stage, key);
  }

  lemma OpensAsPublished(law: Law, d: Disk, op: Op)
    requires Consistent(law, d) && DistinctIds(law.stageOf.Keys)
    requires op.Attempt? && op.finish.Commits? && Obeys(law, op) && Publishable(Contents(op.files), op.primary)
    ensures Open(Exec(d, OpSteps(d, op)), Artifact(IDForKey(op.key), op.stage, op.key)) == Some(Contents(op.files)[op.primary])
  {
    AfterCommit(law, d, op);
  }

  lemma StaysShelved(x: Bench, d: Disk, d': Disk, shelf: Shelf, more: Shelf, name: string)
    requires Shelved(x, d, shelf, name) && SameFor(d, d', name)
    requires (name in shelf <==> name in more) && (name in shelf ==> more[name] == shelf[name])
    ensures Shelved(x, d', more, name)
  {
    SameLatest(d, d', name);
    if name in shelf {
      var a := Kept(x, name);
      SameLookup(d, d', Keys(x)[name]);
      assert (a.stage, a.id) in d.dirs <==> (a.stage, a.id) in d'.dirs;
    }
  }

  /** After the run the shelf holds what the stage made, and the rest as before. */
  lemma SoloLeaves(x: Bench, stageOf: map<string, string>, d: Disk, shelf: Shelf, i: nat, source: string)
    requires GoodBench(x) && i < |x.all| && Holds(x, stageOf, d, shelf) && FiledUnder(x, stageOf)
    ensures Holds(x, stageOf, After(d, [Whole(SoloAttempt(x, shelf, i, source))]),
                  shelf[x.all[i].name := SoloPayload(x, shelf, i, source)])
  {
    var law, op, name := Keeping(stageOf), SoloAttempt(x, shelf, i, source), x.all[i].name;
    var more := shelf[name := SoloPayload(x, shelf, i, source)];
    SoloIsFree(x, stageOf, d, shelf, i, source);
    OneFile(SoloPayload(x, shelf, i, source));
    AfterTwo(d, Whole(op), Whole(op));
    var d' := After(d, [Whole(op)]);
    KeyOfStage(x, i);
    OpensAsPublished(law, d, op);
    CommitLeaves(law, d, op, name);
    LatestIsPublished(d', name, op.key);
    forall n ensures Shelved(x, d', more, n) {
      CommitLeaves(law, d, op, n);
      assert Shelved(x, d, shelf, n);
      if n != name { StaysShelved(x, d, d', shelf, more, n); }
    }
  }

  // ---------------------------------------------------------------------
  // One after the other
  // ---------------------------------------------------------------------

  /** Which stage is run, and with which source. */
  datatype Turn = Turn(stage: nat, source: string)

  ghost function ShelfAfter(x: Bench, turns: seq<Turn>): Shelf
    requires GoodBench(x)
    decreases |turns|
  {
    if turns == [] then map[]
    else
      var before, turn := ShelfAfter(x, turns[..|turns| - 1]), turns[|turns| - 1];
      if turn.stage >= |x.all| then before
      else before[x.all[turn.stage].name := SoloPayload(x, before, turn.stage, turn.source)]
  }

  /** Each stage is run when everything it depends on has been. */
  ghost predicate Playable(x: Bench, turns: seq<Turn>)
    requires GoodBench(x)
    decreases |turns|
  {
    turns == [] ||
    (var turn, before := turns[|turns| - 1], turns[..|turns| - 1];
     && Playable(x, before) && turn.stage < |x.all|
     && ReadyFor(x, ShelfAfter(x, before), turn.stage) && KeyedAlike(x, turn.stage, turn.source))
  }

  lemma GoodGrows(key: Keyer, sem: Semantics, use: Usage, stageOf: map<string, string>, actions: seq<Action>, a: Action)
    requires GoodHistory(key, sem, use, stageOf, actions)
    requires GoodAction(use, a) && CoversAction(key, sem, stageOf, HistoryOf(key, sem, actions), a)
    ensures GoodHistory(key, sem, use, stageOf, actions + [a])
    ensures HistoryOf(key, sem, actions + [a]) == Next(key, sem, HistoryOf(key, sem, actions), a)
  {
    var more := actions + [a];
    assert more[..|actions|] == actions;
    forall n | 0 <= n < |more|
      ensures GoodAction(use, more[n]) && CoversAction(key, sem, stageOf, HistoryOf(key, sem, more[..n]), more[n])
    {
      if n < |actions| {
        assert more[n] == actions[n] && more[..n] == actions[..n];
        assert GoodAction(use, actions[n]);
      }
    }
  }

  /** What the program has done and planned after these turns. */
  ghost predicate Played(x: Bench, use: Usage, stageOf: map<string, string>, turns: seq<Turn>, actions: seq<Action>) {
    && GoodBench(x) && GoodHistory(x.key, x.sem, use, stageOf, actions)
    && var past := HistoryOf(x.key, x.sem, actions);
       |past.plans| == |turns| && Holds(x, stageOf, After(EMPTY_DISK, past.ops), ShelfAfter(x, turns))
  }

  lemma SoloIsGood(x: Bench, use: Usage, i: nat, source: string)
    requires GoodBench(x) && i < |x.all| && source in use.sources && forall s | s in x.all :: s in use.stages
    ensures GoodAction(use, MakePlan(Solo(x, i, source), x.fps))
    ensures forall n: nat :: GoodAction(use, RunMade(n, Succeeding(x, i), None))
  {
  }

  /** One more turn: the stage is planned by itself. */
  lemma PlansOn(x: Bench, use: Usage, stageOf: map<string, string>, past: Past, shelf: Shelf, i: nat, source: string)
    requires GoodBench(x) && Holds(x, stageOf, After(EMPTY_DISK, past.ops), shelf)
    requires i < |x.all| && ReadyFor(x, shelf, i) && KeyedAlike(x, i, source)
    ensures Next(x.key, x.sem, past, MakePlan(Solo(x, i, source), x.fps))
         == past.(plans := past.plans + [Made(Solo(x, i, source), [SoloPlan(x, shelf, i)])])
  {
    PlansSolo(x, stageOf, After(EMPTY_DISK, past.ops), shelf, i, source);
  }

  /** And run. */
  lemma RunsOn(x: Bench, use: Usage, stageOf: map<string, string>, past: Past, shelf: Shelf, i: nat, source: string, n: nat)
    requires GoodBench(x) && Holds(x, stageOf, After(EMPTY_DISK, past.ops), shelf) && FiledUnder(x, stageOf)
    requires i < |x.all| && ReadyFor(x, shelf, i) && KeyedAlike(x, i, source)
    requires n < |past.plans| && past.plans[n] == Made(Solo(x, i, source), [SoloPlan(x, shelf, i)])
    ensures CoversAction(x.key, x.sem, stageOf, past, RunMade(n, Succeeding(x, i), None))
    ensures var next := Next(x.key, x.sem, past, RunMade(n, Succeeding(x, i), None));
            && next.plans == past.plans
            && Holds(x, stageOf, After(EMPTY_DISK, next.ops), shelf[x.all[i].name := SoloPayload(x, shelf, i, source)])
  {
    var d, ops := After(EMPTY_DISK, past.ops), [Whole(SoloAttempt(x, shelf, i, source))];
    RunsToEnd(x, stageOf, d, shelf, i, source);
    assert MadeOps(x.key, x.sem, d, past.plans[n], Succeeding(x, i)) == ops;
    KeyOfStage(x, i);
    AfterAppend(EMPTY_DISK, past.ops, ops);
    SoloLeaves(x, stageOf, d, shelf, i, source);
  }

  lemma PlaysOn(x: Bench, use: Usage, stageOf: map<string, string>, turns: seq<Turn>, actions: seq<Action>, turn: Turn)
    returns (more: seq<Action>)
    requires Played(x, use, stageOf, turns, actions) && FiledUnder(x, stageOf)
    requires turn.source in use.sources && forall s | s in x.all :: s in use.stages
    requires turn.stage < |x.all| && ReadyFor(x, ShelfAfter(x, turns), turn.stage) && KeyedAlike(x, turn.stage, turn.source)
    ensures Played(x, use, stageOf, turns + [turn], more)
  {
    var shelf, i := ShelfAfter(x, turns), turn.stage;
    var run := RunMade(|turns|, Succeeding(x, i), None);
    var planned := PlansNext(x, use, stageOf, turns, actions, turn);
    var past := HistoryOf(x.key, x.sem, planned);
    SoloIsGood(x, use, i, turn.source);
    RunsOn(x, use, stageOf, past, shelf, i, turn.source, |turns|);
    GoodGrows(x.key, x.sem, use, stageOf, planned, run);
    more := planned + [run];
    ShelfGrows(x, turns, turn);
  }

  /** The stage is planned on its own, and the store stays as it was. */
  lemma PlansNext(x: Bench, use: Usage, stageOf: map<string, string>, turns: seq<Turn>, actions: seq<Action>, turn: Turn)
    returns (planned: seq<Action>)
    requires Played(x, use, stageOf, turns, actions) && turn.source in use.sources && forall s | s in x.all :: s in use.stages
    requires turn.stage < |x.all| && ReadyFor(x, ShelfAfter(x, turns), turn.stage) && KeyedAlike(x, turn.stage, turn.source)
    ensures GoodHistory(x.key, x.sem, use, stageOf, planned)
    ensures var past, now := HistoryOf(x.key, x.sem, actions), HistoryOf(x.key, x.sem, planned);
            now == past.(plans := past.plans + [Made(Solo(x, turn.stage, turn.source),
                                                     [SoloPlan(x, ShelfAfter(x, turns), turn.stage)])])
  {
    var past := HistoryOf(x.key, x.sem, actions);
    var plan := MakePlan(Solo(x, turn.stage, turn.source), x.fps);
    SoloIsGood(x, use, turn.stage, turn.source);
    GoodGrows(x.key, x.sem, use, stageOf, actions, plan);
    PlansOn(x, use, stageOf, past, ShelfAfter(x, turns), turn.stage, turn.source);
    planned := actions + [plan];
  }

  lemma ShelfGrows(x: Bench, turns: seq<Turn>, turn: Turn)
    requires GoodBench(x) && turn.stage < |x.all|
    ensures ShelfAfter(x, turns + [turn])
         == ShelfAfter(x, turns)[x.all[turn.stage].name := SoloPayload(x, ShelfAfter(x, turns), turn.stage, turn.source)]
  {
    assert (turns + [turn])[..|turns|] == turns;
  }

  lemma NothingYet(x: Bench, use: Usage, stageOf: map<string, string>)
    requires GoodBench(x)
    ensures Played(x, use, stageOf, [], [])
  {
    assert After(EMPTY_DISK, []) == EMPTY_DISK;
    forall name ensures Shelved(x, EMPTY_DISK, map[], name) {}
  }

  lemma LastTurn(turns: seq<Turn>)
    requires turns != []
    ensures var n := |turns| - 1;
            turns[..n] + [turns[n]] == turns && turns[n] in turns && forall turn | turn in turns[..n] :: turn in turns
  {
  }

  /** Any such sequence of turns is a history of the program: each stage is
      planned by itself, and run; and what is left is what each made last. */
  lemma {:induction false} Plays(x: Bench, use: Usage, stageOf: map<string, string>, turns: seq<Turn>)
    returns (actions: seq<Action>)
    requires GoodBench(x) && Playable(x, turns) && FiledUnder(x, stageOf) && forall s | s in x.all :: s in use.stages
    requires forall turn | turn in turns :: turn.source in use.sources
    ensures Played(x, use, stageOf, turns, actions)
    decreases |turns|
  {
    if turns == [] {
      NothingYet(x, use, stageOf);
      actions := [];
    } else {
      var n := |turns| - 1;
      LastTurn(turns);
      var before := Plays(x, use, stageOf, turns[..n]);
      actions := PlaysOn(x, use, stageOf, turns[..n], before, turns[n]);
    }
  }

  // ---------------------------------------------------------------------
  // Planning everything afterwards
  // ---------------------------------------------------------------------

  ghost function Entry(x: Bench, i: nat): Planned
    requires ValidRegistry(x.all) && i < |x.all|
  {
    KeyOfStage(x, i);
    var name := x.all[i].name;
    FreshPlan(x.all[i], i + 1).(key := Keys(x)[name], state := Cached, artifact := Some(Kept(x, name)))
  }

  ghost function Entries(x: Bench, n: nat): seq<Planned>
    requires ValidRegistry(x.all) && n <= |x.all|
  {
    seq(n, i requires 0 <= i < n => Entry(x, i))
  }

  ghost function Everything(x: Bench, n: nat): seq<Selected>
    requires n <= |x.all|
  {
    seq(n, i requires 0 <= i < n => Selected(x.all[i], i + 1))
  }

  lemma {:induction false} ChosenAll(x: Bench, want: (Stage, nat) -> bool, n: nat)
    requires n <= |x.all| && forall o | 0 <= o < |x.all| :: want(x.all[o], o + 1)
    ensures Chosen(x.all, n, want) == Everything(x, n)
    decreases n
  {
    if n > 0 {
      ChosenAll(x, want, n - 1);
      assert want(x.all[n - 1], n - 1 + 1);
      ChosenNext(x.all, want, n);
      assert Everything(x, n - 1) + [Selected(x.all[n - 1], n)] == Everything(x, n);
    }
  }

  lemma SelectsEverything(x: Bench)
    requires x.all != []
    ensures Selection(Full(x)) == Ok(Everything(x, |x.all|))
  {
    var opts := Full(x);
    assert opts.fromStage == "" && opts.toStage == "" && From(opts) == 1 && To(opts) == |x.all|;
    forall o | 0 <= o < |x.all| ensures InRange(opts)(x.all[o], o + 1) {
      assert x.all[o].name !in opts.disabled;
    }
    ChosenAll(x, InRange(opts), |x.all|);
  }

  /** The stages before this one, each with its artifact. */
  ghost predicate Before(x: Bench, n: nat, before: ByStage)
    requires ValidRegistry(x.all) && n <= |x.all|
  {
    && (forall name | name in before :: exists j | 0 <= j < n :: x.all[j].name == name)
    && (forall j | 0 <= j < n :: x.all[j].name in before && before[x.all[j].name] == Entry(x, j))
  }

  lemma EntriesByName(x: Bench, n: nat)
    requires ValidRegistry(x.all) && n <= |x.all|
    ensures Before(x, n, ByName(Entries(x, n)))
  {
    var plan := Entries(x, n);
    assert NamesDiffer(plan);
    FindByName(plan);
    forall j | 0 <= j < n ensures x.all[j].name in ByName(plan) && ByName(plan)[x.all[j].name] == Entry(x, j) {
      assert plan[j] == Entry(x, j) && plan[j].stage == x.all[j];
    }
    forall name | name in ByName(plan) ensures exists j | 0 <= j < n :: x.all[j].name == name {
      var j :| 0 <= j < n && plan[j].stage.name == name;
      assert x.all[j].name == name;
    }
  }

  /** What stage `n` sees of one of its dependencies. */
  lemma SeesDependency(x: Bench, n: nat, before: ByStage, dep: string)
    requires ValidRegistry(x.all) && n < |x.all| && Before(x, n, before) && dep in Dependencies(x.all[n])
    ensures dep != x.all[n].name && (dep in before <==> dep in Keys(x))
    ensures dep in x.all[n].depends ==> dep in before
    ensures dep in before ==>
              before[dep].state == Cached && before[dep].artifact == Some(Kept(x, dep)) && before[dep].key == Keys(x)[dep]
  {
    NotItsOwn(x, n, dep);
    KeysToHas(x, |x.all|, dep);
    if dep in Keys(x) {
      var j :| 0 <= j < |x.all| && x.all[j].name == dep;
      DependenciesComeEarlier(x.all, n, j);
      assert before[x.all[j].name] == Entry(x, j);
    }
  }

  lemma SeesEverything(x: Bench, stageOf: map<string, string>, d: Disk, shelf: Shelf, n: nat, before: ByStage)
    requires ValidRegistry(x.all) && n < |x.all| && Before(x, n, before)
    requires Holds(x, stageOf, d, shelf) && shelf.Keys == Keys(x).Keys && (forall k | k in Keys(x) :: Keys(x)[k] != "")
    ensures var seen := before[x.all[n].name := FreshPlan(x.all[n], n + 1)];
            && BlockedBy(x.all[n], seen).None? && ExternalInputs(d, x.all[n], seen) == map[]
            && Unsatisfied(x.all[n], seen, map[]).None?
            && UpstreamKeys(x.all[n], seen, map[]) == Of(Keys(x), Dependencies(x.all[n]))
  {
    var s := x.all[n];
    var seen := before[s.name := FreshPlan(s, n + 1)];
    forall dep | dep in Dependencies(s) ensures SeenWell(x, d, n, seen, dep) {
      SeesOne(x, stageOf, d, shelf, n, before, dep);
    }
    SeenTogether(x, d, n, seen);
  }

  lemma SeesOne(x: Bench, stageOf: map<string, string>, d: Disk, shelf: Shelf, n: nat, before: ByStage, dep: string)
    requires ValidRegistry(x.all) && n < |x.all| && Before(x, n, before) && dep in Dependencies(x.all[n])
    requires Holds(x, stageOf, d, shelf) && shelf.Keys == Keys(x).Keys && (forall k | k in Keys(x) :: Keys(x)[k] != "")
    ensures SeenWell(x, d, n, before[x.all[n].name := FreshPlan(x.all[n], n + 1)], dep)
  {
    SeesDependency(x, n, before, dep);
    assert Shelved(x, d, shelf, dep);
  }

  /** A dependency is seen with its artifact, or there is none of it at all. */
  ghost predicate SeenWell(x: Bench, d: Disk, n: nat, seen: ByStage, dep: string)
    requires n < |x.all|
  {
    && (dep in seen || LatestIn(d, dep).None?) && (dep in x.all[n].depends ==> dep in seen)
    && (dep in seen ==> !seen[dep].state.Unusable() && seen[dep].artifact.Some?)
    && UpstreamKey(dep, seen, map[]) == (if dep in Keys(x) then Some(Keys(x)[dep]) else None)
  }

  lemma SeenTogether(x: Bench, d: Disk, n: nat, seen: ByStage)
    requires n < |x.all| && forall dep | dep in Dependencies(x.all[n]) :: SeenWell(x, d, n, seen, dep)
    ensures BlockedBy(x.all[n], seen).None? && ExternalInputs(d, x.all[n], seen) == map[]
    ensures Unsatisfied(x.all[n], seen, map[]).None?
    ensures UpstreamKeys(x.all[n], seen, map[]) == Of(Keys(x), Dependencies(x.all[n]))
  {
    forall dep | dep in x.all[n].depends ensures dep in Dependencies(x.all[n]) {}
    NothingBlocks(x.all[n], seen);
    assert ExternalInputs(d, x.all[n], seen).Keys == {};
  }

  lemma PlansCached(x: Bench, stageOf: map<string, string>, d: Disk, shelf: Shelf, n: nat, before: ByStage)
    requires GoodBench(x) && n < |x.all| && Before(x, n, before)
    requires Holds(x, stageOf, d, shelf) && shelf.Keys == Keys(x).Keys && (forall k | k in Keys(x) :: Keys(x)[k] != "")
    ensures PlanStage(x.key, d, Full(x), x.fps, before, Selected(x.all[n], n + 1)) == Ok(Entry(x, n))
  {
    SeesEverything(x, stageOf, d, shelf, n, before);
    KeyOfStage(x, n);
    assert Shelved(x, d, shelf, x.all[n].name);
    HitEntry(x, d, n, before);
  }

  lemma HitEntry(x: Bench, d: Disk, n: nat, before: ByStage)
    requires GoodBench(x) && n < |x.all| && x.all[n].name in Keys(x)
    requires var seen := before[x.all[n].name := FreshPlan(x.all[n], n + 1)];
             && BlockedBy(x.all[n], seen).None? && ExternalInputs(d, x.all[n], seen) == map[]
             && Unsatisfied(x.all[n], seen, map[]).None?
             && UpstreamKeys(x.all[n], seen, map[]) == Of(Keys(x), Dependencies(x.all[n]))
    requires Lookup(d, Keys(x)[x.all[n].name]) == Some(Kept(x, x.all[n].name))
    ensures PlanStage(x.key, d, Full(x), x.fps, before, Selected(x.all[n], n + 1)) == Ok(Entry(x, n))
  {
    FullKey(x, n);
    HitStage(x.key, d, Full(x), x.fps, before, Selected(x.all[n], n + 1), map[]);
  }

  lemma FullKey(x: Bench, i: nat)
    requires GoodBench(x) && i < |x.all|
    ensures x.all[i].name in x.fps && Subtree(x.all[i], Full(x)).Canonical? && x.all[i].name in Keys(x)
    ensures x.key(KeyInputsOf(x.all[i], Full(x), x.fps[x.all[i].name], Of(Keys(x), Dependencies(x.all[i]))))
         == Keys(x)[x.all[i].name]
  {
    KeyOfStage(x, i);
    assert x.all[i] in x.all;
  }

  lemma NothingBlocks(s: Stage, seen: ByStage)
    requires forall dep | dep in s.depends :: dep in seen && !seen[dep].state.Unusable() && seen[dep].artifact.Some?
    ensures BlockedBy(s, seen).None? && Unsatisfied(s, seen, map[]).None?
  {
    FirstEndedMeans(s.depends, seen);
    FirstMissingMeans(s.depends, seen, map[]);
  }

  lemma PlansNextCached(x: Bench, stageOf: map<string, string>, d: Disk, shelf: Shelf, m: nat)
    requires GoodBench(x) && m < |x.all|
    requires Holds(x, stageOf, d, shelf) && shelf.Keys == Keys(x).Keys && (forall k | k in Keys(x) :: Keys(x)[k] != "")
    requires PlanStages(x.key, d, Full(x), x.fps, Everything(x, m)) == Ok(Entries(x, m))
    ensures PlanStages(x.key, d, Full(x), x.fps, Everything(x, m + 1)) == Ok(Entries(x, m + 1))
  {
    EntriesByName(x, m);
    PlansCached(x, stageOf, d, shelf, m, ByName(Entries(x, m)));
    GrowByOne(x, m);
    OneMorePlanned(x.key, d, Full(x), x.fps, Everything(x, m + 1), m, Entries(x, m), Entry(x, m));
  }

  lemma {:induction false} PlansAllCached(x: Bench, stageOf: map<string, string>, d: Disk, shelf: Shelf, n: nat)
    requires GoodBench(x) && n <= |x.all|
    requires Holds(x, stageOf, d, shelf) && shelf.Keys == Keys(x).Keys && (forall k | k in Keys(x) :: Keys(x)[k] != "")
    ensures PlanStages(x.key, d, Full(x), x.fps, Everything(x, n)) == Ok(Entries(x, n))
    decreases n
  {
    if n == 0 {
      assert Everything(x, 0) == [] && Entries(x, 0) == [];
    } else {
      PlansAllCached(x, stageOf, d, shelf, n - 1);
      PlansNextCached(x, stageOf, d, shelf, n - 1);
    }
  }

  lemma GrowByOne(x: Bench, m: nat)
    requires ValidRegistry(x.all) && m < |x.all|
    ensures Everything(x, m + 1)[..m] == Everything(x, m) && Everything(x, m + 1)[..m + 1] == Everything(x, m + 1)
    ensures Everything(x, m + 1)[m] == Selected(x.all[m], m + 1)
    ensures Entries(x, m + 1) == Entries(x, m) + [Entry(x, m)]
  {
  }

  lemma StageNamed(x: Bench, name: string) returns (j: nat)
    requires name in Keys(x)
    ensures j < |x.all| && x.all[j].name == name
  {
    KeysToHas(x, |x.all|, name);
    j :| 0 <= j < |x.all| && x.all[j].name == name;
  }

  lemma HandedOne(x: Bench, planned: ByStage, dep: string)
    requires ValidRegistry(x.all) && Before(x, |x.all|, planned)
    ensures InputOf(dep, planned, map[]) == if dep in Keys(x) then Some(Kept(x, dep)) else None
  {
    if dep in Keys(x) {
      var j := StageNamed(x, dep);
      assert planned[x.all[j].name] == Entry(x, j);
    } else if dep in planned {
      var j :| 0 <= j < |x.all| && x.all[j].name == dep;
      KeyOfStage(x, j);
    }
  }

  /** What a stage would be handed afterwards is what the shelf holds. */
  lemma InputsAreFound(x: Bench, shelf: Shelf, q: nat, planned: ByStage)
    requires q < |x.all| && shelf.Keys == Keys(x).Keys
    requires forall dep | dep in Dependencies(x.all[q]) ::
               InputOf(dep, planned, map[]) == if dep in Keys(x) then Some(Kept(x, dep)) else None
    ensures Inputs(x.all[q], planned, map[]) == Found(x, shelf, q)
  {
  }

  lemma HandedAfterwards(x: Bench, shelf: Shelf, q: nat)
    requires ValidRegistry(x.all) && q < |x.all| && shelf.Keys == Keys(x).Keys
    ensures var plan := Entries(x, |x.all|); HandedInputs(plan, plan, q) == Found(x, shelf, q)
  {
    var plan := Entries(x, |x.all|);
    EntriesByName(x, |x.all|);
    EntryAt(x, q);
    forall dep | dep in Dependencies(x.all[q])
      ensures InputOf(dep, ByName(plan), map[]) == if dep in Keys(x) then Some(Kept(x, dep)) else None
    {
      HandedOne(x, ByName(plan), dep);
    }
    InputsAreFound(x, shelf, q, ByName(plan));
  }

  lemma EntryAt(x: Bench, q: nat)
    requires ValidRegistry(x.all) && q < |x.all|
    ensures Entries(x, |x.all|)[q] == Entry(x, q) && Entry(x, q).stage == x.all[q] && Entry(x, q).external == map[]
  {
  }

  lemma KeyAfterIsHex(x: Bench, i: nat, before: map<string, string>)
    requires GoodBench(x) && i < |x.all| && forall name | name in before :: IsHex(before[name])
    ensures KeyAfter(x, i, before) != "" && IsHex(KeyAfter(x, i, before))
  {
    var s, up := x.all[i], Of(before, Dependencies(x.all[i]));
    assert s in x.all && CleanFingerprint(x.fps[s.name]);
    PlannedInputsAreWellFormed(x.key, s, Full(x), x.fps[s.name], up);
  }

  /** Every key of the registry is written in hex, and is not empty. */
  lemma {:induction false} KeysAreHex(x: Bench, n: nat)
    requires GoodBench(x) && n <= |x.all|
    ensures forall name | name in KeysTo(x, n) :: KeysTo(x, n)[name] != "" && IsHex(KeysTo(x, n)[name])
  {
    if n > 0 {
      KeysAreHex(x, n - 1);
      KeyAfterIsHex(x, n - 1, KeysTo(x, n - 1));
    }
  }

  /** Different stages have different keys. */
  lemma KeysDiffer(x: Bench, i: nat, j: nat)
    requires GoodBench(x) && i < |x.all| && j < |x.all|
    ensures x.all[i].name in Keys(x) && x.all[j].name in Keys(x)
    ensures Keys(x)[x.all[i].name] == Keys(x)[x.all[j].name] ==> x.all[i].name == x.all[j].name
  {
    KeysAreHex(x, |x.all|);
    KeyIsOfItsStage(x, i);
    KeyIsOfItsStage(x, j);
  }

  lemma KeyIsOfItsStage(x: Bench, i: nat)
    requires GoodBench(x) && i < |x.all|
    requires forall name | name in Keys(x) :: IsHex(Keys(x)[name])
    ensures x.all[i].name in Keys(x)
    ensures exists inputs :: WellFormed(inputs) && x.key(inputs) == Keys(x)[x.all[i].name] && inputs.stage == x.all[i].name
  {
    var s, up := x.all[i], Of(Keys(x), Dependencies(x.all[i]));
    FullKey(x, i);
    assert s in x.all && CleanFingerprint(x.fps[s.name]);
    PlannedInputsAreWellFormed(x.key, s, Full(x), x.fps[s.name], up);
  }

  /** The stage of each key. */
  ghost function Filing(x: Bench): map<string, string> {
    map k | k in Keys(x).Values :: NameOf(x, k)
  }

  ghost function NameOf(x: Bench, k: string): string
    requires k in Keys(x).Values
  {
    var name :| name in Keys(x) && Keys(x)[name] == k;
    name
  }

  lemma FilingFiles(x: Bench)
    requires GoodBench(x) && DistinctIds(Keys(x).Values)
    ensures FiledUnder(x, Filing(x))
  {
    assert Filing(x).Keys == Keys(x).Values;
    forall name | name in Keys(x) ensures Keys(x)[name] in Filing(x) && Filing(x)[Keys(x)[name]] == name {
      var other := NameOf(x, Keys(x)[name]);
      KeysToHas(x, |x.all|, name);
      KeysToHas(x, |x.all|, other);
      var i :| 0 <= i < |x.all| && x.all[i].name == name;
      var j :| 0 <= j < |x.all| && x.all[j].name == other;
      KeysDiffer(x, i, j);
    }
  }
}
