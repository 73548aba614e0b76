/** Where artifacts come from: what a run publishes is what its key defines. */
module Provenance {
  import opened ArtifactHash
  import opened KeyTrees
  import opened ArtifactStore
  import opened StoreSafety
  import opened Planning
  import opened Execution

  // ---------------------------------------------------------------------
  // What is assumed of the registry, the configuration and the stages
  // ---------------------------------------------------------------------

  ghost predicate CleanStage(s: Stage) {
    && SEPARATOR !in s.name && SEPARATOR !in s.version
    && forall dep | dep in Dependencies(s) :: SEPARATOR !in dep
  }

  ghost predicate CleanFingerprint(fp: map<string, string>) {
    forall k | k in fp :: SEPARATOR !in k && '=' !in k && SEPARATOR !in fp[k]
  }

  /** The separator occurs in no name, revision, configuration or fingerprint. */
  ghost predicate CleanOptions(opts: Options) {
    && (forall s | s in opts.registry :: CleanStage(s))
    && SEPARATOR !in opts.revision
    && (forall n | n in opts.config :: opts.config[n].Canonical? ==> SEPARATOR !in opts.config[n].text)
  }

  ghost predicate CleanFingerprints(fps: Fingerprints) {
    forall n | n in fps :: CleanFingerprint(fps[n])
  }

  // ---------------------------------------------------------------------
  // What a store was used with
  // ---------------------------------------------------------------------

  /** The source media and the declarations of stages a store was ever used with. */
  datatype Usage = Usage(sources: set<string>, stages: set<Stage>)

  ghost predicate Uses(use: Usage, opts: Options) {
    opts.source in use.sources && forall s | s in opts.registry :: s in use.stages
  }

  /** The root of the tree is as this stage would be keyed. */
  ghost predicate Declares(use: Usage, s: Stage, t: KeyTree) {
    && t.recipe.stage == s.name && (forall dep | dep in t.upstream :: dep in Dependencies(s))
    && if "probe" in s.depends then t.source in use.sources else t.source == ""
  }

  /** Every node of the tree was keyed by one of the declared stages. */
  ghost predicate Fits(use: Usage, t: KeyTree)
    decreases t, 1
  {
    (exists s :: s in use.stages && Declares(use, s, t)) && FitsUpstream(use, t)
  }

  ghost predicate FitsUpstream(use: Usage, t: KeyTree)
    decreases t, 0
  {
    forall dep | dep in t.upstream :: t.upstream[dep].recipe.stage == dep && Fits(use, t.upstream[dep])
  }

  // ---------------------------------------------------------------------
  // Keys and directories with a meaning
  // ---------------------------------------------------------------------

  ghost predicate HasTree(key: Keyer, k: string, stage: string) {
    exists t: KeyTree :: GoodTree(t) && Digest(key, t) == k && t.recipe.stage == stage
  }

  ghost function TreeOf(key: Keyer, k: string, stage: string): (t: KeyTree)
    requires HasTree(key, k, stage)
    ensures GoodTree(t) && Digest(key, t) == k && t.recipe.stage == stage
  {
    var t: KeyTree :| GoodTree(t) && Digest(key, t) == k && t.recipe.stage == stage;
    t
  }

  /** The key's tree is made of the stages and sources in use. */
  ghost predicate HasFittingTree(key: Keyer, use: Usage, k: string, stage: string) {
    exists t: KeyTree :: GoodTree(t) && Fits(use, t) && Digest(key, t) == k && t.recipe.stage == stage
  }

  lemma FittingTreeFits(key: Keyer, use: Usage, k: string, stage: string, t: KeyTree)
    requires IdentifiesInputs(key) && HasFittingTree(key, use, k, stage) && GoodTree(t) && Digest(key, t) == k
    ensures Fits(use, t) && t.recipe.stage == stage
  {
    var u: KeyTree :| GoodTree(u) && Fits(use, u) && Digest(key, u) == k && u.recipe.stage == stage;
    DigestIsInjective(key, t, u);
  }

  /** The directory's primary payload is one its key defines. */
  ghost predicate HoldsItsPayload(key: Keyer, sem: Semantics, use: Usage, dir: Dir) {
    && dir.manifest.Some? && dir.manifest.value.primary in dir.files
    && exists t: KeyTree :: GoodTree(t) && Fits(use, t) && Digest(key, t) == dir.manifest.value.key
         && t.recipe.stage == dir.manifest.value.stage
         && Derives(sem, use.sources, t, dir.files[dir.manifest.value.primary])
  }

  ghost function Lawbook(key: Keyer, sem: Semantics, use: Usage, stageOf: map<string, string>): Law {
    Law(stageOf, (dir: Dir) => HoldsItsPayload(key, sem, use, dir))
  }

  /** The artifact was keyed in this store, and its key has a tree. */
  ghost predicate Known(key: Keyer, use: Usage, stageOf: map<string, string>, a: Artifact) {
    && a.key in stageOf && a.stage == stageOf[a.key] && a.id == IDForKey(a.key)
    && HasTree(key, a.key, a.stage) && HasFittingTree(key, use, a.key, a.stage)
  }

  ghost predicate AllKnown(key: Keyer, use: Usage, stageOf: map<string, string>, inputs: map<string, Artifact>) {
    forall dep | dep in inputs :: Known(key, use, stageOf, inputs[dep])
  }

  /** What Lookup finds is known. */
  lemma HitsAreKnown(key: Keyer, sem: Semantics, use: Usage, stageOf: map<string, string>, d: Disk, k: string)
    requires DistinctIds(stageOf.Keys) && Consistent(Lawbook(key, sem, use, stageOf), d)
    ensures Lookup(d, k).Some? ==> Lookup(d, k).value.key == k && Known(key, use, stageOf, Lookup(d, k).value)
  {
    var law := Lawbook(key, sem, use, stageOf);
    HitsOpen(law, d, k);
    if Lookup(d, k).Some? {
      var a := Lookup(d, k).value;
      assert RowFits(law, k, d.rows[k], d.clock);
      assert PublishedAt(law, (a.stage, a.id), d.dirs[(a.stage, a.id)]);
      var dir := d.dirs[(a.stage, a.id)];
      assert HoldsItsPayload(key, sem, use, dir);
      var t: KeyTree :| GoodTree(t) && Fits(use, t) && Digest(key, t) == k && t.recipe.stage == a.stage
                        && Derives(sem, use.sources, t, dir.files[dir.manifest.value.primary]);
      assert HasTree(key, k, a.stage) && HasFittingTree(key, use, k, a.stage);
    }
  }

  /** What is read through a known artifact is what its key defines. */
  lemma OpenYieldsPayload(key: Keyer, sem: Semantics, use: Usage, stageOf: map<string, string>, d: Disk,
                          a: Artifact, t: KeyTree)
    requires IdentifiesInputs(key) && DistinctIds(stageOf.Keys)
    requires Consistent(Lawbook(key, sem, use, stageOf), d) && Known(key, use, stageOf, a)
    requires GoodTree(t) && Digest(key, t) == a.key
    ensures Open(d, a).Some? ==> Derives(sem, use.sources, t, Open(d, a).value)
  {
    if Open(d, a).Some? {
      var law := Lawbook(key, sem, use, stageOf);
      var dir := d.dirs[(a.stage, a.id)];
      assert PublishedAt(law, (a.stage, a.id), dir);
      assert dir.manifest.value.key == a.key;
      assert HoldsItsPayload(key, sem, use, dir);
      var u: KeyTree :| GoodTree(u) && Digest(key, u) == a.key
                        && u.recipe.stage == a.stage
                        && Derives(sem, use.sources, u, dir.files[dir.manifest.value.primary]);
      DigestIsInjective(key, t, u);
    }
  }

  // ---------------------------------------------------------------------
  // One stage: its key is a tree's key, its product that tree's payload
  // ---------------------------------------------------------------------

  ghost predicate InputsHaveTrees(key: Keyer, inputs: map<string, Artifact>) {
    forall dep | dep in inputs :: HasTree(key, inputs[dep].key, inputs[dep].stage)
  }

  ghost function InputTrees(key: Keyer, inputs: map<string, Artifact>): map<string, KeyTree>
    requires InputsHaveTrees(key, inputs)
  {
    map dep | dep in inputs :: TreeOf(key, inputs[dep].key, inputs[dep].stage)
  }

  ghost function RunTree(key: Keyer, s: Stage, opts: Options, fp: map<string, string>, inputs: map<string, Artifact>): KeyTree
    requires InputsHaveTrees(key, inputs) && Subtree(s, opts).Canonical?
  {
    KeyTree(RecipeOf(s, opts, fp), InputTrees(key, inputs), SourceFor(s, opts))
  }

  lemma KnownHaveTrees(key: Keyer, use: Usage, stageOf: map<string, string>, inputs: map<string, Artifact>)
    requires AllKnown(key, use, stageOf, inputs)
    ensures InputsHaveTrees(key, inputs)
  {
    forall dep | dep in inputs ensures HasTree(key, inputs[dep].key, inputs[dep].stage) {
      assert Known(key, use, stageOf, inputs[dep]);
    }
  }

  lemma RunTreeIsGood(key: Keyer, s: Stage, opts: Options, fp: map<string, string>, inputs: map<string, Artifact>)
    requires InputsHaveTrees(key, inputs)
    requires s in opts.registry && CleanOptions(opts) && CleanFingerprint(fp) && Subtree(s, opts).Canonical?
    requires forall dep | dep in inputs :: dep in Dependencies(s)
    ensures GoodTree(RunTree(key, s, opts, fp, inputs))
  {
    var t := RunTree(key, s, opts, fp, inputs);
    assert CleanStage(s);
    assert GoodRecipe(t.recipe);
    assert GoodUpstream(t) by {
      forall dep | dep in t.upstream ensures SEPARATOR !in dep && GoodTree(t.upstream[dep]) {
        assert dep in Dependencies(s);
        assert t.upstream[dep] == TreeOf(key, inputs[dep].key, inputs[dep].stage);
      }
    }
  }

  lemma TreeDigest(key: Keyer, inputs: map<string, Artifact>, dep: string)
    requires InputsHaveTrees(key, inputs) && dep in inputs
    ensures Digest(key, InputTrees(key, inputs)[dep]) == inputs[dep].key
  {
    assert InputTrees(key, inputs)[dep] == TreeOf(key, inputs[dep].key, inputs[dep].stage);
  }

  /** Each input is an artifact of the dependency it stands for. */
  ghost predicate OwnInputs(s: Stage, inputs: map<string, Artifact>) {
    forall dep | dep in inputs :: dep in Dependencies(s) && inputs[dep].stage == dep
  }

  lemma RunTreeFits(key: Keyer, use: Usage, stageOf: map<string, string>, s: Stage, opts: Options, fp: map<string, string>,
                    inputs: map<string, Artifact>)
    requires IdentifiesInputs(key) && InputsHaveTrees(key, inputs) && AllKnown(key, use, stageOf, inputs)
    requires OwnInputs(s, inputs) && s in use.stages && opts.source in use.sources && Subtree(s, opts).Canonical?
    ensures Fits(use, RunTree(key, s, opts, fp, inputs))
  {
    var t := RunTree(key, s, opts, fp, inputs);
    assert Declares(use, s, t);
    forall dep | dep in t.upstream ensures t.upstream[dep].recipe.stage == dep && Fits(use, t.upstream[dep]) {
      var a := inputs[dep];
      assert Known(key, use, stageOf, a);
      FittingTreeFits(key, use, a.key, a.stage, TreeOf(key, a.key, a.stage));
    }
  }

  lemma InputTreesDigest(key: Keyer, t: KeyTree, inputs: map<string, Artifact>)
    requires InputsHaveTrees(key, inputs) && t.upstream == InputTrees(key, inputs)
    ensures UpstreamDigests(key, t) == KeysOf(inputs)
  {
    forall dep | dep in inputs ensures Digest(key, t.upstream[dep]) == inputs[dep].key {
      TreeDigest(key, inputs, dep);
    }
  }

  /** The key a stage runs under is the key of the tree over its inputs' trees. */
  lemma RunKeyIsDigest(key: Keyer, s: Stage, opts: Options, fp: map<string, string>, inputs: map<string, Artifact>)
    requires InputsHaveTrees(key, inputs) && Subtree(s, opts).Canonical?
    ensures Digest(key, RunTree(key, s, opts, fp, inputs)) == key(KeyInputsOf(s, opts, fp, KeysOf(inputs)))
  {
    var t := RunTree(key, s, opts, fp, inputs);
    InputTreesDigest(key, t, inputs);
    assert InputsFor(t.recipe, KeysOf(inputs), t.source) == KeyInputsOf(s, opts, fp, KeysOf(inputs));
  }

  lemma ReadIsPayload(key: Keyer, sem: Semantics, use: Usage, stageOf: map<string, string>, d: Disk,
                      inputs: map<string, Artifact>, dep: string)
    requires IdentifiesInputs(key) && DistinctIds(stageOf.Keys)
    requires Consistent(Lawbook(key, sem, use, stageOf), d) && AllKnown(key, use, stageOf, inputs)
    requires Readable(d, inputs) && InputsHaveTrees(key, inputs) && dep in inputs
    ensures Derives(sem, use.sources, InputTrees(key, inputs)[dep], ReadAll(d, inputs)[dep])
  {
    assert Known(key, use, stageOf, inputs[dep]) && Open(d, inputs[dep]).Some?;
    var t := TreeOf(key, inputs[dep].key, inputs[dep].stage);
    OpenYieldsPayload(key, sem, use, stageOf, d, inputs[dep], t);
  }

  /** What a stage reads is what its inputs' keys define. */
  lemma {:induction false} ReadsArePayloads(key: Keyer, sem: Semantics, use: Usage, stageOf: map<string, string>,
                                            d: Disk, inputs: map<string, Artifact>, t: KeyTree)
    requires IdentifiesInputs(key) && DistinctIds(stageOf.Keys)
    requires Consistent(Lawbook(key, sem, use, stageOf), d) && AllKnown(key, use, stageOf, inputs)
    requires Readable(d, inputs) && InputsHaveTrees(key, inputs) && t.upstream == InputTrees(key, inputs)
    ensures DerivesAll(sem, use.sources, t, ReadAll(d, inputs))
  {
    var read, trees := ReadAll(d, inputs), InputTrees(key, inputs);
    assert read.Keys == inputs.Keys == trees.Keys;
    forall dep | dep in inputs ensures Derives(sem, use.sources, trees[dep], read[dep]) {
      ReadIsPayload(key, sem, use, stageOf, d, inputs, dep);
    }
  }

  /** What a stage computes is the payload its key defines. */
  lemma ProductIsPayload(key: Keyer, sem: Semantics, use: Usage, stageOf: map<string, string>, d: Disk,
                         s: Stage, opts: Options, w: World, inputs: map<string, Artifact>)
    requires IdentifiesInputs(key) && DistinctIds(stageOf.Keys)
    requires Consistent(Lawbook(key, sem, use, stageOf), d) && AllKnown(key, use, stageOf, inputs)
    requires Subtree(s, opts).Canonical? && Readable(d, inputs) && opts.source in use.sources
    requires InputsHaveTrees(key, inputs)
    ensures Derives(sem, use.sources, RunTree(key, s, opts, RunFingerprint(w, s.name), inputs),
                    Product(sem, opts, w, d, s, inputs))
  {
    var t := RunTree(key, s, opts, RunFingerprint(w, s.name), inputs);
    ReadsArePayloads(key, sem, use, stageOf, d, inputs, t);
    assert KeyAllows(use.sources, t, opts.source);
  }

  // ---------------------------------------------------------------------
  // One stage's store operations obey the law
  // ---------------------------------------------------------------------

  ghost predicate Covers(stageOf: map<string, string>, ops: seq<Run>) {
    forall i | 0 <= i < |ops| && ops[i].op.Attempt? ::
      ops[i].op.key in stageOf && stageOf[ops[i].op.key] == ops[i].op.stage
  }

  ghost predicate RunnableStage(env: Env, use: Usage, s: Stage) {
    s in env.opts.registry && Uses(use, env.opts)
  }

  ghost predicate CleanEnv(env: Env) {
    IdentifiesInputs(env.key) && CleanOptions(env.opts) && CleanFingerprints(env.world.fps)
  }

  /** Publishing the payload a key defines obeys the law of that key. */
  lemma CommitObeys(key: Keyer, sem: Semantics, use: Usage, stageOf: map<string, string>,
                    t: KeyTree, stage: string, o: Outcome, c: Content)
    requires o.Succeeds? && Fits(use, t) && Derives(sem, use.sources, t, c)
    requires GoodTree(t) && Digest(key, t) in stageOf && stageOf[Digest(key, t)] == stage == t.recipe.stage
    ensures Obeys(Lawbook(key, sem, use, stageOf),
                  Attempt(stage, Digest(key, t), FilesOf(o, c), o.primary, Commits))
  {
    var files := FilesOf(o, c);
    if Publishable(Contents(files), o.primary) {
      assert files[..|files| - 1] == o.written;
      assert Contents(files)[o.primary] == c;
      var dir := PublishedDir(stage, Digest(key, t), Contents(files), o.primary);
      assert HoldsItsPayload(key, sem, use, dir);
    }
  }

  /** A stage that succeeds offers what its key defines. */
  lemma SuccessObeys(env: Env, use: Usage, stageOf: map<string, string>, d: Disk, s: Stage,
                     inputs: map<string, Artifact>, o: Outcome)
    requires CleanEnv(env) && RunnableStage(env, use, s) && DistinctIds(stageOf.Keys)
    requires Consistent(Lawbook(env.key, env.sem, use, stageOf), d) && AllKnown(env.key, use, stageOf, inputs)
    requires OwnInputs(s, inputs)
    requires o.Succeeds? && Subtree(s, env.opts).Canonical? && Readable(d, inputs)
    requires RunKey(env, s, inputs) in stageOf && stageOf[RunKey(env, s, inputs)] == s.name
    ensures HasTree(env.key, RunKey(env, s, inputs), s.name) && HasFittingTree(env.key, use, RunKey(env, s, inputs), s.name)
    ensures Obeys(Lawbook(env.key, env.sem, use, stageOf),
                  Attempt(s.name, RunKey(env, s, inputs), FilesOf(o, Product(env.sem, env.opts, env.world, d, s, inputs)),
                          o.primary, Commits))
  {
    var fp := RunFingerprint(env.world, s.name);
    KnownHaveTrees(env.key, use, stageOf, inputs);
    var t := RunTree(env.key, s, env.opts, fp, inputs);
    RunTreeIsGood(env.key, s, env.opts, fp, inputs);
    RunTreeFits(env.key, use, stageOf, s, env.opts, fp, inputs);
    RunKeyIsDigest(env.key, s, env.opts, fp, inputs);
    ProductIsPayload(env.key, env.sem, use, stageOf, d, s, env.opts, env.world, inputs);
    CommitObeys(env.key, env.sem, use, stageOf, t, s.name, o, Product(env.sem, env.opts, env.world, d, s, inputs));
  }

  /** What a stage's run does to the store: one attempt under its key, then pruning. */
  lemma RunStageAttempts(env: Env, d: Disk, i: nat, s: Stage, inputs: map<string, Artifact>)
    ensures var r, o := Execution.RunStage(env, d, i, s, inputs), Effective(env.world, s, d, inputs);
            && (r.ops != [] ==>
                  && r.ops[0].op.Attempt? && r.ops[0].op.stage == s.name && r.ops[0].op.key == RunKey(env, s, inputs))
            && (forall n | 0 < n < |r.ops| :: !r.ops[n].op.Attempt?)
            && (r.ops != [] && r.ops[0].op.finish.Commits? ==>
                  && o.Succeeds? && Subtree(s, env.opts).Canonical? && Readable(d, inputs)
                  && r.ops[0].op == Attempt(s.name, RunKey(env, s, inputs),
                                            FilesOf(o, Product(env.sem, env.opts, env.world, d, s, inputs)), o.primary, Commits))
            && (o.Succeeds? && Subtree(s, env.opts).Canonical? ==> Readable(d, inputs) && r.ops != [])
            && (r.artifact.Some? ==>
                  && o.Succeeds? && Subtree(s, env.opts).Canonical?
                  && r.artifact.value == Artifact(IDForKey(RunKey(env, s, inputs)), s.name, RunKey(env, s, inputs)))
  {
  }

  lemma RunStageObeys(env: Env, use: Usage, stageOf: map<string, string>, d: Disk, i: nat, s: Stage,
                      inputs: map<string, Artifact>)
    requires CleanEnv(env) && RunnableStage(env, use, s)
    requires DistinctIds(stageOf.Keys)
    requires Consistent(Lawbook(env.key, env.sem, use, stageOf), d) && AllKnown(env.key, use, stageOf, inputs)
    requires OwnInputs(s, inputs)
    requires Covers(stageOf, Execution.RunStage(env, d, i, s, inputs).ops)
    ensures AllObey(Lawbook(env.key, env.sem, use, stageOf), Execution.RunStage(env, d, i, s, inputs).ops)
    ensures var r := Execution.RunStage(env, d, i, s, inputs);
            r.artifact.Some? ==> Known(env.key, use, stageOf, r.artifact.value) && r.artifact.value.stage == s.name
  {
    RunStageAttempts(env, d, i, s, inputs);
    var o := Effective(env.world, s, d, inputs);
    if o.Succeeds? && Subtree(s, env.opts).Canonical? {
      SuccessObeys(env, use, stageOf, d, s, inputs, o);
    }
  }
}
