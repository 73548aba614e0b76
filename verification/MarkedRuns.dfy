/** The converse of Sources: where the source is not shown, some history of the
  program leaves a cached stage stale.

  Every stage is run with the current source, only the one that hides its
  source with an old one; then everything below the stage in question is run
  again. Payloads are marked, so that one can be told from the other.
  */
module MarkedRuns {
  import opened KeyTrees
  import opened ArtifactStore
  import opened Optional
  import opened StoreSafety
  import opened Planning
  import opened Execution
  import opened PlanFacts
  import opened Provenance
  import opened Agreement
  import opened Soundness
  import opened Sources
  import opened SoloRuns

  const NEW: Content := "new"
  const OLD: Content := "old"

  /** This stage marks what it makes of this source, and every stage passes a
      mark on. */
  ghost function Marks(stage: string, source: string): Semantics {
    (r: Recipe, read: map<string, Content>, from: string) =>
      if (r.stage == stage && from == source) || (exists d | d in read :: read[d] == NEW) then NEW else OLD
  }

  lemma MarksIgnore(stage: string, source: string, ignoring: set<string>)
    requires stage !in ignoring
    ensures Ignore(Marks(stage, source), ignoring)
  {
  }

  /** The bench marks what stage `k` makes of the current source. */
  ghost predicate Marking(x: Bench, k: nat) {
    GoodBench(x) && k < |x.all| && x.sem == Marks(x.all[k].name, x.source) && "probe" !in x.all[k].depends
  }

  function NamesTo(all: seq<Stage>, n: nat): set<string>
    requires n <= |all|
  {
    set j | 0 <= j < n :: all[j].name
  }

  lemma NamesAreKeys(x: Bench)
    ensures NamesTo(x.all, |x.all|) == Keys(x).Keys
  {
    forall name ensures name in NamesTo(x.all, |x.all|) <==> name in Keys(x) {
      KeysToHas(x, |x.all|, name);
    }
  }

  /** On the shelf: the first `n` stages, of which the first `m` show whether
      they rest on stage `k`. */
  ghost predicate Marked(x: Bench, k: nat, shelf: Shelf, n: nat, m: nat)
    requires k < |x.all| && n <= |x.all|
  {
    && shelf.Keys == NamesTo(x.all, n)
    && forall j | 0 <= j < n && x.all[j].name in shelf :: shelf[x.all[j].name] == MarkOf(x, k, m, j)
  }

  function MarkOf(x: Bench, k: nat, m: nat, j: nat): Content
    requires k < |x.all| && j < |x.all|
  {
    if j < m && Reaches(x.all, j, k) then NEW else OLD
  }

  lemma FirstMark(x: Bench, k: nat, shelf: Shelf, i: nat)
    requires Marking(x, k) && i < |x.all| && Marked(x, k, shelf, i, 0)
    ensures Marked(x, k, shelf[x.all[i].name := OLD], i + 1, 0)
  {
    assert forall j | 0 <= j < i :: x.all[j].name != x.all[i].name;
    assert NamesTo(x.all, i + 1) == NamesTo(x.all, i) + {x.all[i].name};
  }

  lemma ReadyInOrder(x: Bench, k: nat, shelf: Shelf, n: nat, m: nat, i: nat)
    requires Marking(x, k) && i <= n <= |x.all| && i < |x.all| && Marked(x, k, shelf, n, m)
    ensures ReadyFor(x, shelf, i)
  {
    NamesAreKeys(x);
    forall dep | dep in Dependencies(x.all[i]) && dep in Keys(x) ensures dep in shelf {
      var j :| 0 <= j < |x.all| && x.all[j].name == dep;
      DependenciesComeEarlier(x.all, i, j);
    }
  }

  /** Some dependency of stage `i` among the first `m` rests on stage `k`. */
  predicate RestsOn(all: seq<Stage>, i: nat, m: nat, k: nat)
    requires i < |all| && k < |all|
  {
    exists j | 0 <= j < i ::
      j < m && (all[j].name in all[i].depends || all[j].name in all[i].optionalDepends) && Reaches(all, j, k)
  }

  lemma ReadsMark(x: Bench, k: nat, shelf: Shelf, n: nat, m: nat, i: nat)
    requires Marking(x, k) && i <= n <= |x.all| && i < |x.all| && Marked(x, k, shelf, n, m)
    ensures var read := Of(shelf, Dependencies(x.all[i]));
            (exists d | d in read :: read[d] == NEW) <==> RestsOn(x.all, i, m, k)
  {
    var read := Of(shelf, Dependencies(x.all[i]));
    if d :| d in read && read[d] == NEW { MarkIsFrom(x, k, shelf, n, m, i, d); }
    if j :| 0 <= j < i && j < m && x.all[j].name in Dependencies(x.all[i]) && Reaches(x.all, j, k) {
      assert x.all[j].name in NamesTo(x.all, n);
      assert x.all[j].name in read && read[x.all[j].name] == MarkOf(x, k, m, j) == NEW;
    }
  }

  lemma MarkIsFrom(x: Bench, k: nat, shelf: Shelf, n: nat, m: nat, i: nat, dep: string)
    requires Marking(x, k) && i <= n <= |x.all| && i < |x.all| && Marked(x, k, shelf, n, m)
    requires dep in Dependencies(x.all[i]) && dep in shelf && shelf[dep] == NEW
    ensures RestsOn(x.all, i, m, k)
  {
    assert dep in NamesTo(x.all, n);
    var j :| 0 <= j < n && x.all[j].name == dep;
    DependenciesComeEarlier(x.all, i, j);
    assert shelf[x.all[j].name] == MarkOf(x, k, m, j);
  }

  /** What stage `i` makes of a marked shelf. */
  lemma MarkedPayload(x: Bench, k: nat, shelf: Shelf, n: nat, m: nat, i: nat, source: string)
    requires Marking(x, k) && i <= n <= |x.all| && i < |x.all| && Marked(x, k, shelf, n, m)
    ensures SoloPayload(x, shelf, i, source)
         == if (i == k && source == x.source) || RestsOn(x.all, i, m, k) then NEW else OLD
  {
    ReadsMark(x, k, shelf, n, m, i);
    assert x.all[i] in x.all;
    assert x.all[i].name == x.all[k].name <==> i == k;
  }

  // ---------------------------------------------------------------------
  // The two passes
  // ---------------------------------------------------------------------

  lemma PlayableMore(x: Bench, turns: seq<Turn>, turn: Turn)
    requires GoodBench(x) && Playable(x, turns) && turn.stage < |x.all|
    requires ReadyFor(x, ShelfAfter(x, turns), turn.stage) && KeyedAlike(x, turn.stage, turn.source)
    ensures Playable(x, turns + [turn])
  {
    assert (turns + [turn])[..|turns|] == turns;
  }

  /** A history so far: it can be played, with these sources, and leaves a marked shelf. */
  ghost predicate Leads(x: Bench, k: nat, old_: string, turns: seq<Turn>, n: nat, m: nat)
    requires k < |x.all| && n <= |x.all|
  {
    && GoodBench(x) && Playable(x, turns) && (forall turn | turn in turns :: turn.source == old_ || turn.source == x.source)
    && Marked(x, k, ShelfAfter(x, turns), n, m)
  }

  /** In the first pass only stage `k` is run with the old source. */
  lemma FirstTurn(x: Bench, k: nat, old_: string, turns: seq<Turn>, i: nat, n: nat)
    returns (more: seq<Turn>)
    requires Marking(x, k) && old_ != x.source && i < |x.all| && n == i + 1 && Leads(x, k, old_, turns, i, 0)
    ensures more == turns + [Turn(i, if i == k then old_ else x.source)] && Leads(x, k, old_, more, n, 0)
  {
    var shelf, turn := ShelfAfter(x, turns), Turn(i, if i == k then old_ else x.source);
    ReadyInOrder(x, k, shelf, i, 0, i);
    PlayableMore(x, turns, turn);
    ShelfGrows(x, turns, turn);
    MarkedPayload(x, k, shelf, i, 0, i, turn.source);
    FirstMark(x, k, shelf, i);
    more := turns + [turn];
  }

  /** In the second, all are run with the current one. */
  lemma SecondTurn(x: Bench, k: nat, old_: string, turns: seq<Turn>, i: nat, m: nat)
    returns (more: seq<Turn>)
    requires Marking(x, k) && i < |x.all| && m == i + 1 && Leads(x, k, old_, turns, |x.all|, i)
    ensures more == turns + [Turn(i, x.source)] && Leads(x, k, old_, more, |x.all|, m)
  {
    var shelf, turn := ShelfAfter(x, turns), Turn(i, x.source);
    ReadyInOrder(x, k, shelf, |x.all|, i, i);
    PlayableMore(x, turns, turn);
    ShelfGrows(x, turns, turn);
    CurrentPayload(x, k, shelf, i);
    MarkStays(x, k, shelf, i, SoloPayload(x, shelf, i, x.source), m);
    more := turns + [turn];
  }

  lemma NothingRun(x: Bench, k: nat, old_: string, n: nat) returns (turns: seq<Turn>)
    requires Marking(x, k) && n == 0
    ensures turns == [] && Leads(x, k, old_, turns, n, 0)
  {
    turns := [];
    assert ShelfAfter(x, []) == map[];
  }

  lemma {:induction false} FirstPass(x: Bench, k: nat, old_: string, n: nat) returns (turns: seq<Turn>)
    requires Marking(x, k) && old_ != x.source && n <= |x.all|
    ensures Leads(x, k, old_, turns, n, 0)
    decreases n
  {
    if n == 0 {
      turns := NothingRun(x, k, old_, n);
    } else {
      var before := FirstPass(x, k, old_, n - 1);
      turns := FirstTurn(x, k, old_, before, n - 1, n);
    }
  }

  lemma {:induction false} SecondPass(x: Bench, k: nat, old_: string, m: nat) returns (turns: seq<Turn>)
    requires Marking(x, k) && old_ != x.source && m <= |x.all|
    ensures Leads(x, k, old_, turns, |x.all|, m)
    decreases m
  {
    if m == 0 {
      turns := FirstPass(x, k, old_, |x.all|);
    } else {
      var before := SecondPass(x, k, old_, m - 1);
      turns := SecondTurn(x, k, old_, before, m - 1, m);
    }
  }

  lemma ReachesIff(all: seq<Stage>, i: nat, k: nat)
    requires i < |all| && k < |all|
    ensures Reaches(all, i, k) <==> i == k || RestsOn(all, i, i, k)
  {
    if j :| 0 <= j < i && (all[j].name in all[i].depends || all[j].name in all[i].optionalDepends) && Reaches(all, j, k) {
      assert j < i && all[j].name in Dependencies(all[i]);
    }
  }

  /** What stage `i` makes of the current source shows whether it rests on stage `k`. */
  lemma CurrentPayload(x: Bench, k: nat, shelf: Shelf, i: nat)
    requires Marking(x, k) && i < |x.all| && Marked(x, k, shelf, |x.all|, i)
    ensures SoloPayload(x, shelf, i, x.source) == MarkOf(x, k, i + 1, i)
  {
    MarkedPayload(x, k, shelf, |x.all|, i, i, x.source);
    ReachesIff(x.all, i, k);
  }

  lemma MarkStays(x: Bench, k: nat, shelf: Shelf, i: nat, mark: Content, m: nat)
    requires Marking(x, k) && i < |x.all| && m == i + 1 && Marked(x, k, shelf, |x.all|, i) && mark == MarkOf(x, k, m, i)
    ensures Marked(x, k, shelf[x.all[i].name := mark], |x.all|, m)
  {
    assert x.all[i].name in NamesTo(x.all, |x.all|);
    var more := shelf[x.all[i].name := mark];
    forall j | 0 <= j < |x.all| && x.all[j].name in more ensures more[x.all[j].name] == MarkOf(x, k, m, j) {
      if j != i { assert x.all[j].name != x.all[i].name; }
    }
  }

  // ---------------------------------------------------------------------
  // What is served then
  // ---------------------------------------------------------------------

  /** After these actions everything is planned as cached, and what is cached
      for stage `q` is not what running it would produce. */
  ghost predicate ServesStale(x: Bench, use: Usage, stageOf: map<string, string>, actions: seq<Action>, plan: seq<Planned>, q: nat)
  {
    && GoodHistory(x.key, x.sem, use, stageOf, actions)
    && var d := After(EMPTY_DISK, HistoryOps(x.key, x.sem, actions));
       && BuildPlan(x.key, d, Full(x), x.fps) == Ok(plan) && |plan| == |x.all| && q < |plan|
       && (forall j | 0 <= j < |plan| :: plan[j].stage == x.all[j] && plan[j].state == Cached)
       && var s, inputs := plan[q].stage, HandedInputs(plan, plan, q);
          && plan[q].artifact.Some? && Subtree(s, Full(x)).Canonical? && Readable(d, inputs)
          && Open(d, plan[q].artifact.value).Some?
          && Open(d, plan[q].artifact.value) != Some(Product(x.sem, Full(x), World(map[], x.fps, 0), d, s, inputs))
  }

  /** A marked shelf in the store, everything is planned as cached. */
  lemma PlansEverything(x: Bench, k: nat, stageOf: map<string, string>, d: Disk, shelf: Shelf, m: nat)
    requires Marking(x, k) && m <= |x.all| && Marked(x, k, shelf, |x.all|, m) && Holds(x, stageOf, d, shelf)
    ensures BuildPlan(x.key, d, Full(x), x.fps) == Ok(Entries(x, |x.all|))
  {
    KeysAreHex(x, |x.all|);
    NamesAreKeys(x);
    PlansAllCached(x, stageOf, d, shelf, |x.all|);
    SelectsEverything(x);
  }

  lemma RunningMarks(x: Bench, k: nat, stageOf: map<string, string>, d: Disk, shelf: Shelf, q: nat)
    requires Marking(x, k) && q < |x.all| && Marked(x, k, shelf, |x.all|, q) && Holds(x, stageOf, d, shelf)
    ensures var plan, s := Entries(x, |x.all|), x.all[q];
            var inputs := HandedInputs(plan, plan, q);
            && Subtree(s, Full(x)).Canonical? && Readable(d, inputs)
            && Product(x.sem, Full(x), World(map[], x.fps, 0), d, s, inputs) == if Reaches(x.all, q, k) then NEW else OLD
  {
    var s := x.all[q];
    assert s in x.all;
    NamesAreKeys(x);
    HandedAfterwards(x, shelf, q);
    ReadyInOrder(x, k, shelf, |x.all|, q, q);
    FoundIsReadable(x, stageOf, d, shelf, q);
    CurrentPayload(x, k, shelf, q);
  }

  lemma CachedMark(x: Bench, k: nat, stageOf: map<string, string>, d: Disk, shelf: Shelf, q: nat)
    requires Marking(x, k) && q < |x.all| && Marked(x, k, shelf, |x.all|, q) && Holds(x, stageOf, d, shelf)
    ensures Entry(x, q).artifact.Some? && Open(d, Entry(x, q).artifact.value) == Some(OLD)
  {
    KeyOfStage(x, q);
    NamesAreKeys(x);
    assert Shelved(x, d, shelf, x.all[q].name);
  }

  lemma EntriesAre(x: Bench)
    requires ValidRegistry(x.all)
    ensures var plan := Entries(x, |x.all|);
            |plan| == |x.all| && forall j | 0 <= j < |plan| :: plan[j] == Entry(x, j) && plan[j].stage == x.all[j]
                                                               && plan[j].state == Cached
  {
  }

  lemma StaleThere(x: Bench, use: Usage, stageOf: map<string, string>, k: nat, q: nat, turns: seq<Turn>, actions: seq<Action>)
    requires Marking(x, k) && q < |x.all| && Reaches(x.all, q, k)
    requires Played(x, use, stageOf, turns, actions) && Marked(x, k, ShelfAfter(x, turns), |x.all|, q)
    ensures ServesStale(x, use, stageOf, actions, Entries(x, |x.all|), q)
  {
    var d, shelf := After(EMPTY_DISK, HistoryOps(x.key, x.sem, actions)), ShelfAfter(x, turns);
    EntriesAre(x);
    PlansEverything(x, k, stageOf, d, shelf, q);
    RunningMarks(x, k, stageOf, d, shelf, q);
    CachedMark(x, k, stageOf, d, shelf, q);
  }

  lemma BothPassesPlayed(x: Bench, old_: string, k: nat, q: nat) returns (turns: seq<Turn>, actions: seq<Action>)
    requires Marking(x, k) && q < |x.all| && old_ != x.source && FiledUnder(x, Filing(x))
    ensures Played(x, Usage({old_, x.source}, StagesOf(x.all)), Filing(x), turns, actions)
    ensures Marked(x, k, ShelfAfter(x, turns), |x.all|, q)
  {
    var use := Usage({old_, x.source}, StagesOf(x.all));
    turns := SecondPass(x, k, old_, q);
    assert forall turn | turn in turns :: turn.source in use.sources;
    actions := Plays(x, use, Filing(x), turns);
  }

  /** Where stage `k`, which rests under stage `q`, hides the source it is run
      with, stage `q` can be served stale. */
  lemma HiddenIsStale(x: Bench, old_: string, k: nat, q: nat) returns (actions: seq<Action>)
    requires Marking(x, k) && q < |x.all| && Reaches(x.all, q, k) && old_ != x.source && DistinctIds(Keys(x).Values)
    ensures ServesStale(x, Usage({old_, x.source}, StagesOf(x.all)), Filing(x), actions, Entries(x, |x.all|), q)
  {
    FilingFiles(x);
    var turns;
    turns, actions := BothPassesPlayed(x, old_, k, q);
    StaleThere(x, Usage({old_, x.source}, StagesOf(x.all)), Filing(x), k, q, turns, actions);
  }

  // ---------------------------------------------------------------------
  // The condition is needed
  // ---------------------------------------------------------------------

  lemma {:induction false} KeysNeedNoSemantics(x: Bench, sem: Semantics, n: nat)
    requires n <= |x.all|
    ensures KeysTo(x.(sem := sem), n) == KeysTo(x, n)
  {
    if n > 0 { KeysNeedNoSemantics(x, sem, n - 1); }
  }

  /** Whenever the source is not shown for stage `q` of a registry, there are
      stages to fit that condition, and a history with two sources, after which
      stage `q` is served stale. */
  lemma StaleUnlessShown(x: Bench, old_: string, ignoring: set<string>, q: nat) returns (sem: Semantics, actions: seq<Action>)
    requires GoodBench(x) && q < |x.all| && !SourceIsShown(x.all, ignoring, q)
    requires old_ != x.source && DistinctIds(Keys(x).Values)
    ensures Ignore(sem, ignoring)
    ensures var y := x.(sem := sem);
            && GoodBench(y)
            && ServesStale(y, Usage({old_, x.source}, StagesOf(x.all)), Filing(y), actions, Entries(y, |x.all|), q)
  {
    var k :| 0 <= k < |x.all| && Reaches(x.all, q, k) && "probe" !in x.all[k].depends && x.all[k].name !in ignoring;
    sem := Marks(x.all[k].name, x.source);
    MarksIgnore(x.all[k].name, x.source, ignoring);
    KeysNeedNoSemantics(x, sem, |x.all|);
    assert Full(x.(sem := sem)) == Full(x);
    actions := HiddenIsStale(x.(sem := sem), old_, k, q);
  }
}
