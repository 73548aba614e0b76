/** How runs end: every stage settles once, failures stay contained, and a
  completed job means a finished plan. */
module Settlement {
  import opened ArtifactStore
  import opened Optional
  import opened Planning
  import opened Planner
  import opened Execution
  import opened PlanFacts

  // ---------------------------------------------------------------------
  // What the observer hears about one stage
  // ---------------------------------------------------------------------

  function Journal(events: seq<Event>, name: string): seq<Event>
    decreases |events|
  {
    if events == [] then []
    else
      var n := |events| - 1;
      Journal(events[..n], name) + (if events[n].stage == name then [events[n]] else [])
  }

  lemma {:induction false} JournalAppends(a: seq<Event>, b: seq<Event>, name: string)
    ensures Journal(a + b, name) == Journal(a, name) + Journal(b, name)
    decreases |b|
  {
    if b == [] {
      assert a + b == a;
    } else {
      var n := |b| - 1;
      assert (a + b)[..|a + b| - 1] == a + b[..n];
      JournalAppends(a, b[..n], name);
    }
  }

  lemma JournalOfOne(e: Event, name: string)
    ensures Journal([e], name) == if e.stage == name then [e] else []
  {
    assert [e][..0] == [];
  }

  lemma JournalOfTwo(e: Event, f: Event, name: string)
    ensures Journal([e, f], name) == (if e.stage == name then [e] else []) + (if f.stage == name then [f] else [])
  {
    assert [e, f][..1] == [e];
    JournalOfOne(e, name);
  }

  lemma {:induction false} JournalIsHeard(events: seq<Event>, name: string, e: Event)
    requires e in Journal(events, name)
    ensures e in events
    decreases |events|
  {
    var n := |events| - 1;
    if e in Journal(events[..n], name) {
      JournalIsHeard(events[..n], name, e);
    }
  }

  // ---------------------------------------------------------------------
  // The invariant of the run loop
  // ---------------------------------------------------------------------

  /** A stage that has ended, consistently. */
  ghost predicate EndedWell(p: Planned) {
    && p.state.Terminal()
    && (p.state.Succeeded() <==> p.artifact.Some?)
    && (p.blocked <==> p.state == Skipped)
    && (p.state == Failed ==> p.err.Some?)
    && (p.err.Some? ==> p.state == Failed || p.state == Cancelled)
    && (p.state == Cancelled ==> p.err.Some?)
  }

  ghost predicate SameStages(a: seq<Planned>, b: seq<Planned>) {
    && |a| == |b|
    && forall j | 0 <= j < |a| :: a[j].stage == b[j].stage && a[j].external == b[j].external && a[j].key == b[j].key
  }

  /** What the observer has heard about a stage that began as `before`. */
  ghost function Story(before: Planned, now: Planned): seq<Event> {
    if !now.state.Terminal() then []
    else if before.state == Pending && now.state != Skipped
    then [Entered(now.stage.name), Settled(now.stage.name, now.state)]
    else [Settled(now.stage.name, now.state)]
  }

  /** Some required dependency in the plan ended without an artifact. */
  ghost predicate LostDependency(plan: seq<Planned>, i: nat)
    requires i < |plan|
  {
    exists k | 0 <= k < |plan| :: plan[k].stage.name in plan[i].stage.depends && plan[k].state.Unusable()
  }

  /** A stage is entered only once each required dependency in the plan is
      known to have succeeded. */
  ghost predicate EnteredAfterInputs(plan: seq<Planned>, events: seq<Event>) {
    forall i, p | 0 <= i < |plan| && 0 <= p < |events| && events[p] == Entered(plan[i].stage.name) ::
      forall dep | dep in plan[i].stage.depends && InPlan(plan, dep) :: HeardSuccess(events[..p], dep)
  }

  ghost predicate HeardSuccess(events: seq<Event>, name: string) {
    Settled(name, Cached) in events || Settled(name, Completed) in events
  }

  /** Before stage `i`'s turn: nothing later has changed, everything earlier has ended. */
  ghost predicate Progressed(before: seq<Planned>, plan: seq<Planned>, i: nat) {
    && i <= |before| && SameStages(before, plan)
    && (forall j | i <= j < |before| :: plan[j] == before[j])
    && (forall j | 0 <= j < |before| :: plan[j].state.Terminal() ==> EndedWell(plan[j]))
    && (forall j | 0 <= j < i :: plan[j].state.Terminal())
    && (forall j | 0 <= j < |before| && before[j].state != Pending :: plan[j] == before[j])
  }

  ghost predicate Told(before: seq<Planned>, st: Progress)
    requires |st.plan| == |before|
  {
    forall j | 0 <= j < |before| :: Journal(st.events, before[j].stage.name) == Story(before[j], st.plan[j])
  }

  ghost predicate Contained(before: seq<Planned>, plan: seq<Planned>, i: nat)
    requires i <= |before| == |plan|
  {
    forall j | 0 <= j < i && before[j].state == Pending :: plan[j].state == Skipped <==> LostDependency(plan, j)
  }

  ghost predicate Going(before: seq<Planned>, st: Progress, i: nat) {
    && Progressed(before, st.plan, i)
    && Told(before, st)
    && Contained(before, st.plan, i)
    && EnteredAfterInputs(before, st.events)
  }

  lemma SettledIsHeard(before: seq<Planned>, st: Progress, j: nat)
    requires j < |before| && |st.plan| == |before| && st.plan[j].stage == before[j].stage
    requires Journal(st.events, before[j].stage.name) == Story(before[j], st.plan[j])
    requires st.plan[j].state.Succeeded()
    ensures HeardSuccess(st.events, before[j].stage.name)
  {
    var name := before[j].stage.name;
    var e := Settled(name, st.plan[j].state);
    assert e in Journal(st.events, name);
    JournalIsHeard(st.events, name, e);
  }

  lemma SameNames(a: seq<Planned>, b: seq<Planned>)
    requires SameStages(a, b) && NamesDiffer(a)
    ensures NamesDiffer(b)
    ensures forall n :: InPlan(a, n) <==> InPlan(b, n)
  {
    forall n ensures InPlan(a, n) <==> InPlan(b, n) {
      if InPlan(a, n) { var i :| 0 <= i < |a| && a[i].stage.name == n; assert b[i].stage.name == n; }
      if InPlan(b, n) { var i :| 0 <= i < |b| && b[i].stage.name == n; assert a[i].stage.name == n; }
    }
  }

  lemma BlockedIffLost(plan: seq<Planned>, i: nat)
    requires NamesDiffer(plan) && i < |plan|
    ensures BlockedBy(plan[i].stage, ByName(plan)).Some? <==> LostDependency(plan, i)
  {
    FindByName(plan);
    var planned, deps := ByName(plan), plan[i].stage.depends;
    FirstEndedMeans(deps, planned);
    if dep :| dep in deps && dep in planned && planned[dep].state.Unusable() {
      var k :| 0 <= k < |plan| && plan[k].stage.name == dep;
      assert plan[k].state.Unusable();
    }
    if k :| 0 <= k < |plan| && plan[k].stage.name in deps && plan[k].state.Unusable() {
      assert planned[plan[k].stage.name].state.Unusable();
    }
  }

  /** The executor's check for ended dependencies sees exactly the ones in the plan. */
  lemma BlockedMeansLost(before: seq<Planned>, st: Progress, i: nat)
    requires GoodPlan(before) && Going(before, st, i) && i < |before|
    ensures BlockedBy(st.plan[i].stage, ByName(st.plan)).Some? <==> LostDependency(st.plan, i)
  {
    SameNames(before, st.plan);
    BlockedIffLost(st.plan, i);
  }

  /** What a stage depends on has ended by the time its turn comes. */
  lemma DependenciesEnded(before: seq<Planned>, st: Progress, i: nat, dep: string)
    requires GoodPlan(before) && Going(before, st, i) && i < |before|
    requires dep in before[i].stage.depends && InPlan(before, dep) && !LostDependency(st.plan, i)
    ensures exists j | 0 <= j < i :: before[j].stage.name == dep && st.plan[j].state.Succeeded()
  {
    assert GoodDependencies(before, i);
    assert dep in Dependencies(before[i].stage);
    var j :| 0 <= j < i && before[..i][j].stage.name == dep;
    assert before[j].stage.name == dep && st.plan[j].stage.name in st.plan[i].stage.depends;
    assert !st.plan[j].state.Unusable();
  }

  /** In a plan from Build, the executor never finds an input missing. */
  lemma InputsAreThere(before: seq<Planned>, st: Progress, i: nat)
    requires GoodPlan(before) && Going(before, st, i) && i < |before| && before[i].state == Pending
    requires BlockedBy(st.plan[i].stage, ByName(st.plan)).None?
    ensures FirstWithoutInput(st.plan[i].stage.depends, ByName(st.plan), st.plan[i].external).None?
  {
    BlockedMeansLost(before, st, i);
    SameNames(before, st.plan);
    FindByName(st.plan);
    assert GoodDependencies(before, i);
    forall dep | dep in st.plan[i].stage.depends
      ensures InputOf(dep, ByName(st.plan), st.plan[i].external).Some?
    {
      if InPlan(before, dep) {
        DependenciesEnded(before, st, i, dep);
        var j :| 0 <= j < i && before[j].stage.name == dep && st.plan[j].state.Succeeded();
        assert EndedWell(st.plan[j]);
        assert ByName(st.plan)[st.plan[j].stage.name] == st.plan[j];
      } else {
        InLonger(before, i, dep);
      }
    }
    NoneWithoutInput(st.plan[i].stage.depends, ByName(st.plan), st.plan[i].external);
  }

  lemma {:induction false} NoneWithoutInput(deps: seq<string>, planned: ByStage, external: map<string, Artifact>)
    requires forall dep | dep in deps :: InputOf(dep, planned, external).Some?
    ensures FirstWithoutInput(deps, planned, external).None?
  {
    if deps != [] {
      assert deps[0] in deps;
      NoneWithoutInput(deps[1..], planned, external);
    }
  }

  lemma RunStageEndsWell(env: Env, d: Disk, i: nat, s: Stage, inputs: map<string, Artifact>)
    ensures var r := Execution.RunStage(env, d, i, s, inputs);
            && (r.state == Completed <==> r.artifact.Some?) && (r.state == Completed <==> r.err.None?)
            && (r.state == Completed || r.state == Failed || r.state == Cancelled)
  {
  }

  /** One turn: a pending stage ends, skipped or run. */
  lemma TurnEnds(env: Env, before: seq<Planned>, st: Progress, i: nat)
    requires GoodPlan(before) && Going(before, st, i) && i < |before| && before[i].state == Pending
    ensures var after := RunPending(env, st, i);
            && after.plan == st.plan[i := after.plan[i]]
            && after.plan[i].stage == st.plan[i].stage && after.plan[i].external == st.plan[i].external
            && after.plan[i].key == st.plan[i].key
            && EndedWell(after.plan[i])
            && (after.plan[i].state == Skipped <==> LostDependency(st.plan, i))
            && after.events == st.events + Story(before[i], after.plan[i])
  {
    BlockedMeansLost(before, st, i);
    assert GoodEntry(before[i]);
    if BlockedBy(st.plan[i].stage, ByName(st.plan)).None? {
      InputsAreThere(before, st, i);
      RunStageEndsWell(env, st.disk, i, st.plan[i].stage, Inputs(st.plan[i].stage, ByName(st.plan), st.plan[i].external));
    }
  }

  /** Ending stage `i` changes nothing about what its dependencies did. */
  lemma LostStaysLost(before: seq<Planned>, st: Progress, i: nat, p: Planned)
    requires GoodPlan(before) && Going(before, st, i) && i < |before| && p.stage == before[i].stage
    ensures forall j | 0 <= j <= i :: LostDependency(st.plan[i := p], j) <==> LostDependency(st.plan, j)
  {
    forall j | 0 <= j <= i ensures LostDependency(st.plan[i := p], j) <==> LostDependency(st.plan, j) {
      var after := st.plan[i := p];
      assert before[i].stage.name !in before[j].stage.depends by { NotADependencyOfEarlier(before, j, i); }
      if LostDependency(st.plan, j) {
        var k :| 0 <= k < |after| && st.plan[k].stage.name in st.plan[j].stage.depends && st.plan[k].state.Unusable();
        assert k != i && after[k] == st.plan[k];
      }
      if LostDependency(after, j) {
        var k :| 0 <= k < |after| && after[k].stage.name in after[j].stage.depends && after[k].state.Unusable();
        assert k != i && after[k] == st.plan[k];
      }
    }
  }

  lemma NotADependencyOfEarlier(plan: seq<Planned>, j: nat, i: nat)
    requires GoodPlan(plan) && j <= i < |plan|
    ensures plan[i].stage.name !in plan[j].stage.depends
  {
    assert GoodDependencies(plan, j);
    assert InPlan(plan, plan[i].stage.name);
    NotInPrefix(plan, j, i);
    assert plan[i].stage.name !in Dependencies(plan[j].stage);
  }

  lemma TurnIsTold(before: seq<Planned>, st: Progress, i: nat, p: Planned)
    requires NamesDiffer(before) && i < |before| == |st.plan| && Told(before, st)
    requires st.plan[i] == before[i] && before[i].state == Pending && p.stage == before[i].stage
    ensures Told(before, st.(plan := st.plan[i := p], events := st.events + Story(before[i], p)))
  {
    forall j | 0 <= j < |before|
      ensures Journal(st.events + Story(before[i], p), before[j].stage.name) == Story(before[j], st.plan[i := p][j])
    {
      JournalAppends(st.events, Story(before[i], p), before[j].stage.name);
      StoryJournal(before, i, p, before[j].stage.name);
    }
  }

  lemma TurnProgresses(before: seq<Planned>, plan: seq<Planned>, i: nat, p: Planned)
    requires Progressed(before, plan, i) && i < |before| && before[i].state == Pending && EndedWell(p)
    requires p.stage == plan[i].stage && p.external == plan[i].external && p.key == plan[i].key
    ensures Progressed(before, plan[i := p], i + 1)
  {
  }

  lemma TurnContains(before: seq<Planned>, st: Progress, i: nat, p: Planned)
    requires GoodPlan(before) && Going(before, st, i) && i < |before| && p.stage == before[i].stage
    requires p.state == Skipped <==> LostDependency(st.plan, i)
    ensures Contained(before, st.plan[i := p], i + 1)
  {
    LostStaysLost(before, st, i, p);
  }

  /** One turn keeps the invariant. */
  lemma TurnKeepsGoing(env: Env, before: seq<Planned>, st: Progress, i: nat)
    requires GoodPlan(before) && Going(before, st, i) && i < |before| && before[i].state == Pending
    ensures Going(before, RunPending(env, st, i), i + 1)
  {
    var after := RunPending(env, st, i);
    TurnEnds(env, before, st, i);
    var p := after.plan[i];
    TurnProgresses(before, st.plan, i, p);
    TurnContains(before, st, i, p);
    TurnIsTold(before, st, i, p);
    TurnEntersLate(before, st, i, p);
  }

  lemma StoryJournal(before: seq<Planned>, i: nat, p: Planned, name: string)
    requires i < |before| && p.stage == before[i].stage
    ensures Journal(Story(before[i], p), name) == if name == before[i].stage.name then Story(before[i], p) else []
  {
    var n := p.stage.name;
    JournalOfOne(Settled(n, p.state), name);
    JournalOfTwo(Entered(n), Settled(n, p.state), name);
    assert Journal([], name) == [];
  }

  lemma InputsAreHeard(before: seq<Planned>, st: Progress, i: nat)
    requires GoodPlan(before) && Going(before, st, i) && i < |before| && !LostDependency(st.plan, i)
    ensures forall dep | dep in before[i].stage.depends && InPlan(before, dep) :: HeardSuccess(st.events, dep)
  {
    forall dep | dep in before[i].stage.depends && InPlan(before, dep) ensures HeardSuccess(st.events, dep) {
      DependenciesEnded(before, st, i, dep);
      var k :| 0 <= k < i && before[k].stage.name == dep && st.plan[k].state.Succeeded();
      SettledIsHeard(before, st, k);
    }
  }

  lemma EnteredLate(before: seq<Planned>, past: seq<Event>, i: nat, story: seq<Event>)
    requires NamesDiffer(before) && EnteredAfterInputs(before, past) && i < |before|
    requires forall q | 0 <= q < |story| && story[q].Entered? :: q == 0 && story[q].stage == before[i].stage.name
    requires story != [] && story[0].Entered? ==>
               forall dep | dep in before[i].stage.depends && InPlan(before, dep) :: HeardSuccess(past, dep)
    ensures EnteredAfterInputs(before, past + story)
  {
    var events, m := past + story, |past|;
    forall j, q | 0 <= j < |before| && 0 <= q < |events| && events[q] == Entered(before[j].stage.name)
      ensures forall dep | dep in before[j].stage.depends && InPlan(before, dep) :: HeardSuccess(events[..q], dep)
    {
      if q < m {
        assert events[..q] == past[..q] && events[q] == past[q];
      } else {
        assert story[q - m] == events[q];
        assert q == m && j == i && events[..q] == past;
      }
    }
  }

  lemma TurnEntersLate(before: seq<Planned>, st: Progress, i: nat, p: Planned)
    requires GoodPlan(before) && Going(before, st, i) && i < |before|
    requires p.stage == before[i].stage && (p.state == Skipped <==> LostDependency(st.plan, i))
    ensures EnteredAfterInputs(before, st.events + Story(before[i], p))
  {
    if p.state != Skipped { InputsAreHeard(before, st, i); }
    EnteredLate(before, st.events, i, Story(before[i], p));
  }

  // ---------------------------------------------------------------------
  // The start and the end of the run
  // ---------------------------------------------------------------------

  lemma AnnounceStep(plan: seq<Planned>, says: Planned -> Option<State>, name: string)
    requires plan != []
    ensures var n := |plan| - 1;
            Journal(Announce(plan, says), name) == Journal(Announce(plan[..n], says), name)
              + (if plan[n].stage.name == name then Announcement(plan[n], says) else [])
  {
    var n := |plan| - 1;
    AnnouncementJournal(plan[n], says, name);
    JournalAppends(Announce(plan[..n], says), Announcement(plan[n], says), name);
  }

  lemma {:induction false} AnnouncesNothingElse(plan: seq<Planned>, says: Planned -> Option<State>, name: string)
    requires !InPlan(plan, name)
    ensures Journal(Announce(plan, says), name) == []
    decreases |plan|
  {
    if plan != [] {
      var n := |plan| - 1;
      assert plan[n].stage.name != name;
      InLonger(plan, n, name);
      AnnouncesNothingElse(plan[..n], says, name);
      AnnounceStep(plan, says, name);
    }
  }

  lemma AnnouncementJournal(p: Planned, says: Planned -> Option<State>, name: string)
    ensures Journal(Announcement(p, says), name) == if p.stage.name == name then Announcement(p, says) else []
  {
    if says(p).Some? { JournalOfOne(Settled(p.stage.name, says(p).value), name); }
    assert Journal([], name) == [];
  }

  /** Announcing a plan says one thing about each stage. */
  lemma {:induction false} AnnounceJournal(plan: seq<Planned>, says: Planned -> Option<State>, j: nat)
    requires NamesDiffer(plan) && j < |plan|
    ensures Journal(Announce(plan, says), plan[j].stage.name) == Announcement(plan[j], says)
    decreases |plan|
  {
    var n, name := |plan| - 1, plan[j].stage.name;
    AnnounceStep(plan, says, name);
    if j < n {
      assert plan[..n][j] == plan[j] && plan[n].stage.name != name;
      assert NamesDiffer(plan[..n]);
      AnnounceJournal(plan[..n], says, j);
    } else {
      NotInPrefix(plan, n, j);
      AnnouncesNothingElse(plan[..n], says, name);
    }
  }

  lemma {:induction false} AnnouncesSettle(plan: seq<Planned>, says: Planned -> Option<State>)
    ensures forall q | 0 <= q < |Announce(plan, says)| :: Announce(plan, says)[q].Settled?
    decreases |plan|
  {
    if plan != [] { AnnouncesSettle(plan[..|plan| - 1], says); }
  }

  lemma InLonger(plan: seq<Planned>, n: nat, name: string)
    requires n <= |plan|
    ensures InPlan(plan[..n], name) ==> InPlan(plan, name)
  {
    if InPlan(plan[..n], name) {
      var j :| 0 <= j < n && plan[..n][j].stage.name == name;
      assert plan[j].stage.name == name;
    }
  }

  lemma NotInPrefix(plan: seq<Planned>, n: nat, j: nat)
    requires NamesDiffer(plan) && n <= j < |plan|
    ensures !InPlan(plan[..n], plan[j].stage.name)
  {
    assert forall k | 0 <= k < n :: plan[..n][k] == plan[k] && plan[k].stage.name != plan[j].stage.name;
  }

  lemma StartIsGoing(plan: seq<Planned>, d: Disk)
    requires GoodPlan(plan)
    ensures Going(plan, Begun(plan, d), 0)
  {
    var st := Begun(plan, d);
    forall j | 0 <= j < |plan|
      ensures Journal(st.events, plan[j].stage.name) == Story(plan[j], plan[j])
      ensures plan[j].state.Terminal() ==> EndedWell(plan[j])
    {
      AnnounceJournal(plan, EndState, j);
      assert GoodEntry(plan[j]);
    }
    AnnouncesSettle(plan, EndState);
  }

  /** How one stage's part of a run ends. */
  ghost predicate SettledOnce(before: Planned, now: Planned, events: seq<Event>) {
    var name := before.stage.name;
    && now.stage == before.stage && now.state.Terminal()
    && (Journal(events, name) == [Settled(name, now.state)] ||
        Journal(events, name) == [Entered(name), Settled(name, now.state)])
  }

  ghost predicate AllSettled(before: seq<Planned>, now: Progress) {
    && |now.plan| == |before|
    && (forall j | 0 <= j < |before| :: SettledOnce(before[j], now.plan[j], now.events))
    && EnteredAfterInputs(before, now.events)
  }

  lemma CancelSettlesOne(before: seq<Planned>, st: Progress, i: nat, j: nat)
    requires GoodPlan(before) && Going(before, st, i) && j < |before| && NamesDiffer(st.plan)
    ensures SettledOnce(before[j], CancelRemaining(st).plan[j], CancelRemaining(st).events)
  {
    JournalAppends(st.events, Announce(st.plan, CancelState), before[j].stage.name);
    AnnounceJournal(st.plan, CancelState, j);
  }

  lemma CancelSettles(before: seq<Planned>, st: Progress, i: nat)
    requires GoodPlan(before) && Going(before, st, i)
    ensures AllSettled(before, CancelRemaining(st))
  {
    SameNames(before, st.plan);
    forall j | 0 <= j < |before| ensures SettledOnce(before[j], CancelRemaining(st).plan[j], CancelRemaining(st).events) {
      CancelSettlesOne(before, st, i, j);
    }
    AnnouncesSettle(st.plan, CancelState);
    AppendSettled(before, st.events, Announce(st.plan, CancelState));
  }

  lemma AppendSettled(plan: seq<Planned>, a: seq<Event>, b: seq<Event>)
    requires EnteredAfterInputs(plan, a) && (forall q | 0 <= q < |b| :: b[q].Settled?)
    ensures EnteredAfterInputs(plan, a + b)
  {
    assert forall q | |a| <= q < |a + b| :: (a + b)[q] == b[q - |a|] && (a + b)[q].Settled?;
    forall i, p | 0 <= i < |plan| && 0 <= p < |a + b| && (a + b)[p] == Entered(plan[i].stage.name)
      ensures forall dep | dep in plan[i].stage.depends && InPlan(plan, dep) :: HeardSuccess((a + b)[..p], dep)
    {
      assert (a + b)[..p] == a[..p];
    }
  }

  // ---------------------------------------------------------------------
  // The theorems
  // ---------------------------------------------------------------------

  lemma EndIsSettled(before: seq<Planned>, st: Progress)
    requires Going(before, st, |before|)
    ensures AllSettled(before, st)
  {
  }

  lemma SettledStageIsPassed(before: seq<Planned>, st: Progress, i: nat)
    requires GoodPlan(before) && Going(before, st, i) && i < |before| && before[i].state != Pending
    ensures Going(before, st, i + 1)
  {
    assert GoodEntry(before[i]);
  }

  /** Where an uncancelled run gets to, and what any run satisfies. */
  lemma {:induction false} RunSettles(env: Env, before: seq<Planned>, st: Progress, i: nat)
    requires GoodPlan(before) && Going(before, st, i)
    ensures var e := RunFrom(env, st, i);
            && AllSettled(before, e.progress)
            && (e.cancelled <==> CancelledAt(env.world, 2 * |before|))
            && (!e.cancelled ==> Going(before, e.progress, |before|))
    decreases |before| - i
  {
    if i == |before| {
      EndIsSettled(before, st);
      CancelSettles(before, st, i);
    } else if before[i].state != Pending {
      SettledStageIsPassed(before, st, i);
      RunSettles(env, before, st, i + 1);
    } else if CancelledAt(env.world, 2 * i) {
      CancelSettles(before, st, i);
    } else {
      TurnKeepsGoing(env, before, st, i);
      RunSettles(env, before, RunPending(env, st, i), i + 1);
    }
  }

  /** Every stage of the plan is settled exactly once and ends terminal, and
      is entered only after what it requires has succeeded: whatever the
      outcomes, and wherever the run is cancelled. */
  lemma SettlesExactlyOnce(env: Env, plan: seq<Planned>, d: Disk)
    requires GoodPlan(plan)
    ensures var e := RunPlan(env, plan, d);
            && AllSettled(plan, e.progress)
            && (e.cancelled <==> CancelledAt(env.world, 2 * |plan|))
  {
    StartIsGoing(plan, d);
    RunSettles(env, plan, Begun(plan, d), 0);
  }

  /** Without cancellation, a pending stage is skipped iff some required
      dependency in the plan ended without an artifact; every other one runs. */
  lemma FailuresAreContained(env: Env, plan: seq<Planned>, d: Disk)
    requires GoodPlan(plan) && !CancelledAt(env.world, 2 * |plan|)
    ensures var e := RunPlan(env, plan, d).progress;
            && |e.plan| == |plan|
            && forall j | 0 <= j < |plan| && plan[j].state == Pending ::
                 && (e.plan[j].state == Skipped <==> LostDependency(e.plan, j))
                 && (e.plan[j].state != Skipped <==>
                       Journal(e.events, plan[j].stage.name)
                         == [Entered(plan[j].stage.name), Settled(plan[j].stage.name, e.plan[j].state)])
  {
    StartIsGoing(plan, d);
    RunSettles(env, plan, Begun(plan, d), 0);
  }

  // ---------------------------------------------------------------------
  // The job's outcome: internal/app/run.go
  // ---------------------------------------------------------------------

  datatype JobOutcome = JobCompleted | JobCancelled | JobFailed(stage: string)

  function FirstProblem(plan: seq<Planned>): Option<string> {
    if plan == [] then None
    else if plan[0].err.Some? || plan[0].blocked then Some(plan[0].stage.name)
    else FirstProblem(plan[1..])
  }

  /** `jobOutcome`, looking at the context once the run is over. The executor's
      only error is the cancellation. */
  function OutcomeOfJob(e: Ended, contextCancelled: bool): JobOutcome {
    if e.cancelled || contextCancelled then JobCancelled
    else match FirstProblem(e.progress.plan)
      case Some(name) => JobFailed(name)
      case None => JobCompleted
  }

  /** The first stage with an error, or blocked, has this name. */
  ghost predicate ProblemOf(plan: seq<Planned>, name: string) {
    exists j | 0 <= j < |plan| ::
      && plan[j].stage.name == name && (plan[j].err.Some? || plan[j].blocked)
      && forall k | 0 <= k < j :: plan[k].err.None? && !plan[k].blocked
  }

  lemma {:induction false} NoProblemMeans(plan: seq<Planned>)
    ensures FirstProblem(plan).None? <==> forall j | 0 <= j < |plan| :: plan[j].err.None? && !plan[j].blocked
    ensures FirstProblem(plan).Some? ==> ProblemOf(plan, FirstProblem(plan).value)
  {
    if plan != [] && plan[0].err.None? && !plan[0].blocked {
      NoProblemMeans(plan[1..]);
      if FirstProblem(plan).None? {
        forall j | 0 <= j < |plan| ensures plan[j].err.None? && !plan[j].blocked {
          assert j > 0 ==> plan[j] == plan[1..][j - 1];
        }
      } else {
        ProblemLater(plan, FirstProblem(plan).value);
      }
    }
  }

  lemma ProblemLater(plan: seq<Planned>, name: string)
    requires plan != [] && plan[0].err.None? && !plan[0].blocked && ProblemOf(plan[1..], name)
    ensures ProblemOf(plan, name)
  {
    var j :| 0 <= j < |plan| - 1 && plan[1..][j].stage.name == name && (plan[1..][j].err.Some? || plan[1..][j].blocked)
             && forall k | 0 <= k < j :: plan[1..][k].err.None? && !plan[1..][k].blocked;
    assert plan[j + 1] == plan[1..][j];
    forall k | 0 <= k < j + 1 ensures plan[k].err.None? && !plan[k].blocked {
      assert k > 0 ==> plan[k] == plan[1..][k - 1];
    }
  }

  /** Of stages that have all ended, those without a problem are those that succeeded. */
  lemma NoProblemMeansDone(before: seq<Planned>, plan: seq<Planned>)
    requires Progressed(before, plan, |before|)
    ensures FirstProblem(plan).None? <==> forall j | 0 <= j < |plan| :: plan[j].state.Succeeded()
  {
    NoProblemMeans(plan);
    forall j | 0 <= j < |plan| ensures plan[j].state.Succeeded() <==> plan[j].err.None? && !plan[j].blocked {
      assert EndedWell(plan[j]);
    }
  }

  /** A job is completed iff nothing was cancelled and every planned stage is
      cached or completed. `look` is when the outcome is decided. */
  lemma CompletedMeansDone(env: Env, plan: seq<Planned>, d: Disk, look: nat)
    requires GoodPlan(plan) && look >= 2 * |plan|
    ensures var e := RunPlan(env, plan, d);
            && |e.progress.plan| == |plan|
            && (OutcomeOfJob(e, CancelledAt(env.world, look)) == JobCompleted <==>
                  && !CancelledAt(env.world, look)
                  && forall j | 0 <= j < |plan| :: e.progress.plan[j].state.Succeeded())
  {
    StartIsGoing(plan, d);
    RunSettles(env, plan, Begun(plan, d), 0);
    var e := RunPlan(env, plan, d);
    if !e.cancelled { NoProblemMeansDone(plan, e.progress.plan); }
  }
}
