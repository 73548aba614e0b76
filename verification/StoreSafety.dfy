/** What a crash between any two steps of any operation leaves behind. */
module StoreSafety {
  import opened ArtifactHash
  import opened KeyTrees
  import opened ArtifactStore
  import opened Optional

  /** What a store is used for: the keys attempted in it with the stage each
      belongs to, and what a directory published in it must hold. */
  datatype Law = Law(stageOf: map<string, string>, dir: Dir -> bool)

  /** The short ids of the keys in use do not collide. */
  ghost predicate DistinctIds(keys: set<string>) {
    forall a, b | a in keys && b in keys && IDForKey(a) == IDForKey(b) :: a == b
  }

  ghost predicate PublishedAt(law: Law, place: Place, dir: Dir) {
    && dir.manifest.Some?
    && var m := dir.manifest.value;
    && m.key in law.stageOf && m.stage == place.0 == law.stageOf[m.key]
    && m.id == place.1 == IDForKey(m.key) && m.primary in dir.files
    && law.dir(dir)
  }

  ghost predicate RowFits(law: Law, key: string, row: Row, clock: nat) {
    && key in law.stageOf && row.stage == law.stageOf[key]
    && row.id == IDForKey(key) && row.createdAt < clock
  }

  ghost predicate Consistent(law: Law, d: Disk) {
    && (forall k | k in d.rows :: RowFits(law, k, d.rows[k], d.clock))
    && UniqueIds(d)
    && (forall p | p in d.dirs :: PublishedAt(law, p, d.dirs[p]))
    && (forall t | t in d.temps :: t < d.nextTemp)
  }

  /** The only steps that could break consistency are the rename and the upsert. */
  ghost predicate Lawful(law: Law, d: Disk, s: Step) {
    match s
    case Rename(t, place) => t in d.temps ==> PublishedAt(law, place, d.temps[t])
    case Upsert(key, id, stage, status) =>
      key in law.stageOf && stage == law.stageOf[key] && id == IDForKey(key)
    case _ => true
  }

  ghost predicate LawfulRun(law: Law, d: Disk, steps: seq<Step>)
    decreases |steps|
  {
    steps == [] ||
    (var n := |steps| - 1;
     LawfulRun(law, d, steps[..n]) && Lawful(law, Exec(d, steps[..n]), steps[n]))
  }

  lemma RowsStayFit(law: Law, d: Disk, s: Step)
    requires Consistent(law, d) && Lawful(law, d, s)
    ensures var d' := Do(d, s);
            UniqueIds(d') && forall k | k in d'.rows :: RowFits(law, k, d'.rows[k], d'.clock)
  {
    if s.Upsert? {
      UpsertFits(law, d, s.key, s.id, s.stage, s.status);
    } else {
      var d' := Do(d, s);
      assert d'.clock == d.clock && forall k | k in d'.rows :: k in d.rows && d'.rows[k] == d.rows[k];
    }
  }

  lemma UpsertFits(law: Law, d: Disk, key: string, id: string, stage: string, status: Status)
    requires Consistent(law, d) && key in law.stageOf && stage == law.stageOf[key] && id == IDForKey(key)
    ensures var d' := Do(d, Upsert(key, id, stage, status));
            UniqueIds(d') && forall k | k in d'.rows :: RowFits(law, k, d'.rows[k], d'.clock)
  {
    UpsertKeepsIds(d, key, id, stage, status);
    var d' := Do(d, Upsert(key, id, stage, status));
    forall k | k in d'.rows ensures RowFits(law, k, d'.rows[k], d'.clock) {
      assert k != key ==> d'.rows[k] == d.rows[k];
      assert k in d.rows ==> RowFits(law, k, d.rows[k], d.clock);
    }
  }

  lemma PlacesStayFit(law: Law, d: Disk, s: Step)
    requires Consistent(law, d) && Lawful(law, d, s)
    ensures var d' := Do(d, s);
            (forall p | p in d'.dirs :: PublishedAt(law, p, d'.dirs[p])) && (forall t | t in d'.temps :: t < d'.nextTemp)
  {
  }

  lemma StepKeepsConsistent(law: Law, d: Disk, s: Step)
    requires Consistent(law, d) && Lawful(law, d, s)
    ensures Consistent(law, Do(d, s))
  {
    RowsStayFit(law, d, s);
    PlacesStayFit(law, d, s);
  }

  /** Wherever a lawful run of steps stops, the store is consistent. */
  lemma {:induction false} StoppingAnywhere(law: Law, d: Disk, steps: seq<Step>, n: nat)
    requires Consistent(law, d) && LawfulRun(law, d, steps) && n <= |steps|
    ensures Consistent(law, Exec(d, steps[..n]))
    decreases |steps|
  {
    if n < |steps| {
      assert steps[..|steps| - 1][..n] == steps[..n];
      StoppingAnywhere(law, d, steps[..|steps| - 1], n);
    } else if n > 0 {
      assert steps[..n] == steps;
      assert steps[..n - 1][..n - 1] == steps[..n - 1];
      StoppingAnywhere(law, d, steps[..n - 1], n - 1);
      StepKeepsConsistent(law, Exec(d, steps[..n - 1]), steps[n - 1]);
    }
  }

  lemma {:induction false} LawfulAppend(law: Law, d: Disk, a: seq<Step>, b: seq<Step>)
    requires LawfulRun(law, d, a) && LawfulRun(law, Exec(d, a), b)
    ensures LawfulRun(law, d, a + b)
    decreases |b|
  {
    if b == [] {
      assert a + b == a;
    } else {
      var n := |b| - 1;
      assert (a + b)[..|a + b| - 1] == a + b[..n];
      LawfulAppend(law, d, a, b[..n]);
      ExecAppend(d, a, b[..n]);
    }
  }

  /** Steps that are lawful in any state. */
  ghost predicate Harmless(law: Law, s: Step) {
    && !s.Rename?
    && (s.Upsert? ==> s.key in law.stageOf && s.stage == law.stageOf[s.key] && s.id == IDForKey(s.key))
  }

  lemma {:induction false} HarmlessRun(law: Law, d: Disk, steps: seq<Step>)
    requires forall s | s in steps :: Harmless(law, s)
    ensures LawfulRun(law, d, steps)
    decreases |steps|
  {
    if steps != [] {
      var n := |steps| - 1;
      HarmlessRun(law, d, steps[..n]);
      assert Harmless(law, steps[n]);
      assert Lawful(law, Exec(d, steps[..n]), steps[n]);
    }
  }

  // ---------------------------------------------------------------------
  // Operations
  // ---------------------------------------------------------------------

  datatype Finish = Commits | Aborts(fault: AbortFault) | Stops

  datatype Op =
    /** Begin, the stage's writes, then Commit, Abort or neither. */
    | Attempt(stage: string, key: string, files: Files, primary: string, finish: Finish)
    | Collect(stage: string, retention: int)
    | Clear(order: seq<string>)
    | Sweep(leftovers: seq<nat>)

  ghost function FinishSteps(op: Op, temp: nat): seq<Step>
    requires op.Attempt?
  {
    match op.finish
    case Commits =>
      if Publishable(Contents(op.files), op.primary) then CommitSteps(temp, op.stage, op.key, op.primary) else []
    case Aborts(fault) => AbortSteps(temp, op.stage, op.key, fault)
    case Stops => []
  }

  ghost function OpSteps(d: Disk, op: Op): seq<Step> {
    match op
    case Attempt(stage, key, files, primary, finish) => BeginSteps(d, files) + FinishSteps(op, d.nextTemp)
    case Collect(stage, retention) => if UniqueIds(d) then GCSteps(d, stage, retention) else []
    case Clear(order) => if forall k | k in order :: k in d.rows then RemoveAllSteps(d, order) else []
    case Sweep(order) => SweepSteps(order)
  }

  function PublishedDir(stage: string, key: string, files: map<string, Content>, primary: string): Dir {
    Dir(Some(Manifest(IDForKey(key), stage, key, primary)), files)
  }

  /** An attempt uses a key of its stage and publishes what the law asks for. */
  ghost predicate Obeys(law: Law, op: Op) {
    op.Attempt? ==>
      && op.key in law.stageOf && law.stageOf[op.key] == op.stage
      && (op.finish.Commits? && Publishable(Contents(op.files), op.primary) ==>
            law.dir(PublishedDir(op.stage, op.key, Contents(op.files), op.primary)))
  }

  /** Writing files changes the writer's own directory and nothing else. */
  lemma {:induction false} WritesFillTemp(d: Disk, temp: nat, files: Files)
    requires temp in d.temps && d.temps[temp] == Dir(None, map[])
    ensures Exec(d, Writes(temp, files)) == d.(temps := d.temps[temp := Dir(None, Contents(files))])
    decreases |files|
  {
    if files == [] {
      assert Writes(temp, files) == [];
      assert d.temps[temp := Dir(None, map[])] == d.temps;
    } else {
      var n := |files| - 1;
      WritesFillTemp(d, temp, files[..n]);
      assert Writes(temp, files)[..n] == Writes(temp, files[..n]);
      assert Writes(temp, files)[n] == WriteFile(temp, files[n].0, files[n].1);
      assert d.temps[temp := Dir(None, Contents(files[..n]))][temp := Dir(None, Contents(files))]
          == d.temps[temp := Dir(None, Contents(files))];
    }
  }

  lemma AfterBegin(d: Disk, files: Files)
    ensures Exec(d, BeginSteps(d, files))
         == d.(temps := d.temps[d.nextTemp := Dir(None, Contents(files))], nextTemp := d.nextTemp + 1)
  {
    var d1 := Do(d, MakeTemp);
    ExecAppend(d, [MakeTemp], Writes(d.nextTemp, files));
    assert [MakeTemp][..0] == [];
    assert Exec(d, [MakeTemp]) == d1;
    WritesFillTemp(d1, d.nextTemp, files);
    assert d.temps[d.nextTemp := Dir(None, map[])][d.nextTemp := Dir(None, Contents(files))]
        == d.temps[d.nextTemp := Dir(None, Contents(files))];
  }

  /** Each of an operation's steps is lawful in the state it is performed in. */
  lemma OpsAreLawful(law: Law, d: Disk, op: Op)
    requires Consistent(law, d) && Obeys(law, op)
    ensures LawfulRun(law, d, OpSteps(d, op))
  {
    match op
    case Attempt(stage, key, files, primary, finish) => AttemptIsLawful(law, d, op);
    case Collect(stage, retention) =>
      PruneStepsAreHarmless(law, PlacesOf(d, Pruned(d, stage, retention)));
      HarmlessRun(law, d, OpSteps(d, op));
    case Clear(order) =>
      if forall k | k in order :: k in d.rows {
        PruneStepsAreHarmless(law, PlacesOf(d, order));
      }
      HarmlessRun(law, d, OpSteps(d, op));
    case Sweep(order) => HarmlessRun(law, d, OpSteps(d, op));
  }

  lemma {:induction false} PruneStepsAreHarmless(law: Law, places: seq<Place>)
    ensures forall s | s in PruneSteps(places) :: Harmless(law, s)
    decreases |places|
  {
    if places != [] {
      PruneStepsAreHarmless(law, places[..|places| - 1]);
    }
  }

  /** Every step of a commit is lawful, given the directory it publishes. */
  lemma CommitIsLawful(law: Law, d: Disk, temp: nat, stage: string, key: string, primary: string, steps: seq<Step>)
    requires temp in d.temps && key in law.stageOf && law.stageOf[key] == stage
    requires primary in d.temps[temp].files && law.dir(PublishedDir(stage, key, d.temps[temp].files, primary))
    requires steps == CommitSteps(temp, stage, key, primary)
    ensures LawfulRun(law, d, steps)
  {
    StepByStep(d, steps);
    assert steps[..4][..3] == steps[..3] && steps[..3][..2] == steps[..2] && steps[..2][..1] == steps[..1];
    assert steps[..1][..0] == [];
    var d1 := Do(d, steps[0]);
    assert d1.temps[temp] == PublishedDir(stage, key, d.temps[temp].files, primary);
    assert Do(d1, steps[1]).temps == d1.temps;
    assert PublishedAt(law, (stage, IDForKey(key)), d1.temps[temp]);
    assert LawfulRun(law, d, []);
    assert LawfulRun(law, d, steps[..1]);
    assert LawfulRun(law, d, steps[..2]);
    assert LawfulRun(law, d, steps[..3]);
    assert steps[..3] == steps[..|steps| - 1];
  }

  lemma AttemptIsLawful(law: Law, d: Disk, op: Op)
    requires op.Attempt? && Consistent(law, d) && Obeys(law, op)
    ensures LawfulRun(law, d, OpSteps(d, op))
  {
    var begin, finish := BeginSteps(d, op.files), FinishSteps(op, d.nextTemp);
    HarmlessRun(law, d, begin);
    AfterBegin(d, op.files);
    if op.finish.Commits? && Publishable(Contents(op.files), op.primary) {
      CommitIsLawful(law, Exec(d, begin), d.nextTemp, op.stage, op.key, op.primary, finish);
    } else {
      HarmlessRun(law, Exec(d, begin), finish);
    }
    LawfulAppend(law, d, begin, finish);
  }

  // ---------------------------------------------------------------------
  // Crash safety over whole histories
  // ---------------------------------------------------------------------

  /** One operation: complete; or stopped by a crash or an error after some of
      its steps; or with these temporary directories swept away under it then. */
  datatype Run = Whole(op: Op) | Stopped(op: Op, after: nat) | Swept(op: Op, after: nat, leftovers: seq<nat>)

  /** What still happens of an attempt whose directory is gone, after so many of
      its steps. A commit refuses a primary that is not there, and ends when the
      manifest or the rename fails; past the rename it needs the directory no more. */
  function WithoutTemp(op: Op, temp: nat, finish: seq<Step>, finished: nat): seq<Step>
    requires op.Attempt?
  {
    match op.finish
    case Stops => []
    case Aborts(_) => if finished <= |finish| then finish[finished..] else []
    case Commits =>
      if finished == 1 && |finish| > 1 then [finish[1]]
      else if finished >= 3 && finished <= |finish| then finish[finished..]
      else []
  }

  /** What follows such a sweep after `n` of an operation's steps. */
  ghost function RestAfterSweep(d: Disk, op: Op, n: nat, leftovers: seq<nat>): seq<Step> {
    if op.Attempt? && d.nextTemp in leftovers then
      var begun := 1 + |op.files|;
      WithoutTemp(op, d.nextTemp, FinishSteps(op, d.nextTemp), if n < begun then 0 else n - begun)
    else []
  }

  ghost function SweptSteps(d: Disk, op: Op, n: nat, leftovers: seq<nat>): seq<Step>
    requires n <= |OpSteps(d, op)|
  {
    OpSteps(d, op)[..n] + (SweepSteps(leftovers) + RestAfterSweep(d, op, n, leftovers))
  }

  ghost function RunSteps(d: Disk, r: Run): seq<Step> {
    match r
    case Whole(op) => OpSteps(d, op)
    case Stopped(op, after) => OpSteps(d, op)[..Min(after, |OpSteps(d, op)|)]
    case Swept(op, after, leftovers) => SweptSteps(d, op, Min(after, |OpSteps(d, op)|), leftovers)
  }

  ghost function AfterOne(d: Disk, r: Run): Disk {
    Exec(d, RunSteps(d, r))
  }

  ghost function After(d: Disk, history: seq<Run>): Disk
    decreases |history|
  {
    if history == [] then d
    else AfterOne(After(d, history[..|history| - 1]), history[|history| - 1])
  }

  ghost predicate AllObey(law: Law, history: seq<Run>) {
    forall i | 0 <= i < |history| :: Obeys(law, history[i].op)
  }

  lemma RestIsHarmless(law: Law, d: Disk, op: Op, n: nat, leftovers: seq<nat>)
    requires Obeys(law, op)
    ensures forall s | s in SweepSteps(leftovers) + RestAfterSweep(d, op, n, leftovers) :: Harmless(law, s)
  {
    var rest := RestAfterSweep(d, op, n, leftovers);
    forall s | s in rest ensures Harmless(law, s) {
      var finish := FinishSteps(op, d.nextTemp);
      assert s in finish && !s.Rename?;
    }
    forall s | s in SweepSteps(leftovers) + rest ensures s in SweepSteps(leftovers) || s in rest {}
  }

  lemma SweptIsLawful(law: Law, d: Disk, op: Op, n: nat, leftovers: seq<nat>)
    requires Consistent(law, d) && Obeys(law, op) && LawfulRun(law, d, OpSteps(d, op)) && n <= |OpSteps(d, op)|
    ensures LawfulRun(law, d, SweptSteps(d, op, n, leftovers))
  {
    var steps, more := OpSteps(d, op), SweepSteps(leftovers) + RestAfterSweep(d, op, n, leftovers);
    PrefixIsLawful(law, d, steps, n);
    RestIsHarmless(law, d, op, n, leftovers);
    HarmlessRun(law, Exec(d, steps[..n]), more);
    LawfulAppend(law, d, steps[..n], more);
  }

  lemma {:induction false} PrefixIsLawful(law: Law, d: Disk, steps: seq<Step>, n: nat)
    requires LawfulRun(law, d, steps) && n <= |steps|
    ensures LawfulRun(law, d, steps[..n])
    decreases |steps|
  {
    if n < |steps| {
      PrefixIsLawful(law, d, steps[..|steps| - 1], n);
      assert steps[..|steps| - 1][..n] == steps[..n];
    } else {
      assert steps[..n] == steps;
    }
  }

  lemma PerformedLawfully(law: Law, d: Disk, r: Run)
    requires Consistent(law, d) && Obeys(law, r.op)
    ensures LawfulRun(law, d, RunSteps(d, r))
  {
    OpsAreLawful(law, d, r.op);
    match r
    case Whole(op) =>
    case Stopped(op, after) => PrefixIsLawful(law, d, OpSteps(d, op), Min(after, |OpSteps(d, op)|));
    case Swept(op, after, leftovers) => SweptIsLawful(law, d, op, Min(after, |OpSteps(d, op)|), leftovers);
  }

  lemma {:induction false} HistoriesKeepConsistent(law: Law, d: Disk, history: seq<Run>)
    requires Consistent(law, d) && AllObey(law, history)
    ensures Consistent(law, After(d, history))
    decreases |history|
  {
    if history != [] {
      var n := |history| - 1;
      HistoriesKeepConsistent(law, d, history[..n]);
      var d1 := After(d, history[..n]);
      PerformedLawfully(law, d1, history[n]);
      var steps := RunSteps(d1, history[n]);
      assert steps[..|steps|] == steps;
      StoppingAnywhere(law, d1, steps, |steps|);
    }
  }

  /** A hit always opens: the directory is there, its manifest names this very
      key, and the primary it declares is in it. */
  lemma HitsOpen(law: Law, d: Disk, key: string)
    requires Consistent(law, d) && DistinctIds(law.stageOf.Keys)
    ensures Lookup(d, key).Some? ==>
              var a := Lookup(d, key).value;
              && (a.stage, a.id) in d.dirs
              && d.dirs[(a.stage, a.id)].manifest.Some?
              && d.dirs[(a.stage, a.id)].manifest.value.key == key
              && law.dir(d.dirs[(a.stage, a.id)])
              && Open(d, a).Some?
  {
    if Lookup(d, key).Some? {
      var a := Lookup(d, key).value;
      assert RowFits(law, key, d.rows[key], d.clock);
      assert PublishedAt(law, (a.stage, a.id), d.dirs[(a.stage, a.id)]);
    }
  }

  /** After any history of operations, each stopped wherever a crash stopped
      it, Lookup is a miss or a directory of that very key. */
  lemma CrashSafety(law: Law, history: seq<Run>, key: string)
    requires AllObey(law, history) && DistinctIds(law.stageOf.Keys)
    ensures var d := After(EMPTY_DISK, history);
            Lookup(d, key).Some? ==>
              var a := Lookup(d, key).value;
              && Open(d, a).Some?
              && d.dirs[(a.stage, a.id)].manifest.Some?
              && d.dirs[(a.stage, a.id)].manifest.value.key == key
  {
    HistoriesKeepConsistent(law, EMPTY_DISK, history);
    HitsOpen(law, After(EMPTY_DISK, history), key);
  }

  /** Commit's four steps, in a store where no other key has this id. */
  lemma CommitOutcome(d: Disk, temp: nat, stage: string, key: string, primary: string)
    requires temp in d.temps && !IdTaken(d, key, IDForKey(key))
    requires key in d.rows ==> d.rows[key].id == IDForKey(key) && d.rows[key].stage == stage
    ensures var id := IDForKey(key);
            Exec(d, CommitSteps(temp, stage, key, primary)) == d.(
              rows := d.rows[key := Row(id, stage, Ready, d.clock)],
              dirs := d.dirs[(stage, id) := PublishedDir(stage, key, d.temps[temp].files, primary)],
              temps := d.temps - {temp}, clock := d.clock + 1)
  {
    var id := IDForKey(key);
    StepByStep(d, CommitSteps(temp, stage, key, primary));
    var dir := PublishedDir(stage, key, d.temps[temp].files, primary);
    assert d.temps[temp := dir] - {temp} == d.temps - {temp};
    assert (d.dirs - {(stage, id)})[(stage, id) := dir] == d.dirs[(stage, id) := dir];
  }

  lemma AbortOutcome(d: Disk, temp: nat, stage: string, key: string, fault: AbortFault)
    requires !IdTaken(d, key, IDForKey(key))
    requires key in d.rows ==> d.rows[key].id == IDForKey(key) && d.rows[key].stage == stage
    ensures Exec(d, AbortSteps(temp, stage, key, fault)) == d.(
              rows := if fault.losesRow then d.rows else d.rows[key := Row(IDForKey(key), stage, Errored, d.clock)],
              temps := if fault.keepsTemp then d.temps else d.temps - {temp},
              clock := if fault.losesRow then d.clock else d.clock + 1)
  {
    var drop, record := DropTemp(temp), Upsert(key, IDForKey(key), stage, Errored);
    var d1 := d.(temps := d.temps - {temp});
    if fault.losesRow {
      assert AbortSteps(temp, stage, key, fault) == if fault.keepsTemp then [] else [drop];
      ExecOne(d, drop);
    } else if fault.keepsTemp {
      assert AbortSteps(temp, stage, key, fault) == [record];
      ExecOne(d, record);
      RecordFailure(d, stage, key);
    } else {
      assert AbortSteps(temp, stage, key, fault) == [drop, record];
      TwoSteps(d, drop, record);
      assert Do(d, drop) == d1;
      RecordFailure(d1, stage, key);
    }
  }

  lemma RecordFailure(d: Disk, stage: string, key: string)
    requires !IdTaken(d, key, IDForKey(key))
    requires key in d.rows ==> d.rows[key].id == IDForKey(key) && d.rows[key].stage == stage
    ensures Do(d, Upsert(key, IDForKey(key), stage, Errored))
         == d.(rows := d.rows[key := Row(IDForKey(key), stage, Errored, d.clock)], clock := d.clock + 1)
  {
  }

  lemma ExecOne(d: Disk, s: Step)
    ensures Exec(d, []) == d && Exec(d, [s]) == Do(d, s)
  {
    assert [s][..0] == [];
  }

  /** No id conflict can stop an attempt that obeys the law. */
  lemma IdIsFree(law: Law, d: Disk, op: Op)
    requires Consistent(law, d) && DistinctIds(law.stageOf.Keys) && op.Attempt? && Obeys(law, op)
    ensures !IdTaken(d, op.key, IDForKey(op.key))
    ensures op.key in d.rows ==> d.rows[op.key].id == IDForKey(op.key) && d.rows[op.key].stage == op.stage
  {
    forall k | k in d.rows ensures RowFits(law, k, d.rows[k], d.clock) {}
  }

  /** The writer's directory is gone once its files are published or discarded. */
  lemma TempIsGone(law: Law, d: Disk, files: map<string, Content>)
    requires Consistent(law, d)
    ensures d.temps[d.nextTemp := Dir(None, files)] - {d.nextTemp} == d.temps
  {
    assert d.nextTemp !in d.temps;
  }

  /** What a completed attempt leaves behind, whatever was there before. */
  lemma AfterCommit(law: Law, d: Disk, op: Op)
    requires Consistent(law, d) && DistinctIds(law.stageOf.Keys)
    requires op.Attempt? && op.finish.Commits? && Obeys(law, op)
    requires Publishable(Contents(op.files), op.primary)
    ensures var id := IDForKey(op.key);
            Exec(d, OpSteps(d, op)) == d.(
              rows := d.rows[op.key := Row(id, op.stage, Ready, d.clock)],
              dirs := d.dirs[(op.stage, id) := PublishedDir(op.stage, op.key, Contents(op.files), op.primary)],
              clock := d.clock + 1, nextTemp := d.nextTemp + 1)
  {
    AfterBegin(d, op.files);
    ExecAppend(d, BeginSteps(d, op.files), FinishSteps(op, d.nextTemp));
    IdIsFree(law, d, op);
    TempIsGone(law, d, Contents(op.files));
    CommitOutcome(Exec(d, BeginSteps(d, op.files)), d.nextTemp, op.stage, op.key, op.primary);
  }

  /** A failed attempt leaves a failed row, whatever directory was published
      before; or less, when clearing up fails too. */
  lemma AfterAbort(law: Law, d: Disk, op: Op)
    requires Consistent(law, d) && DistinctIds(law.stageOf.Keys)
    requires op.Attempt? && op.finish.Aborts? && Obeys(law, op)
    ensures var fault := op.finish.fault;
            Exec(d, OpSteps(d, op)) == d.(
              rows := if fault.losesRow then d.rows else d.rows[op.key := Row(IDForKey(op.key), op.stage, Errored, d.clock)],
              temps := if fault.keepsTemp then d.temps[d.nextTemp := Dir(None, Contents(op.files))] else d.temps,
              clock := if fault.losesRow then d.clock else d.clock + 1, nextTemp := d.nextTemp + 1)
  {
    AfterBegin(d, op.files);
    ExecAppend(d, BeginSteps(d, op.files), FinishSteps(op, d.nextTemp));
    IdIsFree(law, d, op);
    TempIsGone(law, d, Contents(op.files));
    AbortOutcome(Exec(d, BeginSteps(d, op.files)), d.nextTemp, op.stage, op.key, op.finish.fault);
  }

  /** Recording a failure hides whatever artifact the key had, and nothing else;
      no directory is touched. */
  lemma AbortHides(law: Law, d: Disk, op: Op, key: string)
    requires Consistent(law, d) && DistinctIds(law.stageOf.Keys)
    requires op.Attempt? && op.finish.Aborts? && Obeys(law, op)
    ensures var d' := Exec(d, OpSteps(d, op));
            && d'.dirs == d.dirs
            && Lookup(d', key) == if key == op.key && !op.finish.fault.losesRow then None else Lookup(d, key)
  {
    AfterAbort(law, d, op);
  }

  /** A step that adds nothing to the index or the published directories. */
  ghost predicate AddsNothing(s: Step) {
    s.MakeTemp? || s.WriteFile? || s.WriteManifest? || s.DropTemp? || s.DropDir?
  }

  lemma {:induction false} NothingAdded(d: Disk, steps: seq<Step>)
    requires forall s | s in steps :: AddsNothing(s)
    ensures var d' := Exec(d, steps);
            d'.rows == d.rows && forall p | p in d'.dirs :: p in d.dirs && d'.dirs[p] == d.dirs[p]
    decreases |steps|
  {
    if steps != [] {
      var n := |steps| - 1;
      assert forall s | s in steps[..n] :: s in steps;
      NothingAdded(d, steps[..n]);
      assert AddsNothing(steps[n]);
    }
  }

  /** A sweep that comes before the rename ends an attempt: it publishes nothing.
      What was published under its key may be gone, and that is all. */
  lemma SweptCannotPublish(d: Disk, op: Op, after: nat, leftovers: seq<nat>, key: string)
    requires op.Attempt? && op.finish.Commits? && d.nextTemp in leftovers && after < 1 + |op.files| + 3
    ensures var d' := AfterOne(d, Swept(op, after, leftovers));
            && d'.rows == d.rows && (forall p | p in d'.dirs :: p in d.dirs && d'.dirs[p] == d.dirs[p])
            && (Lookup(d', key) == Lookup(d, key) || Lookup(d', key) == None)
  {
    var r := Swept(op, after, leftovers);
    SweptAddsNothing(d, op, after, leftovers);
    NothingAdded(d, RunSteps(d, r));
  }

  lemma SweptAddsNothing(d: Disk, op: Op, after: nat, leftovers: seq<nat>)
    requires op.Attempt? && op.finish.Commits? && after < 1 + |op.files| + 3
    ensures forall s | s in RunSteps(d, Swept(op, after, leftovers)) :: AddsNothing(s)
  {
    var begin, finish := BeginSteps(d, op.files), FinishSteps(op, d.nextTemp);
    var steps := OpSteps(d, op);
    var n := Min(after, |steps|);
    forall i | 0 <= i < n ensures AddsNothing(steps[i]) {
      if i < |begin| { assert steps[i] == begin[i]; } else { assert steps[i] == finish[i - |begin|]; }
    }
    forall s | s in steps[..n] ensures AddsNothing(s) {
      var i :| 0 <= i < n && steps[..n][i] == s;
      assert steps[i] == s;
    }
  }

  const PUBLISHED := Attempt("asr", "k", [("speech.json", "text")], "speech.json", Commits)

  const FAILED_RERUN := Attempt("asr", "k", [], "", Aborts(AbortFault(false, false)))

  /** A published artifact, then a forced attempt on its key that fails: the
      artifact is no longer found, although it is all there. */
  lemma FailedRerunHidesArtifact()
    ensures var d, d' := After(EMPTY_DISK, [Whole(PUBLISHED)]), After(EMPTY_DISK, [Whole(PUBLISHED), Whole(FAILED_RERUN)]);
            && Lookup(d, "k").Some? && Lookup(d', "k") == None
            && d'.dirs == d.dirs && Open(d', Lookup(d, "k").value) == Some("text")
  {
    var law := Law(map[PUBLISHED.key := PUBLISHED.stage], (dir: Dir) => true);
    var d := After(EMPTY_DISK, [Whole(PUBLISHED)]);
    assert After(EMPTY_DISK, []) == EMPTY_DISK;
    assert [Whole(PUBLISHED)][..0] == [] && [Whole(PUBLISHED), Whole(FAILED_RERUN)][..1] == [Whole(PUBLISHED)];
    assert PUBLISHED.files[..0] == [];
    RetriesCommit(law, [], PUBLISHED);
    HistoriesKeepConsistent(law, EMPTY_DISK, [Whole(PUBLISHED)]);
    AbortHides(law, d, FAILED_RERUN, PUBLISHED.key);
  }

  /** Whatever crashes came before, a later attempt on any key can still
      commit, and what it published is then what Lookup finds. */
  lemma RetriesCommit(law: Law, history: seq<Run>, op: Op)
    requires AllObey(law, history) && DistinctIds(law.stageOf.Keys)
    requires op.Attempt? && op.finish.Commits? && Obeys(law, op)
    requires Publishable(Contents(op.files), op.primary)
    ensures var d := After(EMPTY_DISK, history);
            var d' := Exec(d, OpSteps(d, op));
            var a := Artifact(IDForKey(op.key), op.stage, op.key);
            && !IdTaken(d, op.key, IDForKey(op.key))
            && Lookup(d', op.key) == Some(a)
            && Open(d', a) == Some(Contents(op.files)[op.primary])
  {
    var d := After(EMPTY_DISK, history);
    HistoriesKeepConsistent(law, EMPTY_DISK, history);
    IdIsFree(law, d, op);
    AfterCommit(law, d, op);
  }
}
