/** Jobs: internal/jobs/job.go, internal/jobs/runner.go, and the part of
  internal/app/run.go that starts and concludes them.

  Callers start and cancel runs while the goroutines of earlier runs go on, so
  `Start` and `execute` are divided into the steps between which others can
  come: each method of class `App` is one of them. What `Valid` says holds in
  every interleaving.
  */
module Jobs {
  import opened Optional
  import Runs = Execution
  import Settlement

  datatype Status = Pending | Running | Paused | Completed | Failed | Cancelled {
    predicate Terminal() { Completed? || Failed? || Cancelled? }
  }

  /** The job state machine. */
  function Transitions(from: Status): set<Status> {
    match from
    case Pending => {Running, Cancelled, Failed}
    case Running => {Paused, Completed, Failed, Cancelled, Pending}
    case Paused => {Running, Cancelled, Failed}
    case _ => {}
  }

  predicate CanTransition(from: Status, to: Status) {
    to in Transitions(from)
  }

  /** Staying where one is needs no transition. */
  predicate Allowed(from: Status, to: Status) {
    from == to || CanTransition(from, to)
  }

  datatype Job = Job(project: string, status: Status, progress: real)

  type Rows = map<string, Job>

  /** What has ended stays; anything else can fail or be cancelled; a pending or
      paused job can run, and only a running one can pause, complete or go back
      to waiting. */
  lemma TransitionsAre(from: Status, to: Status)
    ensures CanTransition(from, to) <==>
              && (from == Pending || from == Running || from == Paused)
              && (|| to == Failed || to == Cancelled
                  || (to == Running && from != Running)
                  || (from == Running && (to == Paused || to == Completed || to == Pending)))
  {
  }

  function Clamp(v: real): (r: real)
    ensures 0.0 <= r <= 1.0
    ensures 0.0 <= v <= 1.0 ==> r == v
    ensures (v < 0.0 ==> r == 0.0) && (v > 1.0 ==> r == 1.0)
  {
    if v < 0.0 then 0.0 else if v > 1.0 then 1.0 else v
  }

  /** A stage's fraction weighted by its place among all stages. */
  function OverallProgress(total: nat, ordinal: int, fraction: real): real {
    if total == 0 then fraction
    else Clamp((((if ordinal - 1 < 0 then 0 else ordinal - 1) as real) + Clamp(fraction)) / (total as real))
  }

  lemma Fractions(x: real, y: real, n: real)
    requires x <= y && n > 0.0
    ensures x / n <= y / n
  {
  }

  lemma ShareOf(total: nat, ordinal: int, fraction: real)
    requires 1 <= ordinal <= total && 0.0 <= fraction <= 1.0
    ensures OverallProgress(total, ordinal, fraction) == ((ordinal - 1) as real + fraction) / (total as real)
  {
    var done := (ordinal - 1) as real + fraction;
    Fractions(0.0, done, total as real);
    Fractions(done, total as real, total as real);
  }

  /** The stages share the job's progress evenly, in order: it starts at zero,
      ends at one, and does not fall from one report to a later one. */
  lemma ProgressAdvances(total: nat, a: int, f: real, b: int, g: real)
    requires 1 <= a <= b <= total && 0.0 <= f <= 1.0 && 0.0 <= g <= 1.0 && (a == b ==> f <= g)
    ensures OverallProgress(total, a, f) <= OverallProgress(total, b, g)
    ensures OverallProgress(total, a, f) == ((a - 1) as real + f) / (total as real)
    ensures OverallProgress(total, 1, 0.0) == 0.0 && OverallProgress(total, total, 1.0) == 1.0
  {
    ShareOf(total, a, f);
    ShareOf(total, b, g);
    ShareOf(total, 1, 0.0);
    ShareOf(total, total, 1.0);
    Fractions((a - 1) as real + f, (b - 1) as real + g, total as real);
  }

  /** How a job's row may have come to be another: legal transitions only. */
  ghost predicate Leads(from: Job, to: Job) {
    && from.project == to.project && from.progress <= to.progress
    && (from.status == to.status || !from.status.Terminal())
  }

  /** Rows are never dropped, a terminal status never changes, and progress never falls. */
  ghost predicate Later(a: Rows, b: Rows) {
    forall j | j in a :: j in b && Leads(a[j], b[j])
  }

  lemma LaterIsTransitive(a: Rows, b: Rows, c: Rows)
    requires Later(a, b) && Later(b, c)
    ensures Later(a, c)
  {
  }

  // ---------------------------------------------------------------------
  // The table of jobs
  // ---------------------------------------------------------------------

  /** The jobs a process that is gone may have been running. */
  function Interrupted(rows: Rows): set<string> {
    set j | j in rows && (rows[j].status.Running? || rows[j].status.Paused?)
  }

  function MarkedFailed(rows: Rows, ids: set<string>): Rows {
    map j | j in rows :: if j in ids then rows[j].(status := Failed) else rows[j]
  }

  lemma MarkedFailedNext(rows: Rows, ids: set<string>, j: string)
    requires j in Interrupted(rows) && j !in ids
    ensures MarkedFailed(rows, ids)[j] == rows[j]
    ensures MarkedFailed(rows, ids + {j}) == MarkedFailed(rows, ids)[j := rows[j].(status := Failed)]
  {
  }

  lemma MarkedFailedLater(rows: Rows, ids: set<string>)
    requires ids <= Interrupted(rows)
    ensures Later(rows, MarkedFailed(rows, ids))
    ensures Interrupted(MarkedFailed(rows, ids)) == Interrupted(rows) - ids
    ensures ids == {} ==> MarkedFailed(rows, ids) == rows
  {
  }

  /** Some jobs that were running or paused have failed, and no row changed otherwise. */
  ghost predicate GivenUp(was: Rows, ids: set<string>, now: Rows) {
    && now.Keys == was.Keys
    && (forall j | j in now :: now[j] == if j in ids then was[j].(status := Failed) else was[j])
    && (forall j | j in ids :: j in was && (was[j].status == Running || was[j].status == Paused))
  }

  lemma MarkedFailedMeans(rows: Rows, ids: set<string>)
    requires ids <= Interrupted(rows)
    ensures GivenUp(rows, ids, MarkedFailed(rows, ids))
    ensures var now := MarkedFailed(rows, ids);
            ids == Interrupted(rows) ==> forall j | j in now :: now[j].status != Running && now[j].status != Paused
  {
  }

  datatype Refusal = AlreadyExists | NotFound | IllegalTransition | StorageFault

  /** `fault` on a method says that the database fails it. */
  class Repository {
    var rows: Rows

    constructor (rows: Rows)
      ensures this.rows == rows
    {
      this.rows := rows;
    }

    method Create(id: string, project: string, fault: bool) returns (refusal: Option<Refusal>)
      modifies this
      ensures if fault then refusal == Some(StorageFault) && rows == old(rows)
              else if id in old(rows) then refusal == Some(AlreadyExists) && rows == old(rows)
              else refusal == None && rows == old(rows)[id := Job(project, Pending, 0.0)]
    {
      if fault { return Some(StorageFault); }
      if id in rows { return Some(AlreadyExists); }
      rows := rows[id := Job(project, Pending, 0.0)];
      return None;
    }

    /** Moves a job to a status, if the machine allows it. */
    method SetStatus(id: string, to: Status, fault: bool) returns (refusal: Option<Refusal>)
      modifies this
      ensures if fault then refusal == Some(StorageFault) && rows == old(rows)
              else if id !in old(rows) then refusal == Some(NotFound) && rows == old(rows)
              else if !Allowed(old(rows)[id].status, to) then refusal == Some(IllegalTransition) && rows == old(rows)
              else refusal == None && rows == old(rows)[id := old(rows)[id].(status := to)]
      ensures Later(old(rows), rows)
    {
      if fault { return Some(StorageFault); }
      if id !in rows { return Some(NotFound); }
      if !Allowed(rows[id].status, to) { return Some(IllegalTransition); }
      rows := rows[id := rows[id].(status := to)];
      return None;
    }

    method SetProgress(id: string, progress: real)
      modifies this
      ensures rows.Keys == old(rows).Keys && Later(old(rows), rows)
      ensures forall j | j in rows :: rows[j].status == old(rows)[j].status && (j != id ==> rows[j] == old(rows)[j])
      ensures id in rows ==>
                rows[id].progress == (if old(rows)[id].progress < Clamp(progress) then Clamp(progress)
                    else old(rows)[id].progress)
    {
      if id in rows && rows[id].progress < Clamp(progress) {
        rows := rows[id := rows[id].(progress := Clamp(progress))];
      }
    }

    method MarkFailed(j: string, ghost was: Rows, ghost done: set<string>)
      requires rows == MarkedFailed(was, done) && j in Interrupted(was) && j !in done
      modifies this
      ensures rows == MarkedFailed(was, done + {j})
    {
      MarkedFailedNext(was, done, j);
      var refusal := SetStatus(j, Failed, false);
    }

    /** Resolves the jobs a previous process left running, until the database
        fails after `fault` of them. */
    method Reconcile(fault: nat) returns (reconciled: set<string>)
      modifies this
      ensures reconciled <= Interrupted(old(rows)) && |reconciled| <= fault
      ensures reconciled == Interrupted(old(rows)) || |reconciled| == fault
      ensures GivenUp(old(rows), reconciled, rows)
      ensures |reconciled| == fault || forall j | j in rows :: rows[j].status != Running && rows[j].status != Paused
      ensures Later(old(rows), rows) && Interrupted(rows) == Interrupted(old(rows)) - reconciled
    {
      ghost var was := rows;
      var left := Interrupted(rows);
      reconciled := {};
      MarkedFailedLater(was, {});
      while left != {} && |reconciled| < fault
        invariant reconciled !! left && reconciled + left == Interrupted(was) && |reconciled| <= fault
        invariant rows == MarkedFailed(was, reconciled)
        decreases left
      {
        var j :| j in left;
        MarkFailed(j, was, reconciled);
        reconciled := reconciled + {j};
        left := left - {j};
      }
      MarkedFailedLater(was, reconciled);
      MarkedFailedMeans(was, reconciled);
    }
  }

  // ---------------------------------------------------------------------
  // One job per project
  // ---------------------------------------------------------------------

  datatype Execution = Execution(jobID: string, cancelled: bool)

  class Scheduler {
    var running: map<string, Execution>

    constructor ()
      ensures running == map[]
    {
      running := map[];
    }

    /** Takes a free project. */
    method Begin(project: string, jobID: string) returns (claimed: bool)
      modifies this
      ensures claimed <==> project !in old(running)
      ensures running == if claimed then old(running)[project := Execution(jobID, false)] else old(running)
    {
      if project in running { return false; }
      running := running[project := Execution(jobID, false)];
      return true;
    }

    method Finish(project: string)
      modifies this
      ensures running == old(running) - {project}
    {
      if project in running { running := running - {project}; }
    }

    /** Cancels whatever job holds the project. */
    method Cancel(project: string) returns (found: bool)
      modifies this
      ensures found <==> project in old(running)
      ensures running == if found then old(running)[project := old(running)[project].(cancelled := true)] else old(running)
    {
      if project !in running { return false; }
      running := running[project := running[project].(cancelled := true)];
      return true;
    }
  }

  // ---------------------------------------------------------------------
  // Runs
  // ---------------------------------------------------------------------

  /** Where the run holding a project is. */
  datatype Phase = Claimed | Created | Executing | Decided(outcome: Status) | Concluded | Refused {
    /** The run has a row of its own. */
    predicate Admitted() { !Claimed? && !Refused? }
  }

  function StatusOf(outcome: Settlement.JobOutcome): Status {
    match outcome
    case JobCancelled => Cancelled
    case JobFailed(_) => Failed
    case JobCompleted => Completed
  }

  /** What a run's job is to say: cancelled when the run or its context was,
      failed when a stage has an error or was blocked, else completed. */
  ghost predicate TellsHow(outcome: Status, end: Runs.Ended, cancelled: bool) {
    outcome ==
      if end.cancelled || cancelled then Cancelled
      else if exists j | 0 <= j < |end.progress.plan| :: end.progress.plan[j].err.Some? || end.progress.plan[j].blocked
      then Failed
      else Completed
  }

  lemma OutcomeTells(end: Runs.Ended, cancelled: bool)
    ensures TellsHow(StatusOf(Settlement.OutcomeOfJob(end, cancelled)), end, cancelled)
  {
    Settlement.NoProblemMeans(end.progress.plan);
  }

  /** Every row was made here or inherited, and inherited rows are left alone. */
  ghost predicate Accounted(rows: Rows, created: map<string, bool>, inherited: Rows) {
    && (forall j | j in rows :: j in created || j in inherited)
    && (forall j | j in inherited :: j !in created && j in rows && rows[j] == inherited[j])
  }

  /** Writing a row of one's own leaves the inherited ones alone. */
  lemma StillAccounted(rows: Rows, created: map<string, bool>, inherited: Rows, id: string, job: Job, fault: bool)
    requires Accounted(rows, created, inherited) && (id in created || id !in rows)
    ensures Accounted(rows[id := job], created[id := fault], inherited)
    ensures id in created ==> Accounted(rows, created[id := fault], inherited) && Accounted(rows[id := job], created, inherited)
  {
  }

  class App {
    const jobs: Repository
    const scheduler: Scheduler
    /** Where the goroutine of each claimed project is. */
    var runs: map<string, Phase>
    /** The jobs this process made a row for, and whether the database failed a
        write of their status since. */
    ghost var created: map<string, bool>
    /** The rows the last process left. */
    ghost const inherited: Rows

    /** A process starts with whatever rows the last one left. */
    constructor (rows: Rows)
      ensures Valid() && jobs.rows == rows && scheduler.running == map[] && fresh(jobs) && fresh(scheduler)
      ensures runs == map[] && created == map[] && inherited == rows
    {
      jobs := new Repository(rows);
      scheduler := new Scheduler();
      runs, created, inherited := map[], map[], rows;
    }

    /** What a run has done to its job's row so far. */
    ghost predicate RunOk(project: string)
      requires project in runs && project in scheduler.running
      reads this, jobs, scheduler
    {
      var id, cancelled := scheduler.running[project].jobID, scheduler.running[project].cancelled;
      runs[project].Admitted() ==>
        && id in created && id in jobs.rows && jobs.rows[id].project == project
        && match runs[project]
           case Created => jobs.rows[id].status == Pending
           case Executing =>
             jobs.rows[id].status == Running || (jobs.rows[id].status == Pending && (created[id] || cancelled))
           case Decided(outcome) =>
             && outcome.Terminal()
             && (jobs.rows[id].status == Running
                 || (jobs.rows[id].status == Pending && (created[id] || outcome == Cancelled)))
           case Concluded => jobs.rows[id].status.Terminal() || created[id]
           case _ => true
    }

    /** The job's row belongs to the run that holds its project. */
    ghost predicate Held(id: string)
      requires id in jobs.rows && runs.Keys == scheduler.running.Keys
      reads this, jobs, scheduler
    {
      var p := jobs.rows[id].project;
      p in runs && scheduler.running[p].jobID == id && runs[p].Admitted()
    }

    /** A job with a row is held by its run, has ended, or had a write fail. */
    ghost predicate JobOk(id: string)
      requires id in created && runs.Keys == scheduler.running.Keys
      reads this, jobs, scheduler
    {
      id in jobs.rows && (Held(id) || jobs.rows[id].status.Terminal() || created[id])
    }

    ghost predicate Valid()
      reads this, jobs, scheduler
    {
      && runs.Keys == scheduler.running.Keys
      && (forall p {:trigger RunOk(p)} | p in runs :: RunOk(p))
      && (forall j {:trigger JobOk(j)} | j in created :: JobOk(j))
      && Accounted(jobs.rows, created, inherited)
    }

    /** Start, first step: the project is claimed, or the caller is refused. */
    method Begin(project: string, id: string) returns (claimed: bool)
      requires Valid()
      modifies this, scheduler
      ensures Valid() && jobs.rows == old(jobs.rows) && created == old(created)
      ensures claimed <==> project !in old(runs)
      ensures runs == if claimed then old(runs)[project := Claimed] else old(runs)
      ensures scheduler.running == if claimed then old(scheduler.running)[project := Execution(id, false)]
          else old(scheduler.running)
    {
      claimed := scheduler.Begin(project, id);
      if claimed { runs := runs[project := Claimed]; }
      forall p | p in runs ensures RunOk(p) { assert p in old(runs) ==> old(RunOk(p)); }
      forall j | j in created ensures JobOk(j) { assert old(JobOk(j)); }
    }

    /** Start, second step: the job's row is made. A caller that named a job that
        exists is refused, as is one whose row cannot be written; the project is
        released in the next step. */
    method Create(project: string, fault: bool) returns (refusal: Option<Refusal>)
      requires Valid() && project in runs && runs[project] == Claimed
      modifies this, jobs
      ensures Valid() && Later(old(jobs.rows), jobs.rows)
      ensures var id := scheduler.running[project].jobID;
              && (refusal.Some? <==> fault || id in old(jobs.rows))
              && jobs.rows == (if refusal.None? then old(jobs.rows)[id := Job(project, Pending, 0.0)] else old(jobs.rows))
              && created == (if refusal.None? then old(created)[id := false] else old(created))
      ensures runs == old(runs)[project := if refusal.None? then Created else Phase.Refused]
    {
      var id := scheduler.running[project].jobID;
      if id !in jobs.rows { StillAccounted(jobs.rows, created, inherited, id, Job(project, Pending, 0.0), false); }
      refusal := jobs.Create(id, project, fault);
      runs := runs[project := if refusal.None? then Created else Phase.Refused];
      if refusal.None? { created := created[id := false]; }
      forall p | p in runs ensures RunOk(p) { assert old(RunOk(p)); }
      forall j | j in created ensures JobOk(j) { assert j in old(created) ==> old(JobOk(j)); }
    }

    /** The run marks its job as running. With its context cancelled, it cannot. */
    method MarkRunning(project: string, fault: bool)
      requires Valid() && project in runs && runs[project] == Created
      modifies this, jobs
      ensures Valid() && Later(old(jobs.rows), jobs.rows)
      ensures runs == old(runs)[project := Executing]
      ensures var id := scheduler.running[project].jobID;
              && id in old(jobs.rows)
              && jobs.rows == (if fault || scheduler.running[project].cancelled then old(jobs.rows)
                               else old(jobs.rows)[id := old(jobs.rows)[id].(status := Running)])
              && created == if fault then old(created)[id := true] else old(created)
    {
      var execution := scheduler.running[project];
      assert RunOk(project);
      StillAccounted(jobs.rows, created, inherited, execution.jobID, jobs.rows[execution.jobID].(status := Running), true);
      var refusal := jobs.SetStatus(execution.jobID, Running, fault || execution.cancelled);
      runs := runs[project := Executing];
      if fault { created := created[execution.jobID := true]; }
      forall p | p in runs ensures RunOk(p) { assert old(RunOk(p)); }
      forall j | j in created ensures JobOk(j) { assert old(JobOk(j)); }
    }

    method Progress(project: string, total: nat, ordinal: int, fraction: real)
      requires Valid() && project in runs && runs[project].Executing?
      modifies jobs
      ensures Valid() && Later(old(jobs.rows), jobs.rows)
      ensures var id, shown := scheduler.running[project].jobID, Clamp(OverallProgress(total, ordinal, fraction));
              && id in old(jobs.rows) && id in jobs.rows && jobs.rows[id].status == old(jobs.rows)[id].status
              && jobs.rows[id].progress
                   == (if old(jobs.rows)[id].progress < shown then shown else old(jobs.rows)[id].progress)
      ensures forall j | j in jobs.rows && j != scheduler.running[project].jobID ::
                j in old(jobs.rows) && jobs.rows[j] == old(jobs.rows)[j]
    {
      assert RunOk(project);
      jobs.SetProgress(scheduler.running[project].jobID, OverallProgress(total, ordinal, fraction));
      forall p | p in runs ensures RunOk(p) { assert old(RunOk(p)); }
      forall j | j in created ensures JobOk(j) { assert old(JobOk(j)); }
    }

    /** The run is over, and how it ended is looked at: a cancelled context
        makes its outcome a cancellation. Only that context cancels a run. */
    method Decide(project: string, end: Runs.Ended)
      requires Valid() && project in runs && runs[project].Executing?
      requires end.cancelled ==> scheduler.running[project].cancelled
      modifies this`runs
      ensures Valid() && project in runs && runs[project].Decided?
      ensures TellsHow(runs[project].outcome, end, scheduler.running[project].cancelled)
      ensures runs == old(runs)[project := runs[project]]
    {
      assert RunOk(project);
      OutcomeTells(end, scheduler.running[project].cancelled);
      var outcome := StatusOf(Settlement.OutcomeOfJob(end, scheduler.running[project].cancelled));
      runs := runs[project := Decided(outcome)];
      forall p | p in runs ensures RunOk(p) { assert old(RunOk(p)); }
      forall j | j in created ensures JobOk(j) { assert old(JobOk(j)); }
    }

    /** The outcome is written, even when the job's own context is cancelled. It is a legal
        transition, unless the job was never marked running and completed. */
    method Conclude(project: string, fault: bool)
      requires Valid() && project in runs && runs[project].Decided?
      modifies this, jobs
      ensures Valid() && Later(old(jobs.rows), jobs.rows) && runs == old(runs)[project := Concluded]
      ensures var id, outcome := scheduler.running[project].jobID, old(runs)[project].outcome;
              && id in old(jobs.rows) && id in old(created)
              && created == (if fault then old(created)[id := true] else old(created))
              && jobs.rows == (if fault || !CanTransition(old(jobs.rows)[id].status, outcome) then old(jobs.rows)
                               else old(jobs.rows)[id := old(jobs.rows)[id].(status := outcome)])
              && (!CanTransition(old(jobs.rows)[id].status, outcome) ==>
                    old(created)[id] && old(jobs.rows)[id].status == Pending && outcome == Completed)
    {
      var id := scheduler.running[project].jobID;
      assert RunOk(project);
      assert !CanTransition(jobs.rows[id].status, runs[project].outcome) ==>
          created[id] && jobs.rows[id].status == Pending && runs[project].outcome == Completed;
      StillAccounted(jobs.rows, created, inherited, id, jobs.rows[id].(status := runs[project].outcome), true);
      var refusal := jobs.SetStatus(id, runs[project].outcome, fault);
      runs := runs[project := Concluded];
      if fault { created := created[id := true]; }
      forall p | p in runs ensures RunOk(p) { assert old(RunOk(p)); }
      forall j | j in created ensures JobOk(j) { assert old(JobOk(j)); }
    }

    /** The project is released, after its job was concluded or its start refused.
        By then the job has ended, unless a write of its status failed. */
    method Release(project: string)
      requires Valid() && project in runs && (runs[project].Concluded? || runs[project].Refused?)
      modifies this, scheduler
      ensures Valid() && jobs.rows == old(jobs.rows) && created == old(created) && runs == old(runs) - {project}
      ensures scheduler.running == old(scheduler.running) - {project}
      ensures var id := old(scheduler.running)[project].jobID;
              old(runs)[project].Concluded? ==>
                id in created && id in jobs.rows && (jobs.rows[id].status.Terminal() || created[id])
    {
      assert RunOk(project);
      scheduler.Finish(project);
      runs := runs - {project};
      forall p | p in runs ensures RunOk(p) { assert old(RunOk(p)); }
      forall j | j in created ensures JobOk(j) { assert old(JobOk(j)); }
    }

    /** A user cancels a project's job, at any moment. */
    method Cancel(project: string) returns (found: bool)
      requires Valid()
      modifies scheduler
      ensures Valid() && runs == old(runs) && (found <==> project in runs)
      ensures scheduler.running == old(scheduler.running) +
                if found then map[project := old(scheduler.running)[project].(cancelled := true)] else map[]
    {
      found := scheduler.Cancel(project);
      forall p | p in runs ensures RunOk(p) { assert old(RunOk(p)); }
      forall j | j in created ensures JobOk(j) { assert old(JobOk(j)); }
    }
  }

  // ---------------------------------------------------------------------
  // What follows
  // ---------------------------------------------------------------------

  /** Every job that was admitted has ended by the time its project is
      released, unless the database failed a write of its status. */
  lemma JobsEndBeforeRelease(app: App, id: string)
    requires app.Valid() && id in app.created && !app.created[id]
    ensures id in app.jobs.rows
    ensures app.jobs.rows[id].status.Terminal()
            || (app.jobs.rows[id].project in app.runs && app.scheduler.running[app.jobs.rows[id].project].jobID == id)
    ensures app.jobs.rows[id].project !in app.runs ==> app.jobs.rows[id].status.Terminal()
  {
    assert app.JobOk(id);
  }

  /** If no row said running when the process started, a project has at most
      one running job at any time, and it is the one the scheduler holds, unless
      the database failed a write of its status. */
  lemma OneJobPerProject(app: App, a: string, b: string)
    requires app.Valid() && a in app.jobs.rows && b in app.jobs.rows
    requires forall j | j in app.inherited :: app.inherited[j].status != Running
    requires (a in app.created ==> !app.created[a]) && (b in app.created ==> !app.created[b])
    requires app.jobs.rows[a].status == Running && app.jobs.rows[b].status == Running
    requires app.jobs.rows[a].project == app.jobs.rows[b].project
    ensures a == b && app.jobs.rows[a].project in app.scheduler.running
    ensures app.scheduler.running[app.jobs.rows[a].project].jobID == a
  {
    OneHeldPerProject(app, a, b);
  }

  /** Faults and inherited rows apart: of the jobs this process admitted and
      could write, a project has at most one that has not ended. */
  lemma OneHeldPerProject(app: App, a: string, b: string)
    requires app.Valid() && a in app.created && b in app.created && !app.created[a] && !app.created[b]
    requires a in app.jobs.rows && !app.jobs.rows[a].status.Terminal()
    requires b in app.jobs.rows && !app.jobs.rows[b].status.Terminal()
    requires app.jobs.rows[a].project == app.jobs.rows[b].project
    ensures a == b && app.jobs.rows[a].project in app.scheduler.running
    ensures app.scheduler.running[app.jobs.rows[a].project].jobID == a
  {
    assert app.JobOk(a) && app.JobOk(b);
  }

  /** Started on a reconciled table, a process inherits nothing that is running. */
  method StartReconciled(rows: Rows) returns (app: App)
    ensures fresh(app) && app.Valid() && forall j | j in app.inherited :: app.inherited[j].status != Running
  {
    var table := new Repository(rows);
    var reconciled := table.Reconcile(|rows.Keys|);
    InterruptedAreFew(rows);
    assert Interrupted(table.rows) == {} by {
      if |reconciled| == |rows.Keys| { AllReconciled(rows, reconciled); }
    }
    app := new App(table.rows);
    assert forall j | j in app.inherited :: j !in Interrupted(table.rows);
  }

  lemma InterruptedAreFew(rows: Rows)
    ensures Interrupted(rows) <= rows.Keys && |Interrupted(rows)| <= |rows.Keys|
  {
    CountSubset(Interrupted(rows), rows.Keys);
  }

  lemma {:induction false} CountSubset(a: set<string>, b: set<string>)
    requires a <= b
    ensures |a| <= |b| && (|a| == |b| ==> a == b)
    decreases a
  {
    if x :| x in a {
      CountSubset(a - {x}, b - {x});
    }
  }

  lemma AllReconciled(rows: Rows, reconciled: set<string>)
    requires reconciled <= Interrupted(rows) && |reconciled| == |rows.Keys|
    ensures reconciled == Interrupted(rows)
  {
    CountSubset(reconciled, Interrupted(rows));
    InterruptedAreFew(rows);
  }

  /** The database failed a write of the status of the job that holds the project. */
  ghost predicate WriteFailed(app: App, project: string)
    reads app, app.scheduler
  {
    project in app.scheduler.running && app.scheduler.running[project].jobID in app.created
    && app.created[app.scheduler.running[project].jobID]
  }

  /** The job's row tells how its run ended. */
  ghost predicate RowTells(app: App, project: string, end: Runs.Ended)
    reads app.jobs, app.scheduler
  {
    && project in app.scheduler.running
    && var held := app.scheduler.running[project];
       && held.jobID in app.jobs.rows && app.jobs.rows[held.jobID].project == project
       && TellsHow(app.jobs.rows[held.jobID].status, end, held.cancelled)
  }

  /** Without a failed write, how a run ended is what its job's row says. */
  method Finish(app: App, project: string, end: Runs.Ended)
    requires app.Valid() && project in app.runs && app.runs[project].Executing? && !WriteFailed(app, project)
    requires end.cancelled ==> app.scheduler.running[project].cancelled
    modifies app, app.jobs
    ensures app.Valid() && app.runs == old(app.runs)[project := Concluded] && RowTells(app, project, end)
  {
    assert app.RunOk(project);
    app.Decide(project, end);
    assert app.RunOk(project);
    app.Conclude(project, false);
  }

  method StartUnmarked(app: App, project: string, id: string)
    requires app.Valid() && project !in app.runs && id !in app.jobs.rows
    modifies app, app.jobs, app.scheduler
    ensures app.Valid() && project in app.runs && app.runs[project] == Executing
    ensures app.scheduler.running[project] == Execution(id, false)
    ensures id in app.jobs.rows && app.jobs.rows[id] == Job(project, Pending, 0.0)
  {
    var claimed := app.Begin(project, id);
    var refusal := app.Create(project, false);
    assert app.scheduler.running[project] == Execution(id, false);
    app.MarkRunning(project, true);
  }

  /** When the write that marks a job running fails and the run then completes,
      the job is still pending after its project was released. */
  method StuckAfterFault(app: App, project: string, id: string, end: Runs.Ended)
    requires app.Valid() && project !in app.runs && id !in app.jobs.rows
    requires !end.cancelled
    requires forall j | 0 <= j < |end.progress.plan| :: end.progress.plan[j].err.None? && !end.progress.plan[j].blocked
    modifies app, app.jobs, app.scheduler
    ensures app.Valid() && project !in app.runs && id in app.jobs.rows && app.jobs.rows[id] == Job(project, Pending, 0.0)
  {
    StartUnmarked(app, project, id);
    app.Decide(project, end);
    assert app.runs[project] == Decided(Completed);
    app.Conclude(project, false);
    app.Release(project);
  }

  /** Whatever happens later, a job that ended keeps its status. */
  lemma {:induction false} TerminalIsFinal(history: seq<Rows>, id: string)
    requires history != [] && forall i | 0 < i < |history| :: Later(history[i - 1], history[i])
    requires id in history[0]
    ensures Later(history[0], history[|history| - 1])
    ensures id in history[|history| - 1]
    ensures history[0][id].progress <= history[|history| - 1][id].progress
    ensures history[0][id].status.Terminal() ==> history[|history| - 1][id].status == history[0][id].status
    decreases |history|
  {
    var n := |history| - 1;
    if n > 0 {
      TerminalIsFinal(history[..n], id);
      LaterIsTransitive(history[0], history[n - 1], history[n]);
    }
  }
}
