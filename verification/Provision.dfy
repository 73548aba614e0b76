/** The installer: internal/provision/provision.go.

  Callers start and cancel runs while a run's goroutine works through its
  steps. The methods below are the stretches between which others can come: a
  block under the manager's lock, a look at the context, a call of the callback,
  the end of a step. What `Valid` says holds in every interleaving of them.
  */
module Provision {
  import opened Optional

  datatype Phase = Detect | Interpreter | Dependencies | Verify

  const STEPS := [Detect, Interpreter, Dependencies, Verify]

  datatype Status = Idle | Running | Ready | Failed | Cancelled

  /** What a run's callback is told. */
  datatype Notice = Entered(phase: Phase) | Ended(status: Status, phase: Phase)

  /** Where a run's goroutine is; `step` counts from zero. A callback is read
      under the lock and called outside it. */
  datatype Where =
    | Checking(step: nat)
    | Reporting(step: nat)
    | Notifying(step: nat, to: Option<nat>)
    | Stepping(step: nat)
    | Finishing(status: Status, phase: Phase, told: nat)
    | Announcing(status: Status, phase: Phase, told: nat, to: Option<nat>)
    | Done(status: Status, phase: Phase, told: nat)
  {
    /** The run still does work: until its end is recorded. */
    predicate InFlight() { !Announcing? && !Done? }
  }

  function Entries(n: nat): seq<Notice>
    requires n <= |STEPS|
  {
    seq(n, i requires 0 <= i < n => Entered(STEPS[i]))
  }

  /** The step at which a run can end in each way, `n` steps having been entered. */
  ghost predicate EndFits(status: Status, phase: Phase, n: nat) {
    && n <= 4
    && match status
       case Ready => n == 4 && phase == Verify
       case Failed => n > 0 && phase == STEPS[n - 1]
       case Cancelled => (n > 0 && phase == STEPS[n - 1]) || (n < 4 && phase == STEPS[n])
       case _ => false
  }

  class Manager {
    var running: bool
    var status: Status
    var phase: Phase
    /** Which run's callback is installed, if any. */
    var onProgress: Option<nat>
    /** The runs accepted so far: where each is, what its callback was told,
        and which contexts were ended. */
    var runs: seq<Where>
    var told: seq<seq<Notice>>
    var cancelled: set<nat>

    constructor ()
      ensures Valid() && !running && status == Idle && runs == []
    {
      running, status, phase, onProgress, runs, told, cancelled := false, Idle, Detect, None, [], [], {};
    }

    /** What a run's callback has been told fits where the run is. */
    static ghost predicate Told(w: Where, notices: seq<Notice>) {
      match w
      case Checking(i) => i < 4 && notices == Entries(i)
      case Reporting(i) => i < 4 && notices == Entries(i)
      case Notifying(i, _) => i < 4 && notices == Entries(i)
      case Stepping(i) => i < 4 && notices == Entries(i + 1)
      case Finishing(status, phase, n) => EndFits(status, phase, n) && notices == Entries(n)
      case Announcing(status, phase, n, _) => EndFits(status, phase, n) && notices == Entries(n)
      case Done(status, phase, n) => EndFits(status, phase, n) && notices == Entries(n) + [Ended(status, phase)]
    }

    /** A run calls its own callback and no other. */
    static ghost predicate CallsOwn(k: nat, w: Where) {
      (w.Notifying? ==> w.to == Some(k)) && (w.Announcing? ==> w.to == Some(k))
    }

    ghost predicate RunOk(k: nat)
      requires k < |runs| == |told|
      reads this
    {
      && Told(runs[k], told[k]) && CallsOwn(k, runs[k])
      && (runs[k].InFlight() <==> running && k == |runs| - 1)
    }

    ghost predicate Valid()
      reads this
    {
      && |runs| == |told|
      && (forall k | 0 <= k < |runs| :: RunOk(k))
      && (running ==> runs != [] && status == Running && onProgress == Some(|runs| - 1))
      && (!running ==> onProgress == None)
      && (!running ==> if runs == [] then status == Idle
                       else !runs[|runs| - 1].InFlight() && status == runs[|runs| - 1].status)
    }

    /** Run `k` moves on, its callback being told something or nothing. */
    ghost predicate Moved(k: nat, before: seq<Where>, now: Where, heard: seq<seq<Notice>>, more: seq<Notice>)
      requires k < |before| && k < |heard|
      reads this
    {
      runs == before[k := now] && told == heard[k := heard[k] + more]
    }

    /** Start accepts a run exactly when none is in flight. */
    method Start() returns (accepted: bool)
      requires Valid()
      modifies this
      ensures Valid() && accepted == !old(running)
      ensures accepted ==> running && runs == old(runs) + [Checking(0)] && told == old(told) + [[]]
      ensures !accepted ==> unchanged(this)
    {
      if running { return false; }
      running := true;
      onProgress := Some(|runs|);
      status, phase := Running, Detect;
      ghost var before, heard := runs, told;
      runs := runs + [Checking(0)];
      told := told + [[]];
      assert Entries(0) == [];
      assert told[|before|] == [];
      forall k | 0 <= k < |runs| ensures RunOk(k) {
        if k < |before| { assert old(RunOk(k)); }
      }
      accepted := true;
    }

    /** Cancel picks up the run in flight, if there is one... */
    method PickCancel() returns (run: Option<nat>)
      requires Valid()
      ensures run == if running then Some(|runs| - 1) else None
    {
      run := if running then onProgress else None;
    }

    /** ... and then ends that run's context, whatever has started since. */
    method EndContext(run: nat)
      requires Valid() && run < |runs|
      modifies this`cancelled
      ensures Valid() && cancelled == old(cancelled) + {run}
    {
      cancelled := cancelled + {run};
      forall k | 0 <= k < |runs| ensures RunOk(k) { assert old(RunOk(k)); }
    }

    /** Before each step the run looks at its context. */
    method Check(k: nat)
      requires Valid() && k < |runs| && runs[k].Checking?
      modifies this`runs
      ensures Valid() && told == old(told)
      ensures var i := old(runs)[k].step;
              i < 4 && runs == old(runs)[k := if k in cancelled then Finishing(Cancelled, STEPS[i], i) else Reporting(i)]
    {
      assert RunOk(k);
      var i := runs[k].step;
      runs := runs[k := if k in cancelled then Finishing(Cancelled, STEPS[i], i) else Reporting(i)];
      forall j | 0 <= j < |runs| ensures RunOk(j) { assert old(RunOk(j)); }
    }

    /** Entering a step is recorded under the lock. */
    method Report(k: nat)
      requires Valid() && k < |runs| && runs[k].Reporting?
      modifies this`runs, this`status, this`phase
      ensures Valid() && told == old(told)
      ensures var i := old(runs)[k].step;
              i < 4 && runs == old(runs)[k := Notifying(i, Some(k))] && phase == STEPS[i] && status == Running
    {
      assert RunOk(k);
      phase, status := STEPS[runs[k].step], Running;
      runs := runs[k := Notifying(runs[k].step, onProgress)];
      forall j | 0 <= j < |runs| ensures RunOk(j) { assert old(RunOk(j)); }
    }

    /** Then the callback is told, outside the lock. */
    method Notify(k: nat)
      requires Valid() && k < |runs| && runs[k].Notifying?
      modifies this`runs, this`told
      ensures Valid()
      ensures var i := old(runs)[k].step;
              i < 4 && Moved(k, old(runs), Stepping(i), old(told), [Entered(STEPS[i])])
    {
      assert RunOk(k);
      var i, to := runs[k].step, runs[k].to;
      if to.Some? { told := told[to.value := told[to.value] + [Entered(STEPS[i])]]; }
      runs := runs[k := Stepping(i)];
      assert Entries(i + 1) == Entries(i) + [Entered(STEPS[i])];
      forall j | 0 <= j < |runs| ensures RunOk(j) { assert old(RunOk(j)); }
    }

    /** A step succeeds or fails. A failure with the context ended is a cancellation. */
    method EndStep(k: nat, ok: bool)
      requires Valid() && k < |runs| && runs[k].Stepping?
      modifies this`runs
      ensures Valid() && told == old(told)
      ensures var i := old(runs)[k].step;
              i < 4 && runs == old(runs)[k := if !ok && k in cancelled then Finishing(Cancelled, STEPS[i], i + 1)
                                              else if !ok then Finishing(Failed, STEPS[i], i + 1)
                                              else if i == 3 then Finishing(Ready, Verify, 4)
                                              else Checking(i + 1)]
    {
      assert RunOk(k);
      var i := runs[k].step;
      if !ok {
        runs := runs[k := Finishing(if k in cancelled then Cancelled else Failed, STEPS[i], i + 1)];
      } else if i == 3 {
        runs := runs[k := Finishing(Ready, Verify, 4)];
      } else {
        runs := runs[k := Checking(i + 1)];
      }
      forall j | 0 <= j < |runs| ensures RunOk(j) { assert old(RunOk(j)); }
    }

    /** The end is recorded under the lock, and the manager is free. */
    method Finish(k: nat)
      requires Valid() && k < |runs| && runs[k].Finishing?
      modifies this`runs, this`running, this`onProgress, this`status, this`phase
      ensures Valid() && told == old(told) && !running
      ensures var w := old(runs)[k];
              && runs == old(runs)[k := Announcing(w.status, w.phase, w.told, Some(k))]
              && status == w.status && phase == w.phase
    {
      assert RunOk(k);
      var w := runs[k];
      running := false;
      status, phase := w.status, w.phase;
      runs := runs[k := Announcing(w.status, w.phase, w.told, onProgress)];
      onProgress := None;
      forall j | 0 <= j < |runs| ensures RunOk(j) { assert old(RunOk(j)); }
    }

    /** Then it is announced, outside the lock: another run may have started. */
    method Announce(k: nat)
      requires Valid() && k < |runs| && runs[k].Announcing?
      modifies this`runs, this`told
      ensures Valid()
      ensures var w := old(runs)[k];
              Moved(k, old(runs), Done(w.status, w.phase, w.told), old(told), [Ended(w.status, w.phase)])
    {
      assert RunOk(k);
      var w := runs[k];
      if w.to.Some? { told := told[w.to.value := told[w.to.value] + [Ended(w.status, w.phase)]]; }
      runs := runs[k := Done(w.status, w.phase, w.told)];
      forall j | 0 <= j < |runs| ensures RunOk(j) { assert old(RunOk(j)); }
    }
  }

  function Entering(steps: seq<Phase>): seq<Notice> {
    seq(|steps|, i requires 0 <= i < |steps| => Entered(steps[i]))
  }

  lemma EntriesEnter(n: nat)
    requires n <= 4
    ensures Entries(n) == Entering([Detect, Interpreter, Dependencies, Verify][..n])
  {
  }

  // ---------------------------------------------------------------------
  // What callers can rely on
  // ---------------------------------------------------------------------

  /** Runs never overlap: of all accepted runs, only the last can be in flight,
      and one is exactly while the manager says so. */
  lemma RunsNeverOverlap(m: Manager, a: nat, b: nat)
    requires m.Valid() && a < |m.runs| && b < |m.runs|
    ensures m.runs[a].InFlight() && m.runs[b].InFlight() ==> a == b
    ensures m.running <==> exists k :: 0 <= k < |m.runs| && m.runs[k].InFlight()
  {
    assert m.RunOk(a) && m.RunOk(b);
    if m.running {
      assert m.RunOk(|m.runs| - 1);
    }
    forall k | 0 <= k < |m.runs| && m.runs[k].InFlight() ensures m.running { assert m.RunOk(k); }
  }

  /** How a callback's story ends, when it does, with these steps entered. */
  ghost predicate Ends(told: seq<Notice>, n: nat, status: Status, phase: Phase)
    requires n <= 4
  {
    var steps := [Detect, Interpreter, Dependencies, Verify];
    && told == Entering(steps[..n]) + [Ended(status, phase)]
    && (status == Ready || status == Failed || status == Cancelled)
    && (status == Ready ==> n == 4 && phase == Verify)
    && (status == Failed ==> n > 0 && phase == steps[n - 1])
    && (status == Cancelled ==> (n > 0 && phase == steps[n - 1]) || (n < 4 && phase == steps[n]))
  }

  /** A callback is told of the steps entered, in order and without omissions,
      and at most one ending, last; an ending is ready only after all four steps,
      a failure is that of the last step entered, and a cancellation that of the
      last one entered or of the one that was to be entered next. */
  lemma CallbackSees(m: Manager, k: nat)
    requires m.Valid() && k < |m.runs|
    ensures exists n :: 0 <= n <= 4 &&
              (m.told[k] == Entering([Detect, Interpreter, Dependencies, Verify][..n])
               || exists status: Status, phase: Phase :: Ends(m.told[k], n, status, phase))
    ensures m.runs[k].Done? <==> m.told[k] != [] && m.told[k][|m.told[k]| - 1].Ended?
  {
    assert m.RunOk(k);
    var w := m.runs[k];
    var n := if w.Stepping? then w.step + 1 else if w.Checking? || w.Reporting? || w.Notifying? then w.step else w.told;
    EntriesEnter(n);
    if w.Done? {
      assert Ends(m.told[k], n, w.status, w.phase);
    } else {
      assert m.told[k] == Entries(n);
    }
  }
}
