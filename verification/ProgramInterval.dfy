// What is switched on while a program is being cancelled: which steps start one of its waiting runs, over
// the whole time from the wait onwards.

module ProgramInterval {
  import opened Runs
  import opened RingSpec
  import opened RunnerSpec
  import opened RunnerInvariant
  import opened RunnerHistory
  import opened RunnerLine
  import opened ProgramSpec
  import opened ProgramBarrier
  import opened ProgramOrder

  // ---- One runner event ----

  // The event makes the runner go on to the next run in line: it ends the current run, or it ends a pause in
  // which nothing is current.
  predicate GoesOn(s: State, e: Event) {
    match e
    case Submit(_, _, _) => false
    case Receive(_) => false
    case CancelSection(sec) => s.current.Some? && s.current.value.run.sec == sec
    case CancelID(id) => s.current.Some? && (id == SR_ID_ALL || s.current.value.run.id == id)
    case SetPaused(on) => s.paused && !on && s.current.None?
    case Timer => s.current.Some?
  }

  // The event leaves r first in line.
  predicate LeavesFirst(s: State, e: Event, r: Run) {
    var w := Waiting(LineOf(s), e);
    w != [] && w[0] == r
  }

  lemma CurrentIsStarted(s: State)
    requires Inv(s)
    ensures s.current.Some? ==> s.current.value.run in s.log.started
  {
  }

  lemma StartedIsCurrent(s: State, e: Stamped, r: Run)
    requires Inv(s) && Sound(s.queue) && Enabled(s, e) && r !in s.log.started
    ensures r in Step(s, e).log.started <==> CurrentRun(Step(s, e)) == [r]
  {
    hide Inv, Step;
    var t := Step(s, e);
    StepGrows(s, e);
    StepKeeps(s, e);
    CurrentIsStarted(t);
    assert StartsCurrent(s, t);
  }

  // The event brings r to a runner with nothing else to do.
  predicate MeetsIdle(s: State, e: Event, r: Run) {
    e == Receive(r) && s.current.None? && !s.paused
  }

  lemma FirstServed(s: State, r: Run)
    ensures CurrentRun(s) == [r] <==> LineOf(s).serving && LineOf(s).waiting[0] == r
  {
  }

  lemma LineStarts(s: State, e: Stamped, r: Run)
    requires Inv(s) && Enabled(s, e) && r !in s.log.started
    ensures var l := LineStep(LineOf(s), e.event);
            l.serving && l.waiting[0] == r
            <==> MeetsIdle(s, e.event, r) || (GoesOn(s, e.event) && LeavesFirst(s, e.event, r))
  {
    hide Inv;
    var l := LineOf(s);
    NeverIdle(s);
    CurrentIsStarted(s);
    match e.event
    case CancelSection(sec) => if s.current.Some? { MissedCons(l.waiting[0], Queued(s), OfSection(sec)); }
    case Timer => TimerServes(s, e);
    case _ =>
  }

  // A run that has not been started yet is started by exactly two kinds of event: its own reception by an
  // idle runner, and an event that makes the runner go on and leaves that run first in line.
  lemma StartsIff(s: State, e: Stamped, r: Run)
    requires Inv(s) && Sound(s.queue) && Enabled(s, e) && r !in s.log.started
    ensures r in Step(s, e).log.started
            <==> MeetsIdle(s, e.event, r) || (GoesOn(s, e.event) && LeavesFirst(s, e.event, r))
  {
    hide Inv, Step, Waiting;
    StartedIsCurrent(s, e, r);
    StepRefinesLine(s, e);
    FirstServed(Step(s, e), r);
    LineStarts(s, e, r);
  }

  // ---- One action ----

  // The runner receives a cancel that the program sent for a run of this batch.
  predicate OwnCancel(s: System, a: Action, batch: seq<Run>) {
    a.Deliver? && s.wire != [] && exists j :: 0 <= j < |batch| && batch[j].id == s.wire[0]
  }

  predicate GoesOnTo(s: System, a: Action, r: Run) {
    var e := RunnerEvent(s, a);
    e.Some? && GoesOn(s.runner, e.value.event) && LeavesFirst(s.runner, e.value.event, r)
  }

  // The action starts the waiting run r of this batch.  One of the program's own cancels for the batch does
  // so only if the cancel of r had come before r.
  predicate Starts(s: System, a: Action, batch: seq<Run>, r: Run) {
    || (RunnerEvent(s, a).Some? && MeetsIdle(s.runner, RunnerEvent(s, a).value.event, r))
    || (GoesOnTo(s, a, r) && (OwnCancel(s, a, batch) ==> r in s.overtaken))
  }

  lemma MoveStartsIff(s: System, a: Action, t: System, batch: seq<Run>, k: nat)
    requires OrderInv(s) && Move(s, a, t)
    requires (batch in s.retired || batch == Current(s)) && k < |batch| && batch[k] !in s.runner.log.started
    ensures batch[k] in t.runner.log.started <==> Starts(s, a, batch, batch[k])
  {
    hide Inv, Step, WireHolds, ArriveInOrder, PhaseHolds, RetiredSettled, GoesOn, LeavesFirst;
    var e := RunnerEvent(s, a);
    if e.Some? { StartsIff(s.runner, e.value, batch[k]); }
    if batch[k] in t.runner.log.started && OwnCancel(s, a, batch) {
      var j :| 0 <= j < |batch| && batch[j].id == s.wire[0];
      DeliverStartsNoOther(s, a, t, batch, j, k);
    }
  }

  // ---- Over a whole history ----

  // An invocation that has submitted everything is at work on its batch or has retired it.
  ghost predicate Holds(s: System, batch: seq<Run>) {
    batch in s.retired || ((s.phase.Awaiting? || s.phase.Cancelling?) && s.phase.batch == batch)
  }

  lemma MoveHolds(s: System, a: Action, t: System, batch: seq<Run>)
    requires SysInv(s) && Move(s, a, t) && Holds(s, batch)
    ensures Holds(t, batch)
  {
    hide Inv, Step, RetiredSettled;
  }

  lemma StartedStep(s: System, a: Action, t: System, batch: seq<Run>, k: nat)
    requires OrderInv(s) && Move(s, a, t) && Holds(s, batch) && k < |batch|
    ensures Holds(t, batch)
    ensures batch[k] in t.runner.log.started <==> batch[k] in s.runner.log.started || Starts(s, a, batch, batch[k])
  {
    hide Step, Starts, WireHolds, ArriveInOrder, PhaseHolds, RetiredSettled;
    MoveHolds(s, a, t, batch);
    if batch[k] !in s.runner.log.started {
      MoveStartsIff(s, a, t, batch, k);
    } else {
      var e := RunnerEvent(s, a);
      if e.Some? { StepGrows(s.runner, e.value); }
    }
  }

  // From any moment of the wait onwards, through the cancel loop and after, a run of the batch is started
  // exactly when some step starts it.
  lemma {:induction false} StartedIff(ss: seq<System>, acts: seq<Action>, m: nat, n: nat, batch: seq<Run>, k: nat)
    requires History(ss, acts) && m <= n <= |acts| && k < |batch|
    requires ss[m].phase.Awaiting? && ss[m].phase.batch == batch && batch[k] !in ss[m].runner.log.started
    ensures Holds(ss[n], batch)
    ensures batch[k] in ss[n].runner.log.started <==> exists i :: m <= i < n && Starts(ss[i], acts[i], batch, batch[k])
    decreases n
  {
    hide OrderInv, SysInv, Step, Starts;
    if m < n {
      StartedIff(ss, acts, m, n - 1, batch, k);
      OrderReachable(ss, acts, n - 1);
      assert Move(ss[n - 1], acts[n - 1], ss[n - 1 + 1]);
      StartedStep(ss[n - 1], acts[n - 1], ss[n], batch, k);
    }
  }

  lemma NotReceivedAgain(s: System, a: Action, r: Run)
    requires SysInv(s) && Possible(s, a) && r in s.runner.log.arrived
    ensures RunnerEvent(s, a).Some? ==> RunnerEvent(s, a).value.event != Receive(r)
  {
    IDsApart(s.runner);
  }

  lemma ReceivedStarts(ss: seq<System>, acts: seq<Action>, m: nat, i: nat, batch: seq<Run>, k: nat)
    requires History(ss, acts) && m <= i < |acts| && k < |batch|
    requires ss[m].phase.Awaiting? && ss[m].phase.batch == batch && batch[k] in ss[m].runner.log.arrived
    ensures Starts(ss[i], acts[i], batch, batch[k])
            <==> GoesOnTo(ss[i], acts[i], batch[k]) && !OwnCancel(ss[i], acts[i], batch)
  {
    hide SysInv, GoesOnTo, OwnCancel, Step;
    OrderReachable(ss, acts, m);
    NeverOvertaken(ss, acts, m, i, batch[k]);
    SystemReachable(ss, acts, i);
    assert Move(ss[i], acts[i], ss[i + 1]);
    NotReceivedAgain(ss[i], acts[i], batch[k]);
  }

  // A run that the runner had received by then: its own program's cancels never start it.
  lemma ReceivedStartedIff(ss: seq<System>, acts: seq<Action>, m: nat, n: nat, batch: seq<Run>, k: nat)
    requires History(ss, acts) && m <= n <= |acts| && k < |batch|
    requires ss[m].phase.Awaiting? && ss[m].phase.batch == batch
    requires batch[k] in ss[m].runner.log.arrived && batch[k] !in ss[m].runner.log.started
    ensures batch[k] in ss[n].runner.log.started
            <==> exists i :: m <= i < n && GoesOnTo(ss[i], acts[i], batch[k]) && !OwnCancel(ss[i], acts[i], batch)
  {
    hide GoesOnTo, OwnCancel, MeetsIdle;
    StartedIff(ss, acts, m, n, batch, k);
    forall i | m <= i < n
      ensures Starts(ss[i], acts[i], batch, batch[k])
              <==> GoesOnTo(ss[i], acts[i], batch[k]) && !OwnCancel(ss[i], acts[i], batch)
    {
      ReceivedStarts(ss, acts, m, i, batch, k);
    }
  }

  // Nothing makes the runner go on except, perhaps, one of the program's own cancels for this batch.
  // Submissions, receptions, pauses and the program's own steps are quiet in every state.
  predicate Quiet(s: System, a: Action, batch: seq<Run>) {
    var e := RunnerEvent(s, a);
    e.Some? && GoesOn(s.runner, e.value.event) ==> OwnCancel(s, a, batch)
  }

  // In a quiet interval that begins while the program waits, no run of it is started that the runner had
  // received and not started at the beginning.
  lemma QuietStartsNone(ss: seq<System>, acts: seq<Action>, m: nat, n: nat, batch: seq<Run>, k: nat)
    requires History(ss, acts) && m <= n <= |acts| && k < |batch|
    requires ss[m].phase.Awaiting? && ss[m].phase.batch == batch && batch[k] in ss[m].runner.log.arrived
    requires forall i :: m <= i < n ==> Quiet(ss[i], acts[i], batch)
    ensures batch[k] in ss[n].runner.log.started ==> batch[k] in ss[m].runner.log.started
  {
    hide GoesOn, LeavesFirst, OwnCancel;
    if batch[k] !in ss[m].runner.log.started {
      ReceivedStartedIff(ss, acts, m, n, batch, k);
    }
  }

  lemma OutputIsCurrent(ss: seq<System>, acts: seq<Action>, n: nat, output: nat)
    requires History(ss, acts) && n <= |acts| && output in ss[n].runner.outputs
    ensures var s := ss[n].runner;
            s.current.Some? && s.current.value.run.sec.interfaceID == output && s.current.value.run in s.log.started
  {
    SystemReachable(ss, acts, n);
    CurrentIsStarted(ss[n].runner);
  }

  lemma StartedNotOver(s: State, r: Run)
    requires Inv(s) && r in s.log.started && !Over(s, r)
    ensures CurrentRun(s) == [r]
  {
  }

  lemma StillCurrent(ss: seq<System>, acts: seq<Action>, m: nat, n: nat, r: Run)
    requires History(ss, acts) && m <= n <= |acts|
    requires r in ss[m].runner.log.started && CurrentRun(ss[n].runner) == [r]
    ensures CurrentRun(ss[m].runner) == [r]
  {
    hide Step;
    SystemReachable(ss, acts, m);
    if Over(ss[m].runner, r) {
      OverStays(ss, acts, m, n, r);
    } else {
      StartedNotOver(ss[m].runner, r);
    }
  }

  // So an output that is on at the end is that of a run of somebody else, or of one that the runner had not
  // received at the beginning, or of the very run that was current then.
  lemma QuietOutputs(ss: seq<System>, acts: seq<Action>, m: nat, n: nat, batch: seq<Run>, output: nat)
    requires History(ss, acts) && m <= n <= |acts|
    requires ss[m].phase.Awaiting? && ss[m].phase.batch == batch
    requires forall i :: m <= i < n ==> Quiet(ss[i], acts[i], batch)
    requires output in ss[n].runner.outputs
    ensures exists r :: CurrentRun(ss[n].runner) == [r] && r.sec.interfaceID == output
                        && (r in batch && r in ss[m].runner.log.arrived ==> CurrentRun(ss[m].runner) == [r])
  {
    hide Step, Quiet, SysInv;
    OutputIsCurrent(ss, acts, n, output);
    var r := ss[n].runner.current.value.run;
    if r in batch && r in ss[m].runner.log.arrived {
      var k :| 0 <= k < |batch| && batch[k] == r;
      QuietStartsNone(ss, acts, m, n, batch, k);
      StillCurrent(ss, acts, m, n, r);
    }
    assert CurrentRun(ss[n].runner) == [r];
  }
}
