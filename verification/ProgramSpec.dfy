// A program on top of the section runner: it submits its runs, waits for them in order, and when it is
// cancelled it cancels what is left from last to first.  Every action of the program, of the runner and of
// any other user is one step, in any interleaving.

module ProgramSpec {
  import opened Wrappers
  import opened Runs
  import opened RingSpec
  import opened RunnerSpec
  import opened RunLists
  import opened RunnerInvariant
  import opened RunnerHistory
  import opened RunnerSignals
  import opened RunnerLine

  datatype Item = Item(sec: Section, duration: int)

  // Where Program.run is.  `batch` are the runs submitted so far; Awaiting(i) waits for the i-th Done channel;
  // Cancelling(i, j) has sent the ids of batch[j..] and stops at i.
  datatype Phase =
    | Idle
    | Submitting(batch: seq<Run>)
    | Awaiting(batch: seq<Run>, i: nat)
    | Cancelling(batch: seq<Run>, i: nat, j: nat)

  // `wire` holds the ids that the program has sent on the cancelID channel and the runner has not yet
  // received.  History: `mine` are all runs the program ever submitted, `retired` the batches of the
  // invocations that are over, `overtaken` the runs whose cancel was received before they were.
  datatype System = System(runner: State, running: bool, items: seq<Item>, phase: Phase, wire: seq<int>,
                           mine: set<Run>, retired: seq<seq<Run>>, overtaken: set<Run>)

  datatype Action =
    | Other(event: Stamped)        // the runner, or another user of it
    | Launch(items: seq<Item>)     // Program.run begins
    | SubmitNext(time: int)
    | AwaitNext
    | CancelRequest                // somebody cancels the program
    | SendCancel
    | Deliver(time: int)           // the runner receives one of the program's cancels
    | Return

  function Start(now: int): System {
    System(Init(now), false, [], Idle, [], {}, [], {})
  }

  function NextRun(s: System): Run
    requires s.phase.Submitting? && |s.phase.batch| < |s.items|
  {
    var item := s.items[|s.phase.batch|];
    Run(s.runner.nextID, item.sec, item.duration, true)
  }

  // The runner event behind an action.
  function RunnerEvent(s: System, a: Action): Option<Stamped> {
    match a
    case Other(e) => Some(e)
    case SubmitNext(t) =>
      if s.phase.Submitting? && |s.phase.batch| < |s.items| then
        Some(At(t, Submit(NextRun(s).sec, NextRun(s).total, true)))
      else None
    case Deliver(t) => if s.wire != [] then Some(At(t, CancelID(s.wire[0]))) else None
    case _ => None
  }

  predicate Done(s: System) {
    match s.phase
    case Awaiting(batch, i) => i == |batch|
    case Cancelling(batch, i, j) => i == j
    case _ => false
  }

  // The program's runs are sent by one goroutine, so they are received in the order of submission.
  predicate Possible(s: System, a: Action) {
    && (RunnerEvent(s, a).Some? ==> Enabled(s.runner, RunnerEvent(s, a).value))
    && match a
       case Other(e) => e.event.Receive? && e.event.run in s.mine ==>
         forall q :: q in s.runner.pending && q in s.mine ==> e.event.run.id <= q.id
       case Launch(_) => true
       case SubmitNext(_) => s.phase.Submitting? && |s.phase.batch| < |s.items|
       case AwaitNext =>
         match s.phase {
           case Submitting(batch) => |batch| == |s.items|
           case Awaiting(batch, i) => i < |batch| && SignalCount(s.runner, batch[i]) >= 1
           case _ => false
         }
       case CancelRequest => s.phase.Awaiting? && s.phase.i < |s.phase.batch|
       case SendCancel => s.phase.Cancelling? && s.phase.i < s.phase.j <= |s.phase.batch|
       case Deliver(_) => s.wire != []
       case Return => Done(s)
  }

  function Act(s: System, a: Action): System
    requires Possible(s, a) && Sound(s.runner.queue)
  {
    var r := if RunnerEvent(s, a).Some? then Step(s.runner, RunnerEvent(s, a).value) else s.runner;
    match a
    case Other(_) => s.(runner := r)
    case Launch(items) => if s.running then s else s.(running := true, items := items, phase := Submitting([]))
    case SubmitNext(_) =>
      s.(runner := r, phase := Submitting(s.phase.batch + [NextRun(s)]), mine := s.mine + {NextRun(s)})
    case AwaitNext =>
      s.(phase := if s.phase.Submitting? then Awaiting(s.phase.batch, 0) else Awaiting(s.phase.batch, s.phase.i + 1))
    case CancelRequest => s.(phase := Cancelling(s.phase.batch, s.phase.i, |s.phase.batch|))
    case SendCancel =>
      s.(phase := s.phase.(j := s.phase.j - 1), wire := s.wire + [s.phase.batch[s.phase.j - 1].id])
    case Deliver(_) =>
      s.(runner := r, wire := s.wire[1..],
         overtaken := s.overtaken + set q | q in s.runner.pending && q.id == s.wire[0])
    case Return => s.(running := false, phase := Idle, retired := s.retired + [s.phase.batch])
  }

  ghost predicate Move(s: System, a: Action, t: System) {
    Possible(s, a) && Sound(s.runner.queue) && t == Act(s, a)
  }

  ghost predicate History(ss: seq<System>, acts: seq<Action>) {
    && |ss| == |acts| + 1
    && ss[0] == Start(ss[0].runner.now)
    && forall k :: 0 <= k < |acts| ==> Move(ss[k], acts[k], ss[k + 1])
  }

  // ---- What every action keeps ----

  // A run is taken care of: it is over, or its cancel is on the wire, or its cancel came too early.
  predicate Settled(s: System, r: Run) {
    Over(s.runner, r) || r.id in s.wire || r in s.overtaken
  }

  predicate Known(s: System, r: Run) {
    r in s.runner.pending || r in s.runner.log.arrived
  }

  ghost predicate IncreasingIDs(b: seq<Run>) {
    forall i, j :: 0 <= i < j < |b| ==> b[i].id < b[j].id
  }

  ghost predicate BatchKnown(s: System, b: seq<Run>) {
    IncreasingIDs(b) && forall k :: 0 <= k < |b| ==> b[k] in s.mine && b[k].notify
  }

  ghost predicate PhaseHolds(s: System) {
    && (s.running <==> s.phase != Idle)
    && match s.phase
       case Idle => true
       case Submitting(b) => BatchKnown(s, b) && |b| <= |s.items|
       case Awaiting(b, i) => BatchKnown(s, b) && i <= |b| && forall k :: 0 <= k < i ==> Over(s.runner, b[k])
       case Cancelling(b, i, j) =>
         BatchKnown(s, b) && i <= j <= |b|
         && (forall k :: 0 <= k < i ==> Over(s.runner, b[k]))
         && (forall k :: j <= k < |b| ==> Settled(s, b[k]))
  }

  ghost predicate RetiredSettled(s: System) {
    forall b :: b in s.retired ==> BatchKnown(s, b) && forall k :: 0 <= k < |b| ==> Settled(s, b[k])
  }

  ghost predicate SysInv(s: System) {
    && Inv(s.runner)
    && (forall r :: r in s.mine ==> Known(s, r))
    && PhaseHolds(s)
    && RetiredSettled(s)
  }

  // ---- One runner event ----

  lemma PendingMoves(s: State, e: Stamped)
    requires Sound(s.queue) && Enabled(s, e)
    ensures var t := Step(s, e);
            match e.event
            case Submit(sec, total, notify) =>
              t.pending == s.pending + {Run(s.nextID, sec, total, notify)} && t.log.arrived == s.log.arrived
            case Receive(r) => t.pending == s.pending - {r} && t.log.arrived == s.log.arrived + [r]
            case _ => t.pending == s.pending && t.log.arrived == s.log.arrived
  {
  }

  lemma OverGrows(s: State, t: State, r: Run)
    requires Grows(s, t) && Over(s, r)
    ensures Over(t, r)
  {
    if r in RunsOf(s.log.ended) {
      var k :| 0 <= k < |s.log.ended| && RunsOf(s.log.ended)[k] == r;
      assert RunsOf(t.log.ended)[k] == r;
    }
  }

  lemma EventKeeps(s: State, e: Stamped, r: Run)
    requires Inv(s) && Enabled(s, e)
    ensures var t := Step(s, e);
            && Inv(t)
            && (Over(s, r) ==> Over(t, r))
            && (r in s.log.arrived ==> r in t.log.arrived)
            && (r in s.pending ==> r in t.pending || r in t.log.arrived)
  {
    StepKeeps(s, e);
    StepGrows(s, e);
    PendingMoves(s, e);
    if Over(s, r) { OverGrows(s, Step(s, e), r); }
  }

  // A cancel that is received after the run was ends it; one that is received before does not.
  lemma DeliverSettles(s: State, e: Stamped, r: Run)
    requires Inv(s) && Sound(s.queue) && Enabled(s, e) && e.event == CancelID(r.id) && r.id != SR_ID_ALL
    requires r in s.pending || r in s.log.arrived
    ensures var t := Step(s, e);
            && (r in s.log.arrived ==> Over(t, r))
            && (r !in s.log.arrived ==> !Over(t, r) && r in t.pending)
  {
    hide Inv;
    var t := Step(s, e);
    StepKeeps(s, e);
    CancelBarrier(s, e);
    PendingMoves(s, e);
    ExactlyOnePlace(t, r);
    assert r in s.log.arrived ==> r !in CurrentRun(t) + Queued(t);
  }
}
