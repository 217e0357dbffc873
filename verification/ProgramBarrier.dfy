// What a program's cancellation guarantees.

module ProgramBarrier {
  import opened Runs
  import opened RingSpec
  import opened RunnerSpec
  import opened RunnerInvariant
  import opened RunnerHistory
  import opened RunnerSignals
  import opened ProgramSpec

  // Nothing that was settled or known is lost by an action.
  ghost predicate Persists(s: System, t: System) {
    && s.mine <= t.mine
    && (forall r :: r in s.mine && Settled(s, r) ==> Settled(t, r))
    && (forall r :: r in s.mine && Over(s.runner, r) ==> Over(t.runner, r))
    && (forall r :: r in s.mine ==> Known(s, r) && Known(t, r))
  }

  lemma BatchPersists(s: System, t: System, b: seq<Run>)
    requires Persists(s, t) && BatchKnown(s, b)
    ensures BatchKnown(t, b)
    ensures forall k :: 0 <= k < |b| && Settled(s, b[k]) ==> Settled(t, b[k])
    ensures forall k :: 0 <= k < |b| && Over(s.runner, b[k]) ==> Over(t.runner, b[k])
  {
  }

  // The batches stay settled when only the runner, the wire and the history move on.
  lemma PhasePersists(s: System, t: System)
    requires SysInv(s) && t.phase == s.phase && t.running == s.running && t.items == s.items && t.retired == s.retired
    requires Persists(s, t)
    ensures PhaseHolds(t) && RetiredSettled(t)
  {
    hide Inv, Over, Known, Settled;
    if s.phase != Idle { if BatchKnown(s, s.phase.batch) { BatchPersists(s, t, s.phase.batch); } }
    forall b | b in t.retired ensures BatchKnown(t, b) && forall k :: 0 <= k < |b| ==> Settled(t, b[k]) {
      BatchPersists(s, t, b);
    }
  }

  lemma OtherKeeps(s: System, a: Action)
    requires SysInv(s) && Possible(s, a) && Sound(s.runner.queue) && a.Other?
    ensures SysInv(Act(s, a))
  {
    hide Inv, Step, Over;
    var t := Act(s, a);
    StepKeeps(s.runner, a.event);
    forall r | r in s.mine
      ensures Known(t, r) && (Settled(s, r) ==> Settled(t, r)) && (Over(s.runner, r) ==> Over(t.runner, r))
    {
      EventKeeps(s.runner, a.event, r);
    }
    PhasePersists(s, t);
  }

  // Every submitted run has an id below the next one.
  lemma MineBelow(s: System)
    requires SysInv(s)
    ensures forall r :: r in s.mine ==> 0 <= r.id < s.runner.nextID
  {
    assert IDsFresh(s.runner);
  }

  lemma SubmitKeepsSystem(s: System, a: Action)
    requires SysInv(s) && Possible(s, a) && Sound(s.runner.queue) && a.SubmitNext?
    ensures SysInv(Act(s, a))
  {
    hide Inv, Step, Over;
    var t := Act(s, a);
    var e := RunnerEvent(s, a).value;
    var n := NextRun(s);
    StepKeeps(s.runner, e);
    PendingMoves(s.runner, e);
    forall r | r in s.mine
      ensures Known(t, r) && (Settled(s, r) ==> Settled(t, r)) && (Over(s.runner, r) ==> Over(t.runner, r))
    {
      EventKeeps(s.runner, e, r);
    }
    MineBelow(s);
    var u := t.(phase := s.phase);
    PhasePersists(s, u);
    assert forall k :: 0 <= k < |s.phase.batch| ==> s.phase.batch[k] in s.mine;
  }

  lemma DeliverKeepsSystem(s: System, a: Action)
    requires SysInv(s) && Possible(s, a) && Sound(s.runner.queue) && a.Deliver?
    ensures SysInv(Act(s, a))
  {
    hide Inv, Step;
    var t := Act(s, a);
    var e := RunnerEvent(s, a).value;
    StepKeeps(s.runner, e);
    MineBelow(s);
    forall r | r in s.mine
      ensures Known(t, r) && (Settled(s, r) ==> Settled(t, r)) && (Over(s.runner, r) ==> Over(t.runner, r))
    {
      EventKeeps(s.runner, e, r);
      if r.id == s.wire[0] {
        DeliverSettles(s.runner, e, r);
      } else if r.id in s.wire {
        assert s.wire == [s.wire[0]] + s.wire[1..];
      }
    }
    PhasePersists(s, t);
  }

  lemma LocalKeeps(s: System, a: Action)
    requires SysInv(s) && Possible(s, a) && Sound(s.runner.queue)
    requires a.Launch? || a.AwaitNext? || a.CancelRequest? || a.SendCancel? || a.Return?
    ensures SysInv(Act(s, a))
  {
    hide Step;
    hide Inv;
    var t := Act(s, a);
    if a.AwaitNext? && s.phase.Awaiting? {
      SignalledIsOver(s.runner, s.phase.batch[s.phase.i]);
    }
    forall r ensures Settled(s, r) ==> Settled(t, r) {
    }
    assert forall k :: t.retired != s.retired && 0 <= k < |s.phase.batch| ==> Settled(s, s.phase.batch[k]);
  }

  lemma ActKeeps(s: System, a: Action)
    requires SysInv(s) && Possible(s, a) && Sound(s.runner.queue)
    ensures SysInv(Act(s, a))
  {
    hide Inv;
    match a
    case Other(_) => OtherKeeps(s, a);
    case SubmitNext(_) => SubmitKeepsSystem(s, a);
    case Deliver(_) => DeliverKeepsSystem(s, a);
    case _ => LocalKeeps(s, a);
  }

  lemma {:induction false} SystemReachable(ss: seq<System>, acts: seq<Action>, n: nat)
    requires History(ss, acts) && n <= |acts|
    ensures SysInv(ss[n])
  {
    hide Inv;
    if n == 0 {
      InitHolds(ss[0].runner.now);
    } else {
      SystemReachable(ss, acts, n - 1);
      assert Move(ss[n - 1], acts[n - 1], ss[n - 1 + 1]);
      ActKeeps(ss[n - 1], acts[n - 1]);
    }
  }

  // ---- The barrier ----

  lemma NotInLine(s: State, r: Run)
    requires Inv(s) && Over(s, r)
    ensures r !in Queued(s) && r !in CurrentRun(s)
  {
    ExactlyOnePlace(s, r);
  }

  lemma {:induction false} OverStays(ss: seq<System>, acts: seq<Action>, n: nat, m: nat, r: Run)
    requires History(ss, acts) && n <= m <= |acts| && Over(ss[n].runner, r)
    ensures Over(ss[m].runner, r) && r !in Queued(ss[m].runner) && r !in CurrentRun(ss[m].runner)
    decreases m
  {
    hide Inv, Step, Over;
    SystemReachable(ss, acts, m);
    if n < m {
      OverStays(ss, acts, n, m - 1, r);
      SystemReachable(ss, acts, m - 1);
      assert Move(ss[m - 1], acts[m - 1], ss[m - 1 + 1]);
      var e := RunnerEvent(ss[m - 1], acts[m - 1]);
      if e.Some? { EventKeeps(ss[m - 1].runner, e.value, r); }
    }
    NotInLine(ss[m].runner, r);
  }

  // Once an invocation is over and none of its cancels is left on the wire, each of its runs is over, then
  // and for good, unless its cancel was received before the run itself.
  lemma CancelledForGood(ss: seq<System>, acts: seq<Action>, n: nat, m: nat, batch: seq<Run>, k: nat)
    requires History(ss, acts) && n <= m <= |acts|
    requires batch in ss[n].retired && k < |batch|
    requires batch[k].id !in ss[n].wire && batch[k] !in ss[n].overtaken
    ensures Over(ss[m].runner, batch[k])
    ensures batch[k] !in Queued(ss[m].runner) && batch[k] !in CurrentRun(ss[m].runner)
  {
    SystemReachable(ss, acts, n);
    OverStays(ss, acts, n, m, batch[k]);
  }

  // A wait loop that runs to its end leaves nothing behind, with no proviso.
  lemma CompletedForGood(ss: seq<System>, acts: seq<Action>, n: nat, m: nat, k: nat)
    requires History(ss, acts) && n <= m <= |acts|
    requires ss[n].phase.Awaiting? && ss[n].phase.i == |ss[n].phase.batch| && k < |ss[n].phase.batch|
    ensures var r := ss[n].phase.batch[k];
            Over(ss[m].runner, r) && r !in Queued(ss[m].runner) && r !in CurrentRun(ss[m].runner)
  {
    SystemReachable(ss, acts, n);
    OverStays(ss, acts, n, m, ss[n].phase.batch[k]);
  }
}
