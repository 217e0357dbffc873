// How often a run's Done channel is sent to.  The channel holds one value, so a second send can block the
// runner with its lock held.

module RunnerSignals {
  import opened Wrappers
  import opened Runs
  import opened RingSpec
  import opened RunnerSpec
  import opened RunLists
  import opened RunnerInvariant
  import opened RunnerHistory

  function SignalCount(s: State, r: Run): nat {
    multiset(s.log.signals)[Outcome(r, true)] + multiset(s.log.signals)[Outcome(r, false)]
  }

  lemma EndedDistinct(s: State)
    requires Inv(s)
    ensures DistinctIDs(RunsOf(s.log.ended))
  {
    Accounts(s.log, Queued(s), CurrentRun(s));
    var all := s.log.started + Queued(s);
    assert RunsOf(s.log.ended) == all[..|s.log.ended|];
  }

  // A run with a Done channel is signalled once when it is over, and once more for every bulk removal that
  // found it in the slot at tail.
  lemma SignalsCounted(s: State, r: Run)
    requires Inv(s)
    ensures SignalCount(s, r) == if r.notify then One(Over(s, r)) + multiset(s.log.stale)[r] else 0
  {
    SentCount(s.log.ended, Outcome(r, true));
    SentCount(s.log.ended, Outcome(r, false));
    NotifyAllCount(s.log.dropped, r);
    NotifyAllCount(s.log.stale, r);
    DistinctCount(s.log.dropped, r);
    ExactlyOnePlace(s, r);
    EndedDistinct(s);
    OutcomeCount(s.log.ended, r);
  }

  // ---- A run sits in at most one slot ----

  function Held(q: Ring): multiset<Run> {
    multiset(Live(q.window)) + multiset(Live(q.spare))
  }

  ghost predicate OneSlotEach(s: State) {
    Held(s.queue) + multiset(s.log.stale) <= multiset(s.log.arrived)
  }

  lemma LiveTail(w: seq<Slot>)
    requires w != []
    ensures multiset(Live(w)) == multiset(Shown(w[0])) + multiset(Live(w[1..]))
  {
  }

  lemma {:induction false} NonesLive(n: nat)
    ensures Live(Nones(n)) == []
  {
    if n > 0 {
      assert Nones(n)[1..] == Nones(n - 1);
      NonesLive(n - 1);
    }
  }

  lemma PushHeld(q: Ring, x: Slot)
    requires Sound(q)
    ensures Held(Push(q, x)) <= Held(q) + multiset(Shown(x))
  {
    PushAppends(q, x);
    LiveTail(q.spare);
    NonesLive(|q.window| + 1);
  }

  lemma {:induction false} PopHeld(q: Ring)
    ensures Held(Pop(q).1) == Held(q)
    decreases |q.window|
  {
    if q.window != [] {
      var rest := Ring(q.window[1..], q.spare + [q.window[0]]);
      LiveTail(q.window);
      LiveConcat(q.spare, [q.window[0]]);
      assert Live([q.window[0]]) == Shown(q.window[0]);
      assert Held(rest) == Held(q);
      if q.window[0].None? { PopHeld(rest); }
    }
  }

  lemma {:induction false} MissedFewer(s: seq<Run>, which: Which)
    ensures multiset(Missed(s, which)) <= multiset(s)
  {
    if s != [] {
      assert s == [s[0]] + s[1..];
      MissedFewer(s[1..], which);
    }
  }

  lemma BulkHeld(q: Ring, which: Which)
    requires Sound(q)
    ensures Held(BulkRemove(q, which)) + multiset(StaleHit(q, which)) <= Held(q)
  {
    ClearKeepsMissed(q.window, which);
    MissedFewer(Live(q.window), which);
    LiveTail(q.spare);
    LiveTail(BulkRemove(q, which).spare);
    assert BulkRemove(q, which).spare[1..] == q.spare[1..];
  }

  lemma {:induction false} DropFewer(s: seq<Run>, id: int)
    ensures multiset(DropFirstId(s, id)) <= multiset(s)
  {
    if s != [] {
      assert s == [s[0]] + s[1..];
      DropFewer(s[1..], id);
    }
  }

  lemma IDHeld(q: Ring, id: int)
    ensures Held(IdRemove(q, id)) <= Held(q)
  {
    IdRemoveDropsFirst(q.window, id);
    DropFewer(Live(q.window), id);
  }

  lemma AdvanceHeld(s: State, cancelled: bool)
    requires s.current.Some? && OneSlotEach(s)
    ensures OneSlotEach(Advance(s, cancelled))
  {
    PopHeld(s.queue);
  }

  lemma CancelStepHeld(s: State, e: Stamped)
    requires Sound(s.queue) && OneSlotEach(s) && (e.event.CancelSection? || e.event.CancelID?)
    ensures OneSlotEach(Step(s, e))
  {
    var u := s.(now := e.time);
    var t := match BulkOf(e.event) case Some(w) => CancelQueued(u, w) case None => CancelQueuedID(u, e.event.id);
    assert OneSlotEach(t) by {
      match BulkOf(e.event)
      case Some(w) => BulkHeld(s.queue, w);
      case None => IDHeld(s.queue, e.event.id);
    }
    if t.current.Some? { AdvanceHeld(t, true); }
  }

  lemma ReceiveHeld(s: State, e: Stamped)
    requires Sound(s.queue) && OneSlotEach(s) && e.event.Receive?
    ensures OneSlotEach(Step(s, e))
  {
    hide Live, NotifyAll;
    var r := e.event.run;
    PushHeld(s.queue, Some(r));
    assert multiset(s.log.arrived + [r]) == multiset(s.log.arrived) + multiset{r};
    assert multiset(Shown(Some(r))) == multiset{r};
  }

  lemma SetPausedHeld(s: State, e: Stamped)
    requires Sound(s.queue) && OneSlotEach(s) && e.event.SetPaused?
    ensures OneSlotEach(Step(s, e))
  {
    PopHeld(s.queue);
  }

  lemma StepHeld(s: State, e: Stamped)
    requires Sound(s.queue) && OneSlotEach(s)
    ensures OneSlotEach(Step(s, e))
  {
    match e.event
    case CancelSection(_) => CancelStepHeld(s, e);
    case CancelID(_) => CancelStepHeld(s, e);
    case Receive(_) => ReceiveHeld(s, e);
    case SetPaused(_) => SetPausedHeld(s, e);
    case Timer => if s.current.Some? { AdvanceHeld(s.(now := e.time), false); }
    case Submit(_, _, _) =>
  }

  lemma {:induction false} OneSlotAlways(ss: seq<State>, es: seq<Stamped>, i: nat)
    requires Execution(ss, es) && i <= |es|
    ensures OneSlotEach(ss[i])
  {
    if i == 0 {
      NonesLive(INITIAL_CAPACITY);
    } else {
      OneSlotAlways(ss, es, i - 1);
      assert Transition(ss[i - 1], es[i - 1], ss[i - 1 + 1]);
      StepHeld(ss[i - 1], es[i - 1]);
    }
  }

  // However a run is cancelled, its channel is sent to at most twice.
  lemma AtMostTwoSignals(ss: seq<State>, es: seq<Stamped>, i: nat, r: Run)
    requires Execution(ss, es) && i <= |es|
    ensures SignalCount(ss[i], r) <= 2
  {
    Reachable(ss, es, i);
    OneSlotAlways(ss, es, i);
    SignalsCounted(ss[i], r);
    DistinctCount(ss[i].log.arrived, r);
    assert multiset(ss[i].log.stale)[r] <= multiset(ss[i].log.arrived)[r];
  }

  // ---- Exactly when a second signal is sent ----

  // A bulk removal whose slot at tail holds a matching run with a Done channel.
  predicate StaleSignal(s: State, e: Stamped)
    requires Sound(s.queue)
  {
    match BulkOf(e.event)
    case Some(w) => HitsSlot(w, s.queue.spare[0]) && s.queue.spare[0].value.notify
    case None => false
  }

  lemma StaleIsLogged(ss: seq<State>, es: seq<Stamped>, i: nat)
    requires Execution(ss, es) && i < |es| && Sound(ss[i].queue) && StaleSignal(ss[i], es[i])
    ensures ss[i].queue.spare[0].value in ss[i + 1].log.stale
  {
    assert Transition(ss[i], es[i], ss[i + 1]);
    StepGrows(ss[i], es[i]);
  }

  lemma {:induction false} StaleOrigin(ss: seq<State>, es: seq<Stamped>, n: nat, r: Run)
    requires Execution(ss, es) && n <= |es| && r.notify
    requires forall i :: 0 <= i < n ==> Sound(ss[i].queue) && !StaleSignal(ss[i], es[i])
    ensures multiset(ss[n].log.stale)[r] == 0
  {
    if n > 0 {
      StaleOrigin(ss, es, n - 1, r);
      assert Transition(ss[n - 1], es[n - 1], ss[n - 1 + 1]);
      StepGrows(ss[n - 1], es[n - 1]);
    }
  }

  // No run is signalled twice, if and only if no bulk removal met such a slot.
  lemma SignalledOnceIff(ss: seq<State>, es: seq<Stamped>)
    requires Execution(ss, es)
    ensures (forall r :: SignalCount(ss[|es|], r) <= 1)
            <==> (forall i :: 0 <= i < |es| ==> Sound(ss[i].queue) && !StaleSignal(ss[i], es[i]))
  {
    var n := |es|;
    Reachable(ss, es, n);
    forall i | 0 <= i < n ensures Sound(ss[i].queue) { Reachable(ss, es, i); }
    if i :| 0 <= i < n && StaleSignal(ss[i], es[i]) {
      var r := ss[i].queue.spare[0].value;
      StaleIsLogged(ss, es, i);
      HistoryGrows(ss, es, i + 1, n);
      assert r in ss[n].log.stale;
      assert multiset(ss[n].log.stale)[r] >= 1 by { assert r in multiset(ss[n].log.stale); }
      SignalsCounted(ss[n], r);
      assert SignalCount(ss[n], r) >= 2;
    } else {
      forall r ensures SignalCount(ss[n], r) <= 1 {
        SignalsCounted(ss[n], r);
        if r.notify { StaleOrigin(ss, es, n, r); }
      }
    }
  }

  // A second signal only ever goes to a run that is over by the end of the step that sends it.
  lemma SecondSignalIsLate(ss: seq<State>, es: seq<Stamped>, i: nat, r: Run)
    requires Execution(ss, es) && i <= |es| && SignalCount(ss[i], r) >= 2
    ensures Over(ss[i], r) && r !in Queued(ss[i]) && r !in CurrentRun(ss[i])
  {
    Reachable(ss, es, i);
    SignalsCounted(ss[i], r);
    assert multiset(ss[i].log.stale)[r] >= 1;
    assert r in ss[i].log.stale;
    assert r in RunsOf(ss[i].log.ended);
    OverForGood(ss, es, i, i, r);
  }

  // A signal means the run is over.
  lemma SignalledIsOver(s: State, r: Run)
    requires Inv(s) && r.notify
    ensures SignalCount(s, r) >= 1 <==> Over(s, r)
  {
    SignalsCounted(s, r);
    if r !in s.log.stale {
      assert multiset(s.log.stale)[r] == 0;
    }
  }

  // ---- It does happen ----

  lemma SecondSignal(ss: seq<State>, es: seq<Stamped>, i: nat, r: Run)
    requires Execution(ss, es) && i < |es| && Sound(ss[i].queue)
    requires StaleSignal(ss[i], es[i]) && ss[i].queue.spare[0] == Some(r)
    ensures SignalCount(ss[i + 1], r) == 2
  {
    StaleIsLogged(ss, es, i);
    Reachable(ss, es, i + 1);
    SignalsCounted(ss[i + 1], r);
    assert r in multiset(ss[i + 1].log.stale);
    AtMostTwoSignals(ss, es, i + 1, r);
  }

  // After k laps: run k is being watered, and the last k slots still hold the runs popped from them.
  ghost predicate Lapping(s: State, sec: Section, k: nat)
    requires k <= INITIAL_CAPACITY
  {
    && s.now == 0 && s.nextID == k + 1 && s.pending == {} && !s.paused
    && s.current == Some(Active(Run(k, sec, 0, true), 0, Some(0), None, None)) && s.delay == Some(0)
    && s.queue == Ring([], Nones(INITIAL_CAPACITY - k) + seq(k, j requires 0 <= j => Some(Run(j + 1, sec, 0, true))))
  }

  lemma Lap(s: State, sec: Section, k: nat)
    requires k < INITIAL_CAPACITY && Lapping(s, sec, k)
    ensures var next := Run(k + 1, sec, 0, true);
            var a := Step(s, At(0, Submit(sec, 0, true)));
            && Sound(a.queue) && Enabled(a, At(0, Receive(next)))
            && var b := Step(a, At(0, Receive(next)));
            && Sound(b.queue) && Enabled(b, At(0, Timer))
            && Lapping(Step(b, At(0, Timer)), sec, k + 1)
  {
    var next := Run(k + 1, sec, 0, true);
    var a := Step(s, At(0, Submit(sec, 0, true)));
    var b := Step(a, At(0, Receive(next)));
    assert b.queue == Ring([Some(next)], s.queue.spare[1..]);
    var c := Step(b, At(0, Timer));
    assert c.queue.spare == s.queue.spare[1..] + [Some(next)];
  }

  lemma Extend(ss: seq<State>, es: seq<Stamped>, e: Stamped) returns (ss': seq<State>, es': seq<Stamped>)
    requires Execution(ss, es) && Sound(ss[|es|].queue) && Enabled(ss[|es|], e)
    ensures ss' == ss + [Step(ss[|es|], e)] && es' == es + [e]
    ensures Execution(ss', es')
  {
    ss', es' := ss + [Step(ss[|es|], e)], es + [e];
    forall i | 0 <= i < |es'| ensures Transition(ss'[i], es'[i], ss'[i + 1]) {
      if i < |es| {
        assert Transition(ss[i], es[i], ss[i + 1]);
      }
    }
  }

  // Eleven runs in a row, each received while its predecessor is being watered, then CancelSection: the
  // second run is signalled again long after it finished.
  lemma SignalledTwice() returns (ss: seq<State>, es: seq<Stamped>, r: Run)
    ensures Execution(ss, es)
    ensures SignalCount(ss[|es|], r) == 2
  {
    var sec := Section(0, 0);
    r := Run(1, sec, 0, true);
    var s := Init(0);
    ss, es := [s], [];
    ss, es := Extend(ss, es, At(0, Submit(sec, 0, true)));
    ss, es := Extend(ss, es, At(0, Receive(Run(0, sec, 0, true))));
    var k := 0;
    while k < INITIAL_CAPACITY
      invariant 0 <= k <= INITIAL_CAPACITY
      invariant Execution(ss, es)
      invariant Lapping(ss[|es|], sec, k)
    {
      var last := ss[|es|];
      Lap(last, sec, k);
      var next := Run(k + 1, sec, 0, true);
      ss, es := Extend(ss, es, At(0, Submit(sec, 0, true)));
      ss, es := Extend(ss, es, At(0, Receive(next)));
      ss, es := Extend(ss, es, At(0, Timer));
      k := k + 1;
    }
    var i := |es|;
    ss, es := Extend(ss, es, At(0, CancelSection(sec)));
    SecondSignal(ss, es, i, r);
  }
}
