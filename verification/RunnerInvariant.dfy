// What every step of the section runner keeps.

module RunnerInvariant {
  import opened Wrappers
  import opened Runs
  import opened RingSpec
  import opened RunnerSpec
  import opened RunLists

  // The current run has a start time, a pause time exactly while paused, and the timer is armed exactly
  // while it is being watered: for the remaining duration, counted from when it was last switched on.
  ghost predicate Clocked(s: State) {
    match s.current
    case None => s.delay == None
    case Some(a) =>
      && a.startTime.Some?
      && (a.pauseTime.Some? <==> s.paused)
      && SwitchedOn(a).value <= s.now
      && s.delay == if s.paused then None else Some(SwitchedOn(a).value + a.duration)
  }

  // The only output that can be on is the current run's, and it is on exactly when not paused.
  ghost predicate ValvesMatch(s: State) {
    s.outputs == if s.current.Some? && !s.paused then {s.current.value.run.sec.interfaceID} else {}
  }

  // Nothing waits while the runner is free.
  ghost predicate Busy(s: State) {
    s.current.None? && !s.paused ==> Queued(s) == []
  }

  ghost predicate IDsFresh(s: State) {
    && DistinctIDs(s.log.arrived)
    && (forall r :: r in s.log.arrived ==> 0 <= r.id < s.nextID)
    && (forall r :: r in s.pending ==> 0 <= r.id < s.nextID)
    && (forall p, q :: p in s.pending && q in s.pending && p.id == q.id ==> p == q)
    && (forall p, a :: p in s.pending && a in s.log.arrived ==> p.id != a.id)
  }

  // First come, first served: started runs followed by the queue are the arrivals in order, less the runs
  // cancelled while they waited.  Started runs are over in the order they started, but for the current one.
  ghost predicate InOrder(log: Log, queued: seq<Run>, current: seq<Run>) {
    && Without(log.arrived, Members(log.dropped)) == log.started + queued
    && log.started == RunsOf(log.ended) + current
    && DistinctIDs(log.dropped)
    && forall r :: r in log.dropped ==> r in log.arrived
  }

  // A run that has a Done channel is signalled once when it ends or is dropped, and once more whenever a
  // bulk removal finds it in the slot at tail.
  ghost predicate Signalled(log: Log) {
    multiset(log.signals)
    == multiset(Sent(log.ended)) + multiset(NotifyAll(log.dropped)) + multiset(NotifyAll(log.stale))
  }

  ghost predicate Ledger(s: State) {
    && InOrder(s.log, Queued(s), CurrentRun(s))
    && Signalled(s.log)
    && SpareWithin(s.queue, Members(s.log.started))
  }

  ghost predicate StaleOver(s: State) {
    forall r :: r in s.log.stale ==> r in RunsOf(s.log.ended)
  }

  // What holds throughout a step, and what holds between steps.
  ghost predicate Core(s: State) {
    Sound(s.queue) && Clocked(s) && ValvesMatch(s) && IDsFresh(s) && Ledger(s)
  }

  ghost predicate Inv(s: State) {
    Core(s) && Busy(s) && StaleOver(s)
  }

  // ---- The books, one entry at a time ----

  lemma Accounts(log: Log, queued: seq<Run>, current: seq<Run>)
    requires DistinctIDs(log.arrived) && InOrder(log, queued, current)
    ensures DistinctIDs(log.started + queued)
    ensures forall r :: r in log.started + queued <==> r in log.arrived && r !in log.dropped
  {
    var d := Members(log.dropped);
    WithoutDistinct(log.arrived, d);
    forall r ensures r in log.started + queued <==> r in log.arrived && r !in log.dropped {
      WithoutHas(log.arrived, d, r);
    }
  }

  lemma QueuedIsWaiting(log: Log, queued: seq<Run>, current: seq<Run>, r: Run)
    requires DistinctIDs(log.arrived) && InOrder(log, queued, current) && r in queued
    ensures r in log.arrived && r !in log.dropped && r !in log.started
    ensures DistinctIDs(queued)
  {
    Accounts(log, queued, current);
    var all := log.started + queued;
    assert r in all;
    var i :| 0 <= i < |queued| && queued[i] == r;
    forall j | 0 <= j < |log.started| ensures log.started[j] != r {
      assert all[j] == log.started[j] && all[|log.started| + i] == r;
    }
    assert queued == all[|log.started|..];
  }

  lemma OrderArrive(log: Log, queued: seq<Run>, current: seq<Run>, r: Run)
    requires InOrder(log, queued, current) && r !in log.arrived
    ensures InOrder(log.(arrived := log.arrived + [r]), queued + [r], current)
  {
    var d := Members(log.dropped);
    WithoutConcat(log.arrived, [r], d);
    WithoutStrangers([r], d);
  }

  lemma OrderStart(log: Log, r: Run, queued: seq<Run>)
    requires InOrder(log, [r] + queued, [])
    ensures InOrder(log.(started := log.started + [r]), queued, [r])
  {
    assert log.started + ([r] + queued) == (log.started + [r]) + queued;
    assert log.started == RunsOf(log.ended);
  }

  lemma OrderEnd(log: Log, r: Run, queued: seq<Run>, o: Outcome, signals: seq<Outcome>)
    requires InOrder(log, queued, [r]) && o.run == r
    ensures InOrder(log.(ended := log.ended + [o], signals := signals), queued, [])
  {
    assert RunsOf(log.ended + [o]) == RunsOf(log.ended) + [r] + [];
  }

  lemma DistinctAppend(all: seq<Run>, a: seq<Run>, b: seq<Run>)
    requires DistinctIDs(all) && DistinctIDs(a) && DistinctIDs(b)
    requires (forall r :: r in a ==> r in all) && (forall r :: r in b ==> r in all && r !in a)
    ensures DistinctIDs(a + b)
  {
    forall i, j | 0 <= i < |a| && 0 <= j < |b| ensures a[i].id != b[j].id {
      if a[i].id == b[j].id {
        SameID(all, a[i], b[j]);
      }
    }
  }

  lemma OrderDrop(log: Log, queued: seq<Run>, current: seq<Run>, h: seq<Run>, stale: seq<Run>, signals: seq<Outcome>)
    requires DistinctIDs(log.arrived) && InOrder(log, queued, current)
    requires DistinctIDs(h) && forall r :: r in h ==> r in queued
    ensures InOrder(log.(dropped := log.dropped + h, stale := stale, signals := signals),
                    Without(queued, Members(h)), current)
  {
    var d := Members(log.dropped);
    forall r | r in h ensures r in log.arrived && r !in log.dropped && r !in log.started {
      QueuedIsWaiting(log, queued, current, r);
    }
    assert Members(log.dropped + h) == d + Members(h);
    WithoutTwice(log.arrived, d, Members(h));
    WithoutConcat(log.started, queued, Members(h));
    WithoutStrangers(log.started, Members(h));
    DistinctAppend(log.arrived, log.dropped, h);
  }

  lemma SignalEnd(log: Log, o: Outcome)
    requires Signalled(log)
    ensures Signalled(log.(ended := log.ended + [o], signals := log.signals + NotifyOne(o)))
  {
    SentSnoc(log.ended, o);
  }

  lemma SignalDrop(log: Log, h: seq<Run>, stale: seq<Run>)
    requires Signalled(log)
    ensures Signalled(log.(dropped := log.dropped + h, stale := log.stale + stale,
                           signals := log.signals + NotifyAll(h + stale)))
  {
    NotifyAllConcat(h, stale);
    NotifyAllConcat(log.dropped, h);
    NotifyAllConcat(log.stale, stale);
  }

  // ---- The pieces of a step ----

  lemma TickKeeps(s: State, t: int)
    requires Inv(s) && s.now <= t
    ensures Inv(s.(now := t))
  {
  }

  lemma SubmitKeeps(s: State, e: Stamped)
    requires Inv(s) && Enabled(s, e) && e.event.Submit?
    ensures Inv(Step(s, e))
  {
  }

  lemma EndCurrentKeeps(s: State, cancelled: bool)
    requires Core(s) && s.current.Some?
    ensures Core(EndCurrent(s, cancelled))
  {
    var o := Outcome(s.current.value.run, cancelled);
    OrderEnd(s.log, o.run, Queued(s), o, s.log.signals + NotifyOne(o));
    SignalEnd(s.log, o);
  }

  lemma PromoteKeeps(s: State)
    requires Core(s) && s.current.None?
    ensures Core(Promote(s)) && Busy(Promote(s))
    ensures Promote(s).log.ended == s.log.ended && Promote(s).log.stale == s.log.stale
  {
    hide Pop, Live, Sent, NotifyAll, Without, DistinctIDs;
    var q := Queued(s);
    PopTakesFirst(s.queue);
    SpareOnlyPopped(s.queue, None, Every, 0, Members(s.log.started));
    if q != [] {
      assert q == [q[0]] + q[1..];
      OrderStart(s.log, q[0], q[1..]);
      assert Members(s.log.started + [q[0]]) == Members(s.log.started) + {q[0]};
    }
  }

  lemma DropHits(log: Log, q: seq<Run>, current: seq<Run>, which: Which, stale: seq<Run>, signals: seq<Outcome>)
    requires DistinctIDs(log.arrived) && InOrder(log, q, current)
    ensures InOrder(log.(dropped := log.dropped + Hit(q, which), stale := stale, signals := signals),
                    Missed(q, which), current)
  {
    var h := Hit(q, which);
    if q != [] { QueuedIsWaiting(log, q, current, q[0]); }
    forall r ensures r in h <==> r in q && Hits(which, r) { HitHas(q, which, r); }
    HitDistinct(q, which);
    MissedIsWithout(q, which, Members(h));
    OrderDrop(log, q, current, h, stale, signals);
  }

  lemma DropByID(log: Log, q: seq<Run>, current: seq<Run>, id: int, signals: seq<Outcome>)
    requires DistinctIDs(log.arrived) && InOrder(log, q, current)
    ensures InOrder(log.(dropped := log.dropped + Shown(FirstWithId(q, id)), signals := signals),
                    DropFirstId(q, id), current)
    ensures forall r :: r in DropFirstId(q, id) ==> r.id != id
  {
    var h := Shown(FirstWithId(q, id));
    if q != [] { QueuedIsWaiting(log, q, current, q[0]); }
    FirstWithIdHas(q, id);
    DropIsWithout(q, id);
    OrderDrop(log, q, current, h, log.stale, signals);
    forall r | r in Without(q, Members(h)) ensures r.id != id {
      WithoutHas(q, Members(h), r);
      if r.id == id { SameID(q, r, h[0]); }
    }
  }

  lemma CancelQueuedKeeps(s: State, which: Which)
    requires Inv(s)
    ensures var t := CancelQueued(s, which);
            && Core(t) && Busy(t)
            && Queued(t) == Missed(Queued(s), which)
            && forall r :: r in t.log.stale ==>
                 r in RunsOf(t.log.ended) || (r in CurrentRun(t) && Hits(which, r))
  {
    hide Live, Sent, NotifyAll, Without, Hit, Clear;
    var t := CancelQueued(s, which);
    ClearKeepsMissed(s.queue.window, which);
    assert InOrder(t.log, Queued(t), CurrentRun(t)) by {
      DropHits(s.log, Queued(s), CurrentRun(s), which, t.log.stale, t.log.signals);
    }
    assert Signalled(t.log) by {
      SignalDrop(s.log, Hit(Queued(s), which), StaleHit(s.queue, which));
    }
    assert SpareWithin(t.queue, Members(t.log.started)) by {
      SpareOnlyPopped(s.queue, None, which, 0, Members(s.log.started));
    }
    forall r | r in t.log.stale
      ensures r in RunsOf(t.log.ended) || (r in CurrentRun(t) && Hits(which, r))
    {
      if r !in s.log.stale {
        assert r == s.queue.spare[0].value && r in Members(s.log.started);
      }
    }
  }

  lemma CancelQueuedIDKeeps(s: State, id: int)
    requires Inv(s)
    ensures var t := CancelQueuedID(s, id);
            && Core(t) && Busy(t) && StaleOver(t)
            && Queued(t) == DropFirstId(Queued(s), id)
            && forall r :: r in Queued(t) ==> r.id != id
  {
    hide IndexOfId, Live, Sent, NotifyAll, Without;
    var t := CancelQueuedID(s, id);
    var x := IdRemoved(s.queue, id);
    assert Queued(t) == DropFirstId(Queued(s), id) && x == FirstWithId(Queued(s), id) by {
      IdRemoveDropsFirst(s.queue.window, id);
    }
    assert InOrder(t.log, Queued(t), CurrentRun(t)) && forall r :: r in Queued(t) ==> r.id != id by {
      DropByID(s.log, Queued(s), CurrentRun(s), id, t.log.signals);
    }
    assert Signalled(t.log) by {
      SignalDrop(s.log, Shown(x), []);
      assert Shown(x) + [] == Shown(x) && s.log.stale + [] == s.log.stale;
    }
    assert SpareWithin(t.queue, Members(t.log.started)) by {
      SpareOnlyPopped(s.queue, None, Every, id, Members(s.log.started));
    }
  }

  lemma AcceptKeeps(s: State, r: Run)
    requires Inv(s) && r in s.pending
    ensures Inv(Accept(s, r))
  {
    hide Live, Sent, NotifyAll, Without;
    var t := Accept(s, r);
    OrderArrive(s.log, Queued(s), CurrentRun(s), r);
    if s.current.None? && !s.paused {
      assert Queued(s) + [r] == [r] + Queued(s);
      OrderStart(s.log.(arrived := s.log.arrived + [r]), r, Queued(s));
    } else {
      PushAppends(s.queue, Some(r));
      assert SpareWithin(t.queue, Members(s.log.started)) by {
        SpareOnlyPopped(s.queue, Some(r), Every, 0, Members(s.log.started));
      }
    }
  }

  lemma AdvanceKeeps(s: State, cancelled: bool)
    requires Core(s) && s.current.Some?
    requires forall r :: r in s.log.stale ==> r in RunsOf(s.log.ended) || r in CurrentRun(s)
    ensures Inv(Advance(s, cancelled))
  {
    EndCurrentKeeps(s, cancelled);
    PromoteKeeps(EndCurrent(s, cancelled));
    assert RunsOf(s.log.ended + [Outcome(s.current.value.run, cancelled)]) == RunsOf(s.log.ended) + CurrentRun(s);
  }

  lemma CancelManyKeeps(s: State, which: Which)
    requires Inv(s)
    ensures Inv(CancelMany(s, which))
  {
    CancelQueuedKeeps(s, which);
    var t := CancelQueued(s, which);
    if t.current.Some? && Hits(which, t.current.value.run) {
      AdvanceKeeps(t, true);
    }
  }

  lemma CancelOneKeeps(s: State, id: int)
    requires Inv(s)
    ensures Inv(CancelOne(s, id))
  {
    CancelQueuedIDKeeps(s, id);
    var t := CancelQueuedID(s, id);
    if t.current.Some? && t.current.value.run.id == id {
      AdvanceKeeps(t, true);
    }
  }

  lemma PauseKeeps(s: State)
    requires Inv(s) && !s.paused
    ensures Inv(Pause(s))
  {
  }

  lemma UnpauseKeeps(s: State)
    requires Inv(s) && s.paused
    ensures Inv(Unpause(s))
  {
    if s.current.None? {
      PromoteKeeps(s.(paused := false));
    }
  }

  // ---- Every step, from every state of every execution ----

  lemma StepKeeps(s: State, e: Stamped)
    requires Inv(s) && Enabled(s, e)
    ensures Inv(Step(s, e))
  {
    var u := s.(now := e.time);
    TickKeeps(s, e.time);
    match e.event
    case Submit(_, _, _) => SubmitKeeps(s, e);
    case Receive(r) => AcceptKeeps(u, r);
    case CancelSection(sec) => CancelManyKeeps(u, OfSection(sec));
    case CancelID(id) => if id == SR_ID_ALL { CancelManyKeeps(u, Every); } else { CancelOneKeeps(u, id); }
    case SetPaused(on) => if s.paused != on { if on { PauseKeeps(u); } else { UnpauseKeeps(u); } }
    case Timer => AdvanceKeeps(u, false);
  }

  lemma TransitionKeeps(s: State, e: Stamped, t: State)
    requires Inv(s) && Transition(s, e, t)
    ensures Inv(t)
  {
    StepKeeps(s, e);
  }

  lemma InitHolds(now: int)
    ensures Inv(Init(now))
  {
  }

  lemma {:induction false} Reachable(ss: seq<State>, es: seq<Stamped>, i: nat)
    requires Execution(ss, es) && i <= |es|
    ensures Inv(ss[i])
  {
    if i == 0 {
      InitHolds(ss[0].now);
    } else {
      Reachable(ss, es, i - 1);
      assert Transition(ss[i - 1], es[i - 1], ss[i - 1 + 1]);
      TransitionKeeps(ss[i - 1], es[i - 1], ss[i]);
    }
  }
}
