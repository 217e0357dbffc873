// What whole runs of the section runner guarantee: order, accounting, signals and cancellation.

module RunnerHistory {
  import opened Runs
  import opened RingSpec
  import opened RunnerSpec
  import opened RunLists
  import opened RunnerInvariant

  // ---- History only grows ----

  ghost predicate Grows(s: State, t: State) {
    && s.now <= t.now
    && s.log.arrived <= t.log.arrived
    && s.log.started <= t.log.started
    && s.log.ended <= t.log.ended
    && s.log.dropped <= t.log.dropped
    && s.log.stale <= t.log.stale
    && s.log.signals <= t.log.signals
  }

  // At most one run starts, and it is then the current one.
  ghost predicate StartsCurrent(s: State, t: State) {
    t.log.started == s.log.started || t.log.started == s.log.started + CurrentRun(t)
  }

  lemma AdvanceGrows(s: State, cancelled: bool)
    requires s.current.Some?
    ensures var t := Advance(s, cancelled);
            && Grows(s, t) && StartsCurrent(s, t)
            && t.log.arrived == s.log.arrived && t.log.dropped == s.log.dropped && t.log.stale == s.log.stale
  {
  }

  lemma CancelGrows(s: State, t: State)
    requires Grows(s, t) && t.log.started == s.log.started && t.log.arrived == s.log.arrived
    ensures t.current.Some? ==>
              var v := Advance(t, true);
              && Grows(s, v) && StartsCurrent(s, v)
              && v.log.arrived == s.log.arrived && v.log.stale == t.log.stale
  {
    if t.current.Some? { AdvanceGrows(t, true); }
  }

  ghost predicate StepsForward(s: State, e: Event, t: State)
    requires Sound(s.queue)
  {
    && Grows(s, t)
    && StartsCurrent(s, t)
    && (t.log.arrived == s.log.arrived || t.log.dropped == s.log.dropped)
    && match BulkOf(e)
       case Some(w) => t.log.stale == s.log.stale + StaleHit(s.queue, w)
       case None => t.log.stale == s.log.stale
  }

  lemma CancelStepGrows(s: State, e: Stamped)
    requires Sound(s.queue) && Enabled(s, e) && (e.event.CancelSection? || e.event.CancelID?)
    ensures StepsForward(s, e.event, Step(s, e))
  {
    var u := s.(now := e.time);
    match BulkOf(e.event)
    case Some(w) => CancelGrows(u, CancelQueued(u, w));
    case None => CancelGrows(u, CancelQueuedID(u, e.event.id));
  }

  lemma StepGrows(s: State, e: Stamped)
    requires Sound(s.queue) && Enabled(s, e)
    ensures StepsForward(s, e.event, Step(s, e))
  {
    if e.event.CancelSection? || e.event.CancelID? {
      CancelStepGrows(s, e);
    } else if e.event.Timer? && s.current.Some? {
      AdvanceGrows(s.(now := e.time), false);
    }
  }

  lemma {:induction false} HistoryGrows(ss: seq<State>, es: seq<Stamped>, i: nat, j: nat)
    requires Execution(ss, es) && i <= j <= |es|
    ensures Grows(ss[i], ss[j])
    decreases j - i
  {
    if i < j {
      assert Transition(ss[i], es[i], ss[i + 1]);
      StepGrows(ss[i], es[i]);
      HistoryGrows(ss, es, i + 1, j);
    }
  }

  // ---- First come, first served ----

  // The runs started so far, followed by the live queue, are the arrivals in order, less those cancelled
  // while they waited; and they end in the order they started.
  lemma FirstComeFirstServed(ss: seq<State>, es: seq<Stamped>, i: nat)
    requires Execution(ss, es) && i <= |es|
    ensures var s := ss[i];
            && s.log.started + Queued(s) == Without(s.log.arrived, Members(s.log.dropped))
            && RunsOf(s.log.ended) + CurrentRun(s) == s.log.started
            && DistinctIDs(s.log.arrived)
  {
    Reachable(ss, es, i);
  }

  // A step drops exactly the queued runs that it neither keeps waiting nor makes current.
  lemma DroppedMeansLost(s: State, e: Stamped, r: Run)
    requires Inv(s) && Enabled(s, e)
    ensures var t := Step(s, e);
            r in t.log.dropped && r !in s.log.dropped
            <==> r in Queued(s) && r !in Queued(t) && r !in CurrentRun(t)
  {
    var t := Step(s, e);
    StepKeeps(s, e);
    StepGrows(s, e);
    Accounts(s.log, Queued(s), CurrentRun(s));
    Accounts(t.log, Queued(t), CurrentRun(t));
    if r in Queued(s) { QueuedIsWaiting(s.log, Queued(s), CurrentRun(s), r); }
    if r in Queued(t) { QueuedIsWaiting(t.log, Queued(t), CurrentRun(t), r); }
    assert r in s.log.started + Queued(s) <==> r in s.log.started || r in Queued(s);
    assert r in t.log.started + Queued(t) <==> r in t.log.started || r in Queued(t);
    assert s.log.started <= t.log.started;
  }

  // ---- Exactly one place ----

  predicate Over(s: State, r: Run) {
    r in RunsOf(s.log.ended) || r in s.log.dropped
  }

  function One(b: bool): nat {
    if b then 1 else 0
  }

  lemma SharedEntry(s: seq<Run>, i: nat, j: nat)
    requires DistinctIDs(s) && i < j < |s|
    ensures s[i] != s[j]
  {
  }

  // Every accepted run is in exactly one of: the queue, Current, ended, cancelled while queued.
  lemma ExactlyOnePlace(s: State, r: Run)
    requires Inv(s)
    ensures One(r in Queued(s)) + One(r in CurrentRun(s)) + One(r in RunsOf(s.log.ended)) + One(r in s.log.dropped)
            == One(r in s.log.arrived)
    ensures DistinctIDs(RunsOf(s.log.ended) + CurrentRun(s) + Queued(s))
  {
    Accounts(s.log, Queued(s), CurrentRun(s));
    var all := s.log.started + Queued(s);
    if r in Queued(s) { QueuedIsWaiting(s.log, Queued(s), CurrentRun(s), r); }
    assert r in all <==> r in s.log.started || r in Queued(s);
    assert r in s.log.started <==> r in RunsOf(s.log.ended) || r in CurrentRun(s);
    if r in RunsOf(s.log.ended) && r in CurrentRun(s) {
      var k :| 0 <= k < |s.log.ended| && RunsOf(s.log.ended)[k] == r;
      SharedEntry(all, k, |s.log.ended|);
    }
  }

  // A run that is over stays over, and never waits or runs again.
  lemma OverForGood(ss: seq<State>, es: seq<Stamped>, i: nat, j: nat, r: Run)
    requires Execution(ss, es) && i <= j <= |es| && Over(ss[i], r)
    ensures Over(ss[j], r) && r !in Queued(ss[j]) && r !in CurrentRun(ss[j])
  {
    HistoryGrows(ss, es, i, j);
    Reachable(ss, es, j);
    var a, b := ss[i].log, ss[j].log;
    if r in RunsOf(a.ended) {
      var k :| 0 <= k < |a.ended| && RunsOf(a.ended)[k] == r;
      assert RunsOf(b.ended)[k] == r;
    } else {
      var k :| 0 <= k < |a.dropped| && a.dropped[k] == r;
      assert b.dropped[k] == r;
    }
    ExactlyOnePlace(ss[j], r);
  }
}
