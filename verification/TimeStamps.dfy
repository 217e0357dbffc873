// Which instants the current run's time stamps record, and what its Done channel is told.

module TimeStamps {
  import opened Wrappers
  import opened Runs
  import opened RingSpec
  import opened RunnerSpec
  import opened RunLists
  import opened RunnerInvariant
  import opened RunnerHistory
  import opened RunnerSignals
  import opened WaterTime

  lemma AdvanceNow(s: State, cancelled: bool)
    requires s.current.Some?
    ensures Advance(s, cancelled).now == s.now
  {
  }

  lemma NowIs(s: State, e: Stamped)
    requires Sound(s.queue)
    ensures Step(s, e).now == e.time
  {
    hide Advance, Push, Pop, BulkRemove, IdRemove;
    var u := s.(now := e.time);
    match e.event
    case CancelSection(sec) =>
      var t := CancelQueued(u, OfSection(sec));
      if t.current.Some? { AdvanceNow(t, true); }
    case CancelID(id) =>
      var t := if id == SR_ID_ALL then CancelQueued(u, Every) else CancelQueuedID(u, id);
      if t.current.Some? { AdvanceNow(t, true); }
    case Timer => if u.current.Some? { AdvanceNow(u, false); }
    case _ =>
  }

  // Every step happens at the instant it is stamped with.
  lemma ClockIs(ss: seq<State>, es: seq<Stamped>, i: nat)
    requires Execution(ss, es) && i < |es|
    ensures ss[i].now <= ss[i + 1].now == es[i].time
  {
    hide Step;
    assert Transition(ss[i], es[i], ss[i + 1]);
    NowIs(ss[i], es[i]);
  }

  // ---- One step ----

  predicate Serves(s: State, r: Run) {
    CurrentRun(s) == [r]
  }

  // The same run goes on: b in t is a in s.
  ghost predicate Carries(s: State, a: Active, t: State, b: Active) {
    && b.run == a.run
    && b.startTime == a.startTime
    && b.pauseTime == (if t.paused then if s.paused then a.pauseTime else Some(t.now) else None)
    && b.unpauseTime == if s.paused && !t.paused then Some(t.now) else a.unpauseTime
  }

  ghost predicate Opens(s: State, t: State, b: Active) {
    && b.startTime == Some(t.now)
    && b.pauseTime == (if t.paused then Some(t.now) else None)
    && b.unpauseTime == None
  }

  // The run that is current after a step was current before it and goes on, or has just begun.
  ghost predicate Stamps(s: State, t: State) {
    t.current.Some? ==>
      || (s.current.Some? && Carries(s, s.current.value, t, t.current.value) && t.log.started == s.log.started)
      || (Opens(s, t, t.current.value) && t.log.started == s.log.started + [t.current.value.run])
  }

  lemma AdvanceStamps(s: State, cancelled: bool)
    requires s.current.Some?
    ensures var t := Advance(s, cancelled);
            t.current.Some? ==> Opens(s, t, t.current.value) && t.log.started == s.log.started + [t.current.value.run]
  {
  }

  lemma CancelStamps(s: State, t: State, hit: bool)
    requires Inv(s) && t.current == s.current && t.log.started == s.log.started && t.paused == s.paused
    ensures Stamps(s, if t.current.Some? && hit then Advance(t, true) else t)
  {
    if t.current.Some? { AdvanceStamps(t, true); }
  }

  lemma PausedStamps(s: State, e: Stamped)
    requires Inv(s) && Enabled(s, e) && e.event.SetPaused?
    ensures Stamps(s, Step(s, e))
  {
    hide Ledger, IDsFresh, StaleOver, Pop, Live;
  }

  lemma OtherStamps(s: State, e: Stamped)
    requires Inv(s) && Enabled(s, e) && (e.event.Submit? || e.event.Receive? || e.event.Timer?)
    ensures Stamps(s, Step(s, e))
  {
    hide Ledger, IDsFresh, StaleOver, Push, Pop, Live, Advance;
    if e.event.Timer? { AdvanceStamps(s.(now := e.time), false); }
  }

  lemma StepStamps(s: State, e: Stamped)
    requires Inv(s) && Enabled(s, e)
    ensures Stamps(s, Step(s, e))
  {
    hide Stamps, Opens, Carries;
    var u := s.(now := e.time);
    match e.event
    case CancelSection(sec) =>
      CancelStamps(s, CancelQueued(u, OfSection(sec)), s.current.Some? && s.current.value.run.sec == sec);
    case CancelID(id) =>
      CancelStamps(s, if id == SR_ID_ALL then CancelQueued(u, Every) else CancelQueuedID(u, id),
                   s.current.Some? && (id == SR_ID_ALL || s.current.value.run.id == id));
    case SetPaused(_) => PausedStamps(s, e);
    case _ => OtherStamps(s, e);
  }

  lemma StampsAt(ss: seq<State>, es: seq<Stamped>, i: nat)
    requires Execution(ss, es) && i < |es|
    ensures Stamps(ss[i], ss[i + 1])
    ensures ss[i + 1].current.Some? && ss[i + 1].log.started != ss[i].log.started ==>
              var r := ss[i + 1].current.value.run;
              r !in ss[i].log.started && !Serves(ss[i], r)
  {
    hide Inv, Step, Carries, Opens;
    Reachable(ss, es, i);
    Reachable(ss, es, i + 1);
    assert Transition(ss[i], es[i], ss[i + 1]);
    StepStamps(ss[i], es[i]);
    if ss[i + 1].current.Some? && ss[i + 1].log.started != ss[i].log.started {
      NotStartedBefore(ss[i], ss[i + 1], ss[i + 1].current.value.run);
    }
  }

  // ---- Over whole executions ----

  // Step k starts r.
  predicate StartsAt(ss: seq<State>, k: nat, r: Run)
    requires 0 < k < |ss|
  {
    r in ss[k].log.started && r !in ss[k - 1].log.started
  }

  lemma NotBefore(ss: seq<State>, es: seq<Stamped>, i: nat, n: nat, r: Run)
    requires Execution(ss, es) && i <= n <= |es| && r !in ss[n].log.started
    ensures r !in ss[i].log.started && !Serves(ss[i], r)
  {
    hide Inv, Step;
    HistoryGrows(ss, es, i, n);
    Reachable(ss, es, i);
    CurrentWasStarted(ss[i]);
  }

  // The start time of the current run is the instant of the one step that put it on the list of started
  // runs; so it never changes while the run is current.
  lemma {:induction false} StartTimeIsStart(ss: seq<State>, es: seq<Stamped>, n: nat) returns (k: nat)
    requires Execution(ss, es) && n <= |es| && ss[n].current.Some?
    ensures var a := ss[n].current.value;
            && 0 < k <= n && a.startTime == Some(ss[k].now)
            && (forall j :: 0 < j <= n ==> (StartsAt(ss, j, a.run) <==> j == k))
            && (forall i :: k <= i <= n ==> Serves(ss[i], a.run))
  {
    hide Inv, Step;
    if n == 0 {
      assert false;
    } else {
      var r := ss[n].current.value.run;
      StampsAt(ss, es, n - 1);
      if ss[n].log.started == ss[n - 1].log.started {
        k := StartTimeIsStart(ss, es, n - 1);
      } else {
        k := n;
        forall j | 0 < j < n ensures !StartsAt(ss, j, r) {
          NotBefore(ss, es, j, n - 1, r);
        }
      }
    }
  }

  // While the current run is paused, its pause time is the instant since which it has been current and
  // paused without a break.
  lemma {:induction false} PausedSince(ss: seq<State>, es: seq<Stamped>, n: nat) returns (k: nat)
    requires Execution(ss, es) && n <= |es| && ss[n].current.Some? && ss[n].paused
    ensures var a := ss[n].current.value;
            && 0 < k <= n && a.pauseTime == Some(ss[k].now)
            && (forall i :: k <= i <= n ==> ss[i].paused && Serves(ss[i], a.run))
            && !(ss[k - 1].paused && Serves(ss[k - 1], a.run))
  {
    hide Inv, Step;
    if n == 0 {
      assert false;
    } else {
      StampsAt(ss, es, n - 1);
      if ss[n - 1].paused && Serves(ss[n - 1], ss[n].current.value.run) {
        k := PausedSince(ss, es, n - 1);
      } else {
        k := n;
      }
    }
  }

  // Step k ends a pause of the current run r.
  predicate ResumesAt(ss: seq<State>, k: nat, r: Run)
    requires 0 < k < |ss|
  {
    Serves(ss[k - 1], r) && ss[k - 1].paused && Serves(ss[k], r) && !ss[k].paused
  }

  // The unpause time of the current run is the instant of its last resumption; it has none before its first
  // (then k is 0).
  lemma {:induction false} UnpauseTimeIsLastResume(ss: seq<State>, es: seq<Stamped>, n: nat) returns (k: nat)
    requires Execution(ss, es) && n <= |es| && ss[n].current.Some?
    ensures var a := ss[n].current.value;
            && k <= n
            && a.unpauseTime == (if k == 0 then None else Some(ss[k].now))
            && (k > 0 ==> ResumesAt(ss, k, a.run))
            && (forall j :: k < j <= n ==> !ResumesAt(ss, j, a.run))
  {
    hide Inv, Step;
    if n == 0 {
      assert false;
    } else {
      var r := ss[n].current.value.run;
      StampsAt(ss, es, n - 1);
      if ss[n].log.started == ss[n - 1].log.started {
        k := UnpauseTimeIsLastResume(ss, es, n - 1);
        if ResumesAt(ss, n, r) { k := n; }
      } else {
        k := 0;
        forall j | 0 < j <= n ensures !ResumesAt(ss, j, r) {
          NotBefore(ss, es, j - 1, n - 1, r);
        }
      }
    }
  }

  // ---- What a Done channel is told ----

  lemma TimerEnds(ss: seq<State>, es: seq<Stamped>, i: nat)
    requires Execution(ss, es) && i < |es|
    ensures es[i].event.Timer? ==>
              ss[i].current.Some? && ss[i + 1].log.ended == ss[i].log.ended + [Outcome(ss[i].current.value.run, false)]
    ensures !es[i].event.Timer? ==>
              || ss[i + 1].log.ended == ss[i].log.ended
              || (ss[i].current.Some?
                  && ss[i + 1].log.ended == ss[i].log.ended + [Outcome(ss[i].current.value.run, true)])
  {
    hide Inv, Step;
    assert Transition(ss[i], es[i], ss[i + 1]);
    if es[i].event.Timer? { TimerWatered(ss, es, i); } else { CancelEnds(ss[i], es[i]); }
  }

  // A run is recorded as finished if and only if the timer fired while it was current.
  lemma {:induction false} FinishedIff(ss: seq<State>, es: seq<Stamped>, n: nat, r: Run)
    requires Execution(ss, es) && n <= |es|
    ensures Outcome(r, false) in ss[n].log.ended
            <==> exists i :: 0 <= i < n && es[i].event.Timer? && Serves(ss[i], r)
  {
    hide Inv, Step;
    if n > 0 {
      FinishedIff(ss, es, n - 1, r);
      TimerEnds(ss, es, n - 1);
    }
  }

  lemma TellsCount(s: State, r: Run)
    requires Inv(s) && r.notify
    ensures multiset(s.log.signals)[Outcome(r, false)] == multiset(s.log.ended)[Outcome(r, false)]
    ensures multiset(s.log.signals)[Outcome(r, true)]
            == multiset(s.log.ended)[Outcome(r, true)] + multiset(s.log.dropped)[r] + multiset(s.log.stale)[r]
  {
    SentCount(s.log.ended, Outcome(r, true));
    SentCount(s.log.ended, Outcome(r, false));
    NotifyAllCount(s.log.dropped, r);
    NotifyAllCount(s.log.stale, r);
  }

  // So a Done channel is told false if and only if the timer fired while the run was current: and at
  // most once.
  lemma ToldFalseIff(ss: seq<State>, es: seq<Stamped>, n: nat, r: Run)
    requires Execution(ss, es) && n <= |es| && r.notify
    ensures Outcome(r, false) in ss[n].log.signals
            <==> exists i :: 0 <= i < n && es[i].event.Timer? && Serves(ss[i], r)
    ensures multiset(ss[n].log.signals)[Outcome(r, false)] <= 1
  {
    hide Step;
    Reachable(ss, es, n);
    FinishedIff(ss, es, n, r);
    TellsCount(ss[n], r);
    EndedDistinct(ss[n]);
    OutcomeCount(ss[n].log.ended, r);
  }
}
