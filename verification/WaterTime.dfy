// How long a run is watered, measured on the outputs and not on the run's own bookkeeping.

module WaterTime {
  import opened Wrappers
  import opened Runs
  import opened RingSpec
  import opened RunnerSpec
  import opened RunnerInvariant
  import opened RunnerHistory

  predicate Watering(s: State, r: Run) {
    s.current.Some? && s.current.value.run == r && r.sec.interfaceID in s.outputs
  }

  // Time for which r's output was on for r, from the start of the run up to ss[n].
  function Watered(ss: seq<State>, r: Run, n: nat): int
    requires n < |ss|
  {
    if n == 0 then 0
    else Watered(ss, r, n - 1) + if Watering(ss[n - 1], r) then ss[n].now - ss[n - 1].now else 0
  }

  // ---- How the current run changes in a step ----

  // The same run goes on: b in t is a in s after a pause, a resumption, or nothing.
  ghost predicate Continues(s: State, a: Active, t: State, b: Active) {
    && b.run == a.run
    && SwitchedOn(a).Some?
    && if s.paused == t.paused then b == a
       else if t.paused then b.duration == a.duration - (t.now - SwitchedOn(a).value)
       else b.duration == a.duration && SwitchedOn(b) == Some(t.now)
  }

  ghost predicate Begins(s: State, t: State, b: Active) {
    && t.log.started == s.log.started + [b.run]
    && b.duration == b.run.total
    && SwitchedOn(b) == Some(t.now)
  }

  ghost predicate Evolves(s: State, t: State) {
    t.current.Some? ==>
      || (s.current.Some? && Continues(s, s.current.value, t, t.current.value))
      || Begins(s, t, t.current.value)
  }

  lemma AdvanceEvolves(s: State, cancelled: bool)
    requires s.current.Some?
    ensures var t := Advance(s, cancelled);
            t.current.Some? ==> Begins(s, t, t.current.value)
  {
  }

  lemma CancelEvolves(s: State, t: State, hit: bool)
    requires Inv(s) && t.current == s.current && t.log.started == s.log.started && t.paused == s.paused
    ensures Evolves(s, if t.current.Some? && hit then Advance(t, true) else t)
  {
    if t.current.Some? { AdvanceEvolves(t, true); }
  }

  lemma StepEvolves(s: State, e: Stamped)
    requires Inv(s) && Enabled(s, e)
    ensures Evolves(s, Step(s, e))
  {
    var u := s.(now := e.time);
    match e.event
    case CancelSection(sec) =>
      CancelEvolves(s, CancelQueued(u, OfSection(sec)), s.current.Some? && s.current.value.run.sec == sec);
    case CancelID(id) =>
      CancelEvolves(s, if id == SR_ID_ALL then CancelQueued(u, Every) else CancelQueuedID(u, id),
                    s.current.Some? && (id == SR_ID_ALL || s.current.value.run.id == id));
    case Timer => AdvanceEvolves(u, false);
    case _ =>
  }

  lemma EvolvesAt(ss: seq<State>, es: seq<Stamped>, n: nat)
    requires Execution(ss, es) && n < |es|
    ensures Inv(ss[n]) && Inv(ss[n + 1]) && Evolves(ss[n], ss[n + 1]) && Grows(ss[n], ss[n + 1])
  {
    Reachable(ss, es, n);
    Reachable(ss, es, n + 1);
    HistoryGrows(ss, es, n, n + 1);
    assert Transition(ss[n], es[n], ss[n + 1]);
    StepEvolves(ss[n], es[n]);
  }

  // ---- Conservation ----

  lemma CurrentWasStarted(s: State)
    requires Inv(s)
    ensures forall r :: r in CurrentRun(s) ==> r in s.log.started
  {
  }

  lemma {:induction false} DryUntilStarted(ss: seq<State>, es: seq<Stamped>, n: nat, r: Run)
    requires Execution(ss, es) && n <= |es| && r !in ss[n].log.started
    ensures Watered(ss, r, n) == 0
  {
    hide Inv, Evolves;
    if n > 0 {
      EvolvesAt(ss, es, n - 1);
      CurrentWasStarted(ss[n - 1]);
      DryUntilStarted(ss, es, n - 1, r);
    }
  }

  // w is the time the current run has been watered.
  ghost predicate Balanced(s: State, w: int) {
    s.current.Some? ==>
      var a := s.current.value;
      && SwitchedOn(a).Some?
      && w + a.duration == a.run.total + if s.paused then 0 else s.now - SwitchedOn(a).value
  }

  lemma BalanceContinues(s: State, t: State, w: int)
    requires Inv(s) && Inv(t) && s.now <= t.now && Balanced(s, w) && s.current.Some? && t.current.Some?
    requires Continues(s, s.current.value, t, t.current.value)
    ensures Balanced(t, w + if Watering(s, s.current.value.run) then t.now - s.now else 0)
  {
  }

  lemma NotStartedBefore(s: State, t: State, r: Run)
    requires Inv(s) && Inv(t) && t.log.started == s.log.started + [r]
    ensures r !in s.log.started && r !in CurrentRun(s)
  {
    Accounts(t.log, Queued(t), CurrentRun(t));
    var all := t.log.started + Queued(t);
    var k := |s.log.started|;
    assert all[k] == r;
    forall i | 0 <= i < k ensures s.log.started[i] != r {
      assert all[i] == s.log.started[i];
    }
    assert forall q :: q in CurrentRun(s) ==> q in s.log.started;
  }

  lemma BalanceBegins(ss: seq<State>, es: seq<Stamped>, n: nat)
    requires Execution(ss, es) && n < |es| && Inv(ss[n]) && Inv(ss[n + 1])
    requires ss[n + 1].current.Some? && Begins(ss[n], ss[n + 1], ss[n + 1].current.value)
    ensures Balanced(ss[n + 1], Watered(ss, ss[n + 1].current.value.run, n + 1))
  {
    var r := ss[n + 1].current.value.run;
    NotStartedBefore(ss[n], ss[n + 1], r);
    DryUntilStarted(ss, es, n, r);
  }

  // Time watered plus time remaining is the time asked for, at every reachable state and after any number of
  // pauses; while the output is on, the time since it was last switched on is still to be subtracted.
  lemma {:induction false} Conserved(ss: seq<State>, es: seq<Stamped>, n: nat)
    requires Execution(ss, es) && n <= |es| && ss[n].current.Some?
    ensures Balanced(ss[n], Watered(ss, ss[n].current.value.run, n))
  {
    hide Inv;
    Reachable(ss, es, n);
    if n > 0 {
      var s, t := ss[n - 1], ss[n];
      EvolvesAt(ss, es, n - 1);
      if s.current.Some? && Continues(s, s.current.value, t, t.current.value) {
        Conserved(ss, es, n - 1);
        BalanceContinues(s, t, Watered(ss, s.current.value.run, n - 1));
      } else {
        BalanceBegins(ss, es, n - 1);
      }
    }
  }

  lemma OnMeansUnpaused(ss: seq<State>, es: seq<Stamped>, n: nat)
    requires Execution(ss, es) && n <= |es|
    ensures ss[n].current.Some? ==> (Watering(ss[n], ss[n].current.value.run) <==> !ss[n].paused)
  {
    Reachable(ss, es, n);
  }

  lemma StaysOn(ss: seq<State>, es: seq<Stamped>, n: nat)
    requires Execution(ss, es) && n < |es| && ss[n + 1].current.Some?
    requires Watering(ss[n], ss[n + 1].current.value.run) && Watering(ss[n + 1], ss[n + 1].current.value.run)
    ensures ss[n].current == ss[n + 1].current
  {
    hide Inv;
    EvolvesAt(ss, es, n);
    OnMeansUnpaused(ss, es, n);
    OnMeansUnpaused(ss, es, n + 1);
    if Begins(ss[n], ss[n + 1], ss[n + 1].current.value) {
      NotStartedBefore(ss[n], ss[n + 1], ss[n + 1].current.value.run);
    }
  }

  lemma JustSwitchedOn(ss: seq<State>, es: seq<Stamped>, n: nat)
    requires Execution(ss, es) && n < |es| && ss[n + 1].current.Some?
    requires !Watering(ss[n], ss[n + 1].current.value.run) && Watering(ss[n + 1], ss[n + 1].current.value.run)
    ensures SwitchedOn(ss[n + 1].current.value) == Some(ss[n + 1].now)
  {
    hide Inv;
    EvolvesAt(ss, es, n);
    OnMeansUnpaused(ss, es, n);
    OnMeansUnpaused(ss, es, n + 1);
  }

  // While a run is watered, its unpause time, or else its start time, is the instant at which its output was
  // last switched on: it has been on in every state since, and was off before.
  lemma {:induction false} LastSwitchedOn(ss: seq<State>, es: seq<Stamped>, n: nat) returns (k: nat)
    requires Execution(ss, es) && n <= |es| && ss[n].current.Some? && Watering(ss[n], ss[n].current.value.run)
    ensures var a := ss[n].current.value;
            && k <= n && SwitchedOn(a) == Some(ss[k].now)
            && (forall i :: k <= i <= n ==> Watering(ss[i], a.run))
            && (k > 0 ==> !Watering(ss[k - 1], a.run))
  {
    hide Inv, Continues, Begins;
    k := n;
    if n == 0 {
      OnMeansUnpaused(ss, es, n);
    } else if Watering(ss[n - 1], ss[n].current.value.run) {
      StaysOn(ss, es, n - 1);
      k := LastSwitchedOn(ss, es, n - 1);
    } else {
      JustSwitchedOn(ss, es, n - 1);
    }
  }

  // A run that the timer ends has been watered for the time asked for, plus exactly as long as the timer
  // was late.
  lemma TimerWatered(ss: seq<State>, es: seq<Stamped>, n: nat)
    requires Execution(ss, es) && n < |es| && es[n].event.Timer?
    ensures ss[n].current.Some? && ss[n].delay.Some?
    ensures var r := ss[n].current.value.run;
            && Watered(ss, r, n + 1) == r.total + (es[n].time - ss[n].delay.value)
            && Watered(ss, r, n + 1) >= r.total
            && ss[n + 1].log.ended == ss[n].log.ended + [Outcome(r, false)]
  {
    assert Transition(ss[n], es[n], ss[n + 1]);
    Reachable(ss, es, n);
    Conserved(ss, es, n);
  }

  lemma AdvanceEnds(s: State)
    ensures s.current.Some? ==>
              Advance(s, true).log.ended == s.log.ended + [Outcome(s.current.value.run, true)]
  {
  }

  // A run that ended otherwise was cancelled by the step that ended it.
  lemma CancelEnds(s: State, e: Stamped)
    requires Sound(s.queue) && Enabled(s, e) && !e.event.Timer?
    ensures Step(s, e).log.ended == s.log.ended
            || (s.current.Some? && Step(s, e).log.ended == s.log.ended + [Outcome(s.current.value.run, true)])
  {
    var u := s.(now := e.time);
    match e.event
    case CancelSection(sec) => AdvanceEnds(CancelQueued(u, OfSection(sec)));
    case CancelID(id) => AdvanceEnds(if id == SR_ID_ALL then CancelQueued(u, Every) else CancelQueuedID(u, id));
    case _ =>
  }

  lemma EndedAt(ss: seq<State>, es: seq<Stamped>, n: nat, r: Run)
    requires Execution(ss, es) && n < |es|
    requires Outcome(r, false) in ss[n + 1].log.ended && Outcome(r, false) !in ss[n].log.ended
    ensures Watered(ss, r, n + 1) >= r.total
  {
    assert Transition(ss[n], es[n], ss[n + 1]);
    Reachable(ss, es, n);
    if es[n].event.Timer? {
      TimerWatered(ss, es, n);
    } else {
      CancelEnds(ss[n], es[n]);
    }
  }

  lemma WateredGrows(ss: seq<State>, es: seq<Stamped>, r: Run, n: nat)
    requires Execution(ss, es) && n < |es|
    ensures Watered(ss, r, n) <= Watered(ss, r, n + 1)
  {
    HistoryGrows(ss, es, n, n + 1);
  }

  // At every reachable state, every run reported as finished was watered for at least the time asked for.
  lemma {:induction false} FinishedWasWatered(ss: seq<State>, es: seq<Stamped>, n: nat, r: Run)
    requires Execution(ss, es) && n <= |es| && Outcome(r, false) in ss[n].log.ended
    ensures Watered(ss, r, n) >= r.total
  {
    if n > 0 {
      if Outcome(r, false) in ss[n - 1].log.ended {
        FinishedWasWatered(ss, es, n - 1, r);
        WateredGrows(ss, es, r, n - 1);
      } else {
        EndedAt(ss, es, n - 1, r);
      }
    }
  }

  // No run is watered again once it is over.
  lemma {:induction false} DryWhenOver(ss: seq<State>, es: seq<Stamped>, i: nat, n: nat, r: Run)
    requires Execution(ss, es) && i <= n <= |es| && Over(ss[i], r)
    ensures Watered(ss, r, n) == Watered(ss, r, i)
    decreases n
  {
    hide Inv, Over;
    if i < n {
      DryWhenOver(ss, es, i, n - 1, r);
      OverForGood(ss, es, i, n - 1, r);
    }
  }

  // ---- Valves ----

  // Output k is on exactly when a run of a section on k is current and the runner is not paused; so at most
  // one output is ever on, and none while paused.
  lemma ValveSafety(ss: seq<State>, es: seq<Stamped>, n: nat, k: nat)
    requires Execution(ss, es) && n <= |es|
    ensures k in ss[n].outputs
            <==> ss[n].current.Some? && !ss[n].paused && ss[n].current.value.run.sec.interfaceID == k
    ensures |ss[n].outputs| <= 1 && (ss[n].paused ==> ss[n].outputs == {})
  {
    Reachable(ss, es, n);
  }

  // The dereferences of the timer case and of the pause case never meet nil, and the runner never idles
  // while runs wait.
  lemma NeverNilNeverIdle(ss: seq<State>, es: seq<Stamped>, n: nat)
    requires Execution(ss, es) && n <= |es|
    ensures var s := ss[n];
            && (s.delay.Some? <==> s.current.Some? && !s.paused)
            && (s.current.Some? ==> s.current.value.startTime.Some?
                                    && (s.current.value.pauseTime.Some? <==> s.paused))
            && (s.current.None? && !s.paused ==> Queued(s) == [])
  {
    Reachable(ss, es, n);
  }
}
