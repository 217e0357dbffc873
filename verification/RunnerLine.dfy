// The section runner as its users see it: a line of runs, the first of which is being served.

module RunnerLine {
  import opened Wrappers
  import opened Runs
  import opened RingSpec
  import opened RunnerSpec
  import opened RunLists
  import opened RunnerInvariant

  // The runner without the ring, the clock, the timer and the valves.
  datatype Line = Line(waiting: seq<Run>, serving: bool, paused: bool)

  function LineOf(s: State): Line {
    Line(CurrentRun(s) + Queued(s), s.current.Some?, s.paused)
  }

  function Waiting(l: Line, e: Event): seq<Run> {
    match e
    case Submit(_, _, _) => l.waiting
    case Receive(r) => l.waiting + [r]
    case CancelSection(sec) => Missed(l.waiting, OfSection(sec))
    case CancelID(id) => if id == SR_ID_ALL then [] else DropFirstId(l.waiting, id)
    case SetPaused(_) => l.waiting
    case Timer => if l.waiting == [] then [] else l.waiting[1..]
  }

  // The first in line is served as soon as the runner is not paused, and stays so when it is paused.
  function LineStep(l: Line, e: Event): Line {
    var waiting := Waiting(l, e);
    var paused := if e.SetPaused? then e.on else l.paused;
    Line(waiting, waiting != [] && (l.serving || !paused), paused)
  }

  lemma AdvanceLine(s: State, cancelled: bool)
    requires Sound(s.queue) && s.current.Some?
    ensures var t := Advance(s, cancelled);
            LineOf(t) == Line(Queued(s), Queued(s) != [], s.paused)
  {
    PopTakesFirst(s.queue);
  }

  lemma {:induction false} MissEvery(q: seq<Run>)
    ensures Missed(q, Every) == []
  {
    if q != [] { MissEvery(q[1..]); }
  }

  lemma MissedCons(r: Run, q: seq<Run>, w: Which)
    ensures Missed([r] + q, w) == if Hits(w, r) then Missed(q, w) else [r] + Missed(q, w)
  {
    assert ([r] + q)[1..] == q;
  }

  lemma BulkLine(s: State, w: Which)
    requires Inv(s)
    ensures var t := CancelQueued(s, w);
            var v := if t.current.Some? && Hits(w, t.current.value.run) then Advance(t, true) else t;
            var l := Missed(CurrentRun(s) + Queued(s), w);
            LineOf(v) == Line(l, l != [] && (s.current.Some? || !s.paused), s.paused)
  {
    var t := CancelQueued(s, w);
    assert Queued(t) == Missed(Queued(s), w) by { ClearKeepsMissed(s.queue.window, w); }
    if s.current.Some? {
      MissedCons(s.current.value.run, Queued(s), w);
      if Hits(w, s.current.value.run) { AdvanceLine(t, true); }
    } else {
      assert CurrentRun(s) + Queued(s) == Queued(s);
      assert CurrentRun(t) + Queued(t) == Queued(t);
    }
  }

  lemma NoOtherWithID(s: State, r: Run)
    requires Inv(s) && s.current.Some? && s.current.value.run == r
    ensures DropFirstId(Queued(s), r.id) == Queued(s)
    ensures IndexOfId(s.queue.window, r.id) == |s.queue.window|
  {
    var q := Queued(s);
    Accounts(s.log, q, CurrentRun(s));
    var all := s.log.started + q;
    assert all[|s.log.started| - 1] == r;
    forall i | 0 <= i < |q| ensures q[i].id != r.id {
      assert all[|s.log.started| + i] == q[i];
    }
    IdRemoveDropsFirst(s.queue.window, r.id);
    FirstWithIdHas(q, r.id);
  }

  lemma IDLine(s: State, e: Stamped)
    requires Inv(s) && Enabled(s, e) && e.event.CancelID? && e.event.id != SR_ID_ALL
    ensures LineOf(Step(s, e)) == LineStep(LineOf(s), e.event)
  {
    hide IndexOfId;
    var id := e.event.id;
    var t := CancelQueuedID(s.(now := e.time), id);
    IdRemoveDropsFirst(s.queue.window, id);
    if s.current.Some? {
      var r := s.current.value.run;
      assert (CurrentRun(s) + Queued(s))[1..] == Queued(s);
      if r.id == id {
        NoOtherWithID(s, r);
        assert Queued(t) == Queued(s);
        AdvanceLine(t, true);
      }
    } else {
      assert CurrentRun(s) + Queued(s) == Queued(s);
    }
  }

  lemma ReceiveLine(s: State, e: Stamped)
    requires Inv(s) && Enabled(s, e) && e.event.Receive?
    ensures LineOf(Step(s, e)) == LineStep(LineOf(s), e.event)
  {
    var r := e.event.run;
    PushAppends(s.queue, Some(r));
    assert CurrentRun(s) + Queued(s) + [r] == CurrentRun(s) + (Queued(s) + [r]);
  }

  lemma UnpauseLine(s: State)
    requires Inv(s) && s.paused
    ensures LineOf(Unpause(s)) == Line(LineOf(s).waiting, LineOf(s).waiting != [], false)
  {
    if s.current.None? {
      PopTakesFirst(s.queue);
      if Queued(s) != [] { assert Queued(s) == [Queued(s)[0]] + Queued(s)[1..]; }
    }
  }

  lemma TimerServes(s: State, e: Stamped)
    requires Inv(s) && Enabled(s, e) && e.event.Timer?
    ensures s.current.Some? && Sound(s.queue)
  {
  }

  lemma TimerLine(s: State, e: Stamped)
    requires Inv(s) && Enabled(s, e) && e.event.Timer?
    ensures LineOf(Step(s, e)) == LineStep(LineOf(s), e.event)
  {
    hide Inv;
    hide Live;
    TimerServes(s, e);
    AdvanceLine(s.(now := e.time), false);
    assert (CurrentRun(s) + Queued(s))[1..] == Queued(s);
  }

  lemma NeverIdle(s: State)
    requires Inv(s)
    ensures s.current.Some? <==> LineOf(s).waiting != [] && (s.current.Some? || !s.paused)
  {
  }

  // Ring, tombstones, timer and pause bookkeeping included, every step does to the line what a plain
  // sequence would do.
  lemma StepRefinesLine(s: State, e: Stamped)
    requires Inv(s) && Enabled(s, e)
    ensures LineOf(Step(s, e)) == LineStep(LineOf(s), e.event)
  {
    hide Inv;
    var u := s.(now := e.time);
    TickKeeps(s, e.time);
    NeverIdle(s);
    match e.event
    case Submit(_, _, _) =>
    case Receive(_) => ReceiveLine(s, e);
    case CancelSection(sec) => BulkLine(u, OfSection(sec));
    case CancelID(id) =>
      if id == SR_ID_ALL { BulkLine(u, Every); MissEvery(LineOf(s).waiting); } else { IDLine(s, e); }
    case SetPaused(on) => if s.paused && !on { UnpauseLine(u); }
    case Timer => TimerLine(s, e);
  }

  lemma TransitionRefinesLine(s: State, e: Stamped, t: State)
    requires Inv(s) && Transition(s, e, t)
    ensures LineOf(t) == LineStep(LineOf(s), e.event)
  {
    StepRefinesLine(s, e);
  }

  function LineAfter(es: seq<Stamped>): Line {
    if es == [] then Line([], false, false) else LineStep(LineAfter(es[..|es| - 1]), es[|es| - 1].event)
  }

  // Whole runs: the line depends on the order of the events alone.
  lemma {:induction false} RunRefinesLine(ss: seq<State>, es: seq<Stamped>, i: nat)
    requires Execution(ss, es) && i <= |es|
    ensures LineOf(ss[i]) == LineAfter(es[..i])
  {
    hide Inv, LineStep;
    if i > 0 {
      RunRefinesLine(ss, es, i - 1);
      Reachable(ss, es, i - 1);
      assert Transition(ss[i - 1], es[i - 1], ss[i - 1 + 1]);
      TransitionRefinesLine(ss[i - 1], es[i - 1], ss[i]);
      assert es[..i][..i - 1] == es[..i - 1];
    }
  }

  // ---- Cancellation ----

  lemma {:induction false} MissedHas(q: seq<Run>, which: Which, r: Run)
    ensures r in Missed(q, which) <==> r in q && !Hits(which, r)
  {
    if q != [] {
      assert q == [q[0]] + q[1..];
      MissedHas(q[1..], which, r);
    }
  }

  lemma DistinctDrop(s: seq<Run>, n: nat)
    requires DistinctIDs(s) && n <= |s|
    ensures DistinctIDs(s[n..])
  {
  }

  lemma LineDistinct(s: State)
    requires Inv(s)
    ensures DistinctIDs(CurrentRun(s) + Queued(s))
  {
    hide DistinctIDs, Live, Without, Signalled, SpareWithin, Clocked, ValvesMatch;
    Accounts(s.log, Queued(s), CurrentRun(s));
    DistinctDrop(s.log.started + Queued(s), |s.log.ended|);
    assert CurrentRun(s) + Queued(s) == (s.log.started + Queued(s))[|s.log.ended|..];
  }

  // After a cancel, no matching run waits or is served, every other run keeps its place, and if the run
  // being served was cancelled the first survivor takes over.
  lemma CancelBarrier(s: State, e: Stamped)
    requires Inv(s) && Enabled(s, e)
    ensures var t := Step(s, e); var l := CurrentRun(s) + Queued(s);
            match e.event
            case CancelSection(sec) =>
              CurrentRun(t) + Queued(t) == Missed(l, OfSection(sec))
              && (forall r :: r in CurrentRun(t) + Queued(t) <==> r in l && r.sec != sec)
              && (s.current.Some? ==> CurrentRun(t) == Missed(l, OfSection(sec))[..|CurrentRun(t)|]
                                      && (t.current.None? ==> Missed(l, OfSection(sec)) == []))
            case CancelID(id) =>
              if id == SR_ID_ALL then CurrentRun(t) + Queued(t) == []
              else CurrentRun(t) + Queued(t) == DropFirstId(l, id)
                   && (forall r :: r in CurrentRun(t) + Queued(t) <==> r in l && r.id != id)
            case _ => true
  {
    var t := Step(s, e);
    var l := CurrentRun(s) + Queued(s);
    StepRefinesLine(s, e);
    assert LineOf(t).waiting == CurrentRun(t) + Queued(t);
    match e.event
    case CancelSection(sec) =>
      forall r ensures r in Missed(l, OfSection(sec)) <==> r in l && r.sec != sec { MissedHas(l, OfSection(sec), r); }
    case CancelID(id) =>
      LineDistinct(s);
      FirstWithIdHas(l, id);
      DropIsWithout(l, id);
      var d := Members(Shown(FirstWithId(l, id)));
      forall r ensures r in Without(l, d) <==> r in l && r.id != id {
        WithoutHas(l, d, r);
        if r in l && r.id == id { SameID(l, r, FirstWithId(l, id).value); }
      }
    case _ =>
  }
}
