// Concrete histories of a program in which a cancellation does not do what one would expect of it.

module ProgramHistories {
  import opened Wrappers
  import opened Runs
  import opened RingSpec
  import opened RunnerSpec
  import opened ProgramSpec

  const FRONT := Section(0, 0)
  const BACK := Section(1, 1)
  const FIRST := Run(0, FRONT, 60, true)
  const SECOND := Run(1, BACK, 60, true)

  lemma Extend(ss: seq<System>, acts: seq<Action>, a: Action) returns (ss': seq<System>, acts': seq<Action>)
    requires History(ss, acts) && Sound(ss[|acts|].runner.queue) && Possible(ss[|acts|], a)
    ensures ss' == ss + [Act(ss[|acts|], a)] && acts' == acts + [a]
    ensures History(ss', acts')
  {
    hide Act, Possible, Start;
    ss', acts' := ss + [Act(ss[|acts|], a)], acts + [a];
    forall i | 0 <= i < |acts'| ensures Move(ss'[i], acts'[i], ss'[i + 1]) {
      if i < |acts| {
        assert Move(ss[i], acts[i], ss[i + 1]);
      }
    }
  }

  // ---- A cancel that comes before its run ----

  // One item is launched, submitted and waited for, and the runner has read nothing yet.
  lemma WaitForOne() returns (ss: seq<System>, acts: seq<Action>)
    ensures History(ss, acts)
    ensures ss[|acts|] == System(Init(0).(nextID := 1, pending := {FIRST}), true, [Item(FRONT, 60)],
                                 Awaiting([FIRST], 0), [], {FIRST}, [], {})
  {
    ss, acts := [Start(0)], [];
    ss, acts := Extend(ss, acts, Launch([Item(FRONT, 60)]));
    ss, acts := Extend(ss, acts, SubmitNext(0));
    assert ss[2].runner.pending == {FIRST} && ss[2].mine == {FIRST} && ss[2].phase == Submitting([FIRST]);
    ss, acts := Extend(ss, acts, AwaitNext);
  }

  // It is cancelled.
  lemma CancelUnread() returns (ss: seq<System>, acts: seq<Action>)
    ensures History(ss, acts)
    ensures ss[|acts|] == System(Init(0).(nextID := 1, pending := {FIRST}), false, [Item(FRONT, 60)], Idle, [0],
                                 {FIRST}, [[FIRST]], {})
  {
    ss, acts := WaitForOne();
    ss, acts := Extend(ss, acts, CancelRequest);
    ss, acts := Extend(ss, acts, SendCancel);
    assert ss[|acts|].wire == [0];
    ss, acts := Extend(ss, acts, Return);
    assert ss[|acts|].retired == [[FIRST]];
  }

  // The runner then reads the cancel, finds nothing to cancel, reads the run, and waters it.
  lemma CancelledRunIsWatered() returns (ss: seq<System>, acts: seq<Action>)
    ensures History(ss, acts)
    ensures var s := ss[|acts|];
            && [FIRST] in s.retired && s.wire == []
            && CurrentRun(s.runner) == [FIRST] && s.runner.outputs == {FRONT.interfaceID}
  {
    ss, acts := CancelUnread();
    ss, acts := Extend(ss, acts, Deliver(0));
    ss, acts := Extend(ss, acts, Other(At(0, Receive(FIRST))));
  }

  // ---- A cancel by somebody else ----

  const BOTH := [FIRST, SECOND]

  // Two items are launched, submitted and waited for.
  lemma WaitForTwo() returns (ss: seq<System>, acts: seq<Action>)
    ensures History(ss, acts)
    ensures ss[|acts|] == System(Init(0).(nextID := 2, pending := {FIRST, SECOND}), true,
                                 [Item(FRONT, 60), Item(BACK, 60)], Awaiting(BOTH, 0), [], {FIRST, SECOND}, [], {})
  {
    ss, acts := [Start(0)], [];
    ss, acts := Extend(ss, acts, Launch([Item(FRONT, 60), Item(BACK, 60)]));
    ss, acts := Extend(ss, acts, SubmitNext(0));
    assert ss[2].runner.pending == {FIRST} && ss[2].mine == {FIRST} && ss[2].phase == Submitting([FIRST]);
    ss, acts := Extend(ss, acts, SubmitNext(0));
    assert ss[3].runner.pending == {FIRST, SECOND} && ss[3].mine == {FIRST, SECOND};
    assert ss[3].phase == Submitting(BOTH);
    ss, acts := Extend(ss, acts, AwaitNext);
  }

  // The runner waters the first and queues the second.
  ghost predicate WatersFirst(s: System) {
    && s.phase == Awaiting(BOTH, 0) && s.wire == []
    && s.runner.now == 0 && !s.runner.paused && s.runner.outputs == {FRONT.interfaceID}
    && s.runner.current == Some(Active(FIRST, 60, Some(0), None, None))
    && s.runner.queue == Ring([Some(SECOND)], Nones(9))
    && s.runner.log.arrived == BOTH && s.runner.log.started == [FIRST]
  }

  lemma ReceiveBoth() returns (ss: seq<System>, acts: seq<Action>)
    ensures History(ss, acts) && WatersFirst(ss[|acts|])
  {
    ss, acts := WaitForTwo();
    ss, acts := Extend(ss, acts, Other(At(0, Receive(FIRST))));
    assert ss[|acts|].runner.pending == {SECOND};
    ss, acts := Extend(ss, acts, Other(At(0, Receive(SECOND))));
    assert Nones(10)[1..] == Nones(9);
  }

  lemma SecondStarts(s: State)
    requires s.current.Some? && s.current.value.run == FIRST && s.queue == Ring([Some(SECOND)], Nones(9))
    requires !s.paused && s.outputs == {FRONT.interfaceID} && s.log.started == [FIRST]
    ensures var t := Step(s, At(0, CancelID(FIRST.id)));
            SECOND in t.log.started && t.outputs == {BACK.interfaceID}
  {
    var u := s.(now := 0);
    assert IndexOfId(s.queue.window, FIRST.id) == 1;
    assert CancelQueuedID(u, FIRST.id).queue == s.queue;
    assert Step(s, At(0, CancelID(FIRST.id))) == Advance(CancelQueuedID(u, FIRST.id), true);
  }

  // The program is being cancelled, has sent no cancel yet, and no timer fires: somebody else's cancel of
  // the first run switches the second on.
  lemma ForeignCancelStartsNext() returns (ss: seq<System>, acts: seq<Action>, m: nat)
    ensures History(ss, acts) && m < |acts|
    ensures ss[m].phase == Awaiting(BOTH, 0) && ss[m].runner.log.arrived == BOTH
    ensures forall i :: m <= i < |acts| ==> acts[i] == CancelRequest || acts[i] == Other(At(0, CancelID(FIRST.id)))
    ensures SECOND !in ss[m].runner.log.started && SECOND in ss[|acts|].runner.log.started
    ensures ss[|acts|].phase.Cancelling? && ss[|acts|].runner.outputs == {BACK.interfaceID}
  {
    ss, acts := ReceiveBoth();
    m := |acts|;
    ss, acts := Extend(ss, acts, CancelRequest);
    ss, acts := Extend(ss, acts, Other(At(0, CancelID(FIRST.id))));
    SecondStarts(ss[m].runner);
  }
}
