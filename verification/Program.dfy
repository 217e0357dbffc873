// Program.run as one goroutine sees it: the running flag, the submit loop, the wait loop and the cancel loop.
// ProgramSpec says what happens when everything else is interleaved with it.

module Programs {
  import opened Runs
  import opened RingSpec
  import opened RunnerSpec
  import opened RunLists
  import opened RunnerInvariant
  import opened SectionRunners
  import opened ProgramSpec

  // The clock does not go back from one submission to the next.
  predicate Rising(now: int, times: seq<int>)
    decreases |times|
  {
    times == [] || (now <= times[0] && Rising(times[0], times[1..]))
  }

  // The runner after the items were submitted one by one, each at its own time.
  function SubmitEach(s: State, times: seq<int>, items: seq<Item>): (t: State)
    requires Sound(s.queue) && |times| == |items|
    ensures Sound(t.queue)
    decreases |items|
  {
    if items == [] then s
    else SubmitEach(Step(s, At(times[0], Submit(items[0].sec, items[0].duration, true))), times[1..], items[1..])
  }

  lemma SubmitEachStep(s: State, times: seq<int>, items: seq<Item>, i: nat)
    requires Sound(s.queue) && |times| == |items| && i < |items| && Rising(s.now, times[i..])
    ensures s.now <= times[i] && Rising(times[i], times[i + 1..])
    ensures var t := Step(s, At(times[i], Submit(items[i].sec, items[i].duration, true)));
            && t.now == times[i] && Sound(t.queue)
            && SubmitEach(s, times[i..], items[i..]) == SubmitEach(t, times[i + 1..], items[i + 1..])
  {
    assert items[i..][1..] == items[i + 1..] && times[i..][1..] == times[i + 1..];
    assert times[i..][0] == times[i];
  }

  lemma SubmitEachNothing(s: State, times: seq<int>, items: seq<Item>)
    requires Sound(s.queue) && |times| == |items|
    ensures SubmitEach(s, times[|items|..], items[|items|..]) == s
  {
  }

  function Sequential(first: nat, n: nat): (ids: seq<int>)
    ensures |ids| == n && forall k :: 0 <= k < n ==> ids[k] == first + k
  {
    seq(n, k => first + k)
  }

  // The ids of runIds[i..], last first.
  function LastToFirst(runIds: seq<int>, i: nat): (sent: seq<int>)
    requires i <= |runIds|
    ensures |sent| == |runIds| - i
    ensures forall k :: 0 <= k < |sent| ==> sent[k] == runIds[|runIds| - 1 - k]
  {
    seq(|runIds| - i, k requires 0 <= k < |runIds| - i => runIds[|runIds| - 1 - k])
  }

  lemma LastToFirstNothing(runIds: seq<int>)
    ensures LastToFirst(runIds, |runIds|) == []
  {
  }

  function IDsOf(batch: seq<Run>): (ids: seq<int>)
    ensures |ids| == |batch| && forall k :: 0 <= k < |batch| ==> ids[k] == batch[k].id
  {
    seq(|batch|, k requires 0 <= k < |batch| => batch[k].id)
  }

  function RunFor(id: nat, item: Item): Run {
    Run(id, item.sec, item.duration, true)
  }

  function Submitted(first: nat, items: seq<Item>): (runs: seq<Run>)
    ensures |runs| == |items|
    ensures forall k :: 0 <= k < |items| ==> runs[k] == Run(first + k, items[k].sec, items[k].duration, true)
  {
    seq(|items|, k requires 0 <= k < |items| => RunFor(first + k, items[k]))
  }

  lemma SubmittedSnoc(first: nat, items: seq<Item>, i: nat)
    requires i < |items|
    ensures Submitted(first, items[..i + 1])
            == Submitted(first, items[..i]) + [RunFor(first + i, items[i])]
    ensures items[..|items|] == items
  {
  }

  // The waits are over: every run was waited for, or every cancel was sent.
  predicate Through(p: Phase) {
    match p
    case Awaiting(batch, i) => i == |batch|
    case Cancelling(_, i, j) => i == j
    case _ => false
  }

  lemma SubmittedIDs(first: nat, items: seq<Item>)
    ensures IDsOf(Submitted(first, items)) == Sequential(first, |items|)
  {
  }

  class Program {
    var running: bool
    var cancels: seq<int>  // everything sent on the cancelID channel
    ghost var phase: Phase  // where the goroutine that set the flag is

    // The flag is set exactly while an invocation is at work.
    ghost predicate Valid()
      reads this
    {
      running <==> phase != Idle
    }

    constructor ()
      ensures Valid() && !running && cancels == []
    {
      running, cancels, phase := false, [], Idle;
    }

    // The running flag is an AtomicBool.
    method StoreIf(expected: bool, value: bool) returns (stored: bool)
      modifies this`running
      ensures stored <==> old(running) == expected
      ensures running == if stored then value else old(running)
    {
      stored := running == expected;
      if stored {
        running := value;
      }
    }

    // The i-th wait ends with the i-th Done value, except that the one at cancelAt ends with a cancel.
    method Run(runner: SectionRunner, times: seq<int>, items: seq<Item>, cancelAt: nat)
      requires Valid() && runner.Valid() && |times| == |items| && Rising(runner.model.now, times)
      modifies this, runner
      ensures Valid() && runner.Valid() && running == old(running) && phase == old(phase)
      ensures old(running) ==> runner.model == old(runner.model) && cancels == old(cancels)
      ensures !old(running) ==>
                && runner.model == SubmitEach(old(runner.model), times, items)
                && var runIds := Sequential(old(runner.nextID), |items|);
                   cancels == old(cancels) + if cancelAt < |items| then LastToFirst(runIds, cancelAt) else []
    {
      hide Step, IDsFresh, Ledger, Clocked, StaleOver, SubmitEach;
      var proceed := Begin();
      if !proceed {
        return;
      }
      var runIds := SubmitAll(runner, times, items);
      SubmittedIDs(old(runner.nextID), items);
      Wait(runIds, cancelAt);
      Stop();
    }

    // Sets the flag, unless another invocation has: what Launch does to the flag and the phase, whatever the
    // rest of the system is doing.
    method Begin() returns (proceed: bool)
      requires Valid()
      modifies this`running, this`phase
      ensures Valid() && running && (proceed <==> !old(running))
      ensures phase == if proceed then Submitting([]) else old(phase)
      ensures forall s: System, items: seq<Item> ::
                s.running == old(running) && s.phase == old(phase) && Sound(s.runner.queue) ==>
                  var t := Act(s, Launch(items)); t.running == running && t.phase == phase
    {
      hide Step;
      proceed := StoreIf(false, true);
      if proceed {
        phase := Submitting([]);
      }
    }

    // Clears the flag once the waits are over: what Return does.
    method Stop()
      requires Valid() && running && Through(phase)
      modifies this`running, this`phase
      ensures Valid() && !running
      ensures forall s: System ::
                s.running == old(running) && s.phase == old(phase) && Sound(s.runner.queue) ==>
                  Possible(s, Return) && var t := Act(s, Return); t.running == running && t.phase == phase
    {
      hide Step;
      running := false;
      phase := Idle;
    }

    // The cancel closure: a cancel is sent to the goroutine only if there is one at work to receive it.
    method RequestCancel() returns (sent: bool)
      requires Valid()
      ensures sent <==> phase != Idle
    {
      sent := running;
    }

    method SubmitAll(runner: SectionRunner, times: seq<int>, items: seq<Item>) returns (runIds: array<int>)
      requires Valid() && running && phase == Submitting([])
      requires runner.Valid() && |times| == |items| && Rising(runner.model.now, times)
      modifies runner, this`phase
      ensures runner.Valid() && runner.runs == old(runner.runs)
      ensures runner.model == SubmitEach(old(runner.model), times, items)
      ensures fresh(runIds) && runIds[..] == Sequential(old(runner.nextID), |items|)
      ensures Valid() && running && phase == Awaiting(Submitted(old(runner.nextID), items), 0)
    {
      hide Step, SubmitEach, Rising, IDsFresh, Ledger, Clocked, StaleOver, SectionRunner.Linked;
      runIds := new int[|items|];
      var i := 0;
      assert times[0..] == times && items[0..] == items;
      while i < |items|
        invariant 0 <= i <= |items|
        invariant runner.Valid() && runner.runs == old(runner.runs) && runner.nextID == old(runner.nextID) + i
        invariant Rising(runner.model.now, times[i..])
        invariant SubmitEach(runner.model, times[i..], items[i..]) == SubmitEach(old(runner.model), times, items)
        invariant forall k :: 0 <= k < i ==> runIds[k] == old(runner.nextID) + k
        invariant phase == Submitting(Submitted(old(runner.nextID), items[..i]))
      {
        SubmitEachStep(runner.model, times, items, i);
        SubmittedSnoc(old(runner.nextID), items, i);
        phase := Submitting(phase.batch + [RunFor(runner.nextID, items[i])]);
        runIds[i] := runner.Submit(times[i], items[i].sec, items[i].duration, true);
        i := i + 1;
      }
      SubmitEachNothing(runner.model, times, items);
      assert items[..i] == items;
      phase := Awaiting(phase.batch, 0);
    }

    // Waits for the runs in order, or cancels what is left.
    method Wait(runIds: array<int>, cancelAt: nat)
      requires Valid() && running && phase.Awaiting? && phase.i == 0 && runIds[..] == IDsOf(phase.batch)
      modifies this`phase, this`cancels
      ensures Valid() && running && Through(phase)
      ensures var batch := old(phase.batch);
              if cancelAt < |batch| then
                phase == Cancelling(batch, cancelAt, cancelAt)
                && cancels == old(cancels) + LastToFirst(IDsOf(batch), cancelAt)
              else phase == Awaiting(batch, |batch|) && cancels == old(cancels)
    {
      var i := 0;
      while i < runIds.Length
        invariant 0 <= i <= runIds.Length && i <= cancelAt && cancels == old(cancels)
        invariant phase == Awaiting(old(phase.batch), i)
      {
        if i == cancelAt {
          phase := Cancelling(phase.batch, i, runIds.Length);
          CancelFrom(runIds, i);
          return;
        }
        phase := Awaiting(phase.batch, i + 1);
        i := i + 1;
      }
    }

    // Cancels the runs from the last down to the i-th.
    method CancelFrom(runIds: array<int>, i: nat)
      requires Valid() && running && i <= runIds.Length
      requires phase.Cancelling? && phase.i == i && phase.j == runIds.Length && runIds[..] == IDsOf(phase.batch)
      modifies this`cancels, this`phase
      ensures Valid() && running && phase == old(phase).(j := i)
      ensures cancels == old(cancels) + LastToFirst(runIds[..], i)
    {
      hide LastToFirst, IDsOf;
      LastToFirstNothing(runIds[..]);
      var j := runIds.Length - 1;
      while j >= i
        invariant i - 1 <= j < runIds.Length
        invariant cancels == old(cancels) + LastToFirst(runIds[..], j + 1)
        invariant phase == old(phase).(j := j + 1)
      {
        cancels := cancels + [runIds[j]];
        phase := phase.(j := j);
        j := j - 1;
      }
    }
  }

  // ---- The loops, and the steps of ProgramSpec ----

  function SubmitRest(s: System, times: seq<int>): System
    requires s.phase.Submitting? && |s.phase.batch| + |times| == |s.items|
    requires Sound(s.runner.queue) && Rising(s.runner.now, times)
    decreases |times|
  {
    if times == [] then s else SubmitRest(Act(s, SubmitNext(times[0])), times[1..])
  }

  lemma SubmittedCons(first: nat, items: seq<Item>, batch: seq<Run>, mine: set<Run>)
    requires items != []
    ensures var n := Run(first, items[0].sec, items[0].duration, true);
            var later := Submitted(first + 1, items[1..]);
            && batch + Submitted(first, items) == batch + [n] + later
            && mine + Members(Submitted(first, items)) == mine + {n} + Members(later)
  {
    var n := Run(first, items[0].sec, items[0].duration, true);
    var later := Submitted(first + 1, items[1..]);
    assert Submitted(first, items) == [n] + later;
    assert Members([n] + later) == {n} + Members(later);
  }

  lemma SubmittedNothing(first: nat, batch: seq<Run>, mine: set<Run>)
    ensures batch + Submitted(first, []) == batch && mine + Members(Submitted(first, [])) == mine
  {
  }

  lemma SubmitEachFirst(s: State, times: seq<int>, items: seq<Item>)
    requires Sound(s.queue) && |times| == |items| && items != []
    ensures var t := Step(s, At(times[0], Submit(items[0].sec, items[0].duration, true)));
            Sound(t.queue) && SubmitEach(s, times, items) == SubmitEach(t, times[1..], items[1..])
  {
  }

  lemma SubmitNextIs(s: System, time: int)
    requires s.phase.Submitting? && |s.phase.batch| < |s.items| && Sound(s.runner.queue) && s.runner.now <= time
    ensures Possible(s, SubmitNext(time))
    ensures var item := s.items[|s.phase.batch|];
            var r := Step(s.runner, At(time, Submit(item.sec, item.duration, true)));
            var n := Run(s.runner.nextID, item.sec, item.duration, true);
            && Act(s, SubmitNext(time))
               == s.(runner := r, phase := Submitting(s.phase.batch + [n]), mine := s.mine + {n})
            && r.nextID == s.runner.nextID + 1 && r.now == time && Sound(r.queue)
  {
  }

  // The SubmitNext steps of ProgramSpec do to the runner exactly what the submit loop does, and the batch
  // gets the ids that the loop keeps.
  lemma {:induction false} SubmitRestIsSubmitLoop(s: System, times: seq<int>)
    requires s.phase.Submitting? && |s.phase.batch| + |times| == |s.items|
    requires Sound(s.runner.queue) && Rising(s.runner.now, times)
    ensures var rest := s.items[|s.phase.batch|..];
            var runs := Submitted(s.runner.nextID, rest);
            && SubmitRest(s, times) == s.(runner := SubmitEach(s.runner, times, rest),
                                          phase := Submitting(s.phase.batch + runs), mine := s.mine + Members(runs))
            && IDsOf(runs) == Sequential(s.runner.nextID, |rest|)
    decreases |times|
  {
    hide Step, SubmitEach, Act, Possible, Submitted, Members, IDsOf, Sequential;
    var rest := s.items[|s.phase.batch|..];
    SubmittedIDs(s.runner.nextID, rest);
    if times == [] {
      SubmitEachNothing(s.runner, times, rest);
      SubmittedNothing(s.runner.nextID, s.phase.batch, s.mine);
    } else {
      SubmitNextIs(s, times[0]);
      SubmitEachFirst(s.runner, times, rest);
      var t := Act(s, SubmitNext(times[0]));
      SubmitRestIsSubmitLoop(t, times[1..]);
      assert t.items[|t.phase.batch|..] == rest[1..];
      SubmittedCons(s.runner.nextID, rest, s.phase.batch, s.mine);
    }
  }

  // The SendCancel steps of ProgramSpec put on the wire exactly what the cancel loop sends.
  function SendRest(s: System): System
    requires s.phase.Cancelling? && s.phase.i <= s.phase.j <= |s.phase.batch| && Sound(s.runner.queue)
    decreases if s.phase.Cancelling? then s.phase.j else 0
  {
    if s.phase.i == s.phase.j then s else SendRest(Act(s, SendCancel))
  }

  lemma LastToFirstStep(b: seq<Run>, i: nat, j: nat)
    requires i < j <= |b|
    ensures LastToFirst(IDsOf(b[..j]), i) == [b[j - 1].id] + LastToFirst(IDsOf(b[..j - 1]), i)
  {
  }

  lemma SendCancelIs(s: System)
    requires s.phase.Cancelling? && s.phase.i < s.phase.j <= |s.phase.batch| && Sound(s.runner.queue)
    ensures Possible(s, SendCancel)
    ensures Act(s, SendCancel)
            == s.(phase := s.phase.(j := s.phase.j - 1), wire := s.wire + [s.phase.batch[s.phase.j - 1].id])
  {
  }

  lemma {:induction false} SendRestIsCancelLoop(s: System)
    requires s.phase.Cancelling? && s.phase.i <= s.phase.j <= |s.phase.batch| && Sound(s.runner.queue)
    ensures var b, j := s.phase.batch, s.phase.j;
            SendRest(s) == s.(phase := Cancelling(b, s.phase.i, s.phase.i),
                              wire := s.wire + LastToFirst(IDsOf(b[..j]), s.phase.i))
    decreases s.phase.j
  {
    hide Step, LastToFirst, Act, Possible, IDsOf;
    var b, i, j := s.phase.batch, s.phase.i, s.phase.j;
    if i < j {
      SendCancelIs(s);
      SendRestIsCancelLoop(Act(s, SendCancel));
      LastToFirstStep(b, i, j);
      assert s.wire + [b[j - 1].id] + LastToFirst(IDsOf(b[..j - 1]), i) == s.wire + LastToFirst(IDsOf(b[..j]), i);
    } else {
      LastToFirstNothing(IDsOf(b[..j]));
    }
  }
}
