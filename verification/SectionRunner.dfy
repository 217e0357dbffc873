// SectionRunner: the event loop's state, updated in place, one method per select case.

module SectionRunners {
  import opened Wrappers
  import opened Runs
  import opened RingSpec
  import opened SRQueues
  import opened RunnerSpec
  import opened RunnerInvariant

  function ActiveOf(p: SectionRun?): Option<Active>
    reads p
  {
    if p == null then None else Some(CopyOf(p))
  }

  // ---- What the methods need to know about the model ----

  // Pop hands out runs whose fields are as NewSectionRun left them.
  ghost predicate QueueUnstarted(s: State) {
    Sound(s.queue) && forall r :: r in Queued(s) ==> r !in s.log.started
  }

  lemma NotifyAllOne(r: Run)
    ensures NotifyAll([r]) == NotifyOne(Outcome(r, true))
  {
    assert NotifyAll([r]) == NotifyOne(Outcome(r, true)) + NotifyAll([]);
  }

  // The dereferences of pause never meet nil.
  ghost predicate CurrentStarted(s: State) {
    s.current.Some? ==> s.current.value.startTime.Some? && s.current.value.run in s.log.started
  }

  lemma CoreUnstarted(s: State)
    requires Core(s)
    ensures QueueUnstarted(s) && CurrentStarted(s)
  {
    forall r | r in Queued(s) ensures r !in s.log.started {
      QueuedIsWaiting(s.log, Queued(s), CurrentRun(s), r);
    }
  }

  lemma InvUnstarted(s: State)
    requires Inv(s)
    ensures QueueUnstarted(s) && CurrentStarted(s)
  {
    CoreUnstarted(s);
  }

  lemma BulkUnstarted(s: State, now: int, which: Which)
    requires Inv(s) && s.now <= now
    ensures QueueUnstarted(CancelQueued(s.(now := now), which))
  {
    TickKeeps(s, now);
    CancelQueuedKeeps(s.(now := now), which);
    CoreUnstarted(CancelQueued(s.(now := now), which));
  }

  lemma IDUnstarted(s: State, now: int, id: int)
    requires Inv(s) && s.now <= now
    ensures QueueUnstarted(CancelQueuedID(s.(now := now), id))
  {
    TickKeeps(s, now);
    CancelQueuedIDKeeps(s.(now := now), id);
    CoreUnstarted(CancelQueuedID(s.(now := now), id));
  }

  // The timer case never meets nil.
  lemma TimerHasCurrent(s: State, now: int)
    requires Inv(s) && Enabled(s, At(now, Timer))
    ensures s.current.Some?
  {
  }

  lemma PendingIsNew(s: State, r: Run)
    requires Inv(s) && r in s.pending
    ensures r !in s.log.arrived && r !in s.log.started
  {
    Accounts(s.log, Queued(s), CurrentRun(s));
    assert r in s.log.started ==> r in s.log.started + Queued(s);
  }

  class SectionRunner {
    const queue: SRQueue
    var current: SectionRun?
    var paused: bool
    var delay: Option<int>        // when the timer is due
    var outputs: set<nat>         // the section interface
    var signals: seq<Outcome>     // what has been sent on Done channels
    var nextID: nat
    ghost var model: State
    ghost var runs: set<SectionRun>  // every run received,
    ghost var objects: map<Run, SectionRun>  // and the one object that stands for it

    // The fields are what the model says, and queued runs are as NewSectionRun left them.
    ghost predicate Linked()
      reads this, queue, queue.items, runs
    {
      && queue.Valid()
      && (current != null ==> current in runs)
      && (forall p :: p in queue.items[..] && p != null ==> p in runs)
      && (forall p :: p in runs ==> p.info in model.log.arrived && p.info in objects && objects[p.info] == p)
      && (forall p :: p in runs && p.info !in model.log.started ==> p.Untouched())
      && model.queue == queue.Abs()
      && model.current == ActiveOf(current)
      && model.paused == paused && model.delay == delay && model.outputs == outputs
      && model.nextID == nextID && model.log.signals == signals
    }

    ghost predicate Valid()
      reads this, queue, queue.items, runs
    {
      Linked() && Inv(model)
    }

    constructor (ghost now: int)
      ensures Valid() && fresh(queue) && fresh(queue.items) && fresh(runs)
      ensures model == Init(now)
    {
      queue := new SRQueue(INITIAL_CAPACITY);
      current, paused, delay, outputs, signals, nextID := null, false, None, {}, [], 0;
      model, runs, objects := Init(now), {}, map[];
    }

    // Switches the current run on, unless paused.
    method RunItem(now: int)
      requires Linked() && model.now == now
      requires current != null ==> current.info !in model.log.started
      modifies this, runs
      ensures Linked() && runs == old(runs) && queue.items == old(queue.items)
      ensures model == RunnerSpec.RunItem(old(model))
    {
      hide View;
      model := RunnerSpec.RunItem(model);
      if current == null {
        return;
      }
      current.startTime := Some(now);
      if paused {
        delay := None;
        current.pauseTime := Some(now);
      } else {
        outputs := outputs + {current.info.sec.interfaceID};
        delay := Some(now + current.duration);
      }
    }

    // Makes the next run in the queue current, or none.
    method TakeNext()
      requires Linked() && QueueUnstarted(model)
      modifies this, queue
      ensures Linked() && runs == old(runs) && queue.items == old(queue.items)
      ensures model == RunnerSpec.TakeNext(old(model))
      ensures current != null ==> current.info !in model.log.started
    {
      hide View;
      PopTakesFirst(model.queue);
      model := RunnerSpec.TakeNext(model);
      current := queue.Pop();
    }

    // Tells the run's Done channel, if it has one, how the run ended.
    method Signal(r: Run, cancelled: bool)
      modifies this`signals
      ensures signals == old(signals) + NotifyOne(Outcome(r, cancelled))
    {
      if r.notify {
        signals := signals + [Outcome(r, cancelled)];
      }
    }

    // Ends the current run and takes the next.
    method FinishRun(cancelled: bool)
      requires Linked() && QueueUnstarted(model) && current != null
      modifies this, queue
      ensures Linked() && runs == old(runs) && queue.items == old(queue.items)
      ensures model == RunnerSpec.FinishRun(old(model), cancelled)
      ensures current != null ==> current.info !in model.log.started
    {
      StopCurrent(cancelled);
      TakeNext();
    }

    method StopCurrent(cancelled: bool)
      requires Linked() && current != null
      modifies this
      ensures Linked() && runs == old(runs) && queue.items == old(queue.items)
      ensures model == EndCurrent(old(model), cancelled)
    {
      model := EndCurrent(model, cancelled);
      outputs := outputs - {current.info.sec.interfaceID};
      delay := None;
      Signal(current.info, cancelled);
      current := null;
    }

    method Advance(now: int, cancelled: bool)
      requires Linked() && QueueUnstarted(model) && current != null
      modifies this, queue, runs
      ensures Linked() && runs == old(runs) && queue.items == old(queue.items)
      ensures model == RunnerSpec.Advance(old(model).(now := now), cancelled)
    {
      model := model.(now := now);
      FinishRun(cancelled);
      RunItem(now);
    }

    // Tells every run taken from the queue that it was cancelled.
    method SignalAll(removed: seq<SectionRun>)
      modifies this`signals
      ensures signals == old(signals) + NotifyAll(InfosOf(removed))
    {
      ghost var infos := InfosOf(removed);
      for i := 0 to |removed|
        invariant signals + NotifyAll(infos[i..]) == old(signals) + NotifyAll(infos)
      {
        assert infos[i..][1..] == infos[i + 1..];
        Signal(removed[i].info, true);
      }
    }

    // ---- The select cases ----

    // Gives the run the next id and sends it on its way.
    method Submit(now: int, sec: Section, total: int, notify: bool) returns (id: int)
      requires Valid() && model.now <= now
      modifies this
      ensures Valid() && runs == old(runs)
      ensures model == Step(old(model), At(now, RunnerSpec.Submit(sec, total, notify)))
      ensures id == old(nextID) && nextID == old(nextID) + 1
    {
      hide Inv;
      StepKeeps(model, At(now, RunnerSpec.Submit(sec, total, notify)));
      model := Step(model, At(now, RunnerSpec.Submit(sec, total, notify)));
      id := nextID;
      nextID := nextID + 1;
    }

    // A run comes in: it becomes current if the runner is free, and is queued otherwise.
    method Receive(now: int, info: Run)
      requires Valid() && Enabled(model, At(now, RunnerSpec.Receive(info)))
      modifies this, queue, queue.items, runs
      ensures Valid() && fresh(runs - old(runs)) && (queue.items == old(queue.items) || fresh(queue.items))
      ensures model == Step(old(model), At(now, RunnerSpec.Receive(info)))
    {
      hide Inv;
      StepKeeps(model, At(now, RunnerSpec.Receive(info)));
      PendingIsNew(model, info);
      Accept(now, info);
    }

    method Accept(now: int, info: Run)
      requires Linked() && info !in model.log.arrived && info !in model.log.started
      modifies this, queue, queue.items, runs
      ensures Linked() && fresh(runs - old(runs)) && (queue.items == old(queue.items) || fresh(queue.items))
      ensures model == RunnerSpec.Accept(old(model).(now := now), info)
    {
      var item := Arrive(now, info);
      if current == null && !paused {
        current := item;
        model := model.(current := Some(Fresh(info)));
        RunItem(now);
      } else {
        Enqueue(item);
      }
    }

    method Arrive(now: int, info: Run) returns (item: SectionRun)
      requires Linked() && info !in model.log.arrived
      modifies this
      ensures Linked() && fresh(item) && runs == old(runs) + {item}
      ensures item.info == info && item.Untouched()
      ensures model == Arrived(old(model).(now := now), info) && current == old(current) && paused == old(paused)
    {
      item := new SectionRun(info);
      model := Arrived(model.(now := now), info);
      runs, objects := runs + {item}, objects[info := item];
    }

    method Enqueue(item: SectionRun)
      requires Linked() && item in runs
      modifies this, queue, queue.items
      ensures Linked() && runs == old(runs) && (queue.items == old(queue.items) || fresh(queue.items))
      ensures model == old(model).(queue := Push(old(model).queue, Some(item.info)))
    {
      model := model.(queue := Push(model.queue, Some(item.info)));
      queue.Push(item);
    }

    // Cancels all matching runs, the queued ones first: by section, or by the id that stands for all.
    method CancelMany(now: int, which: Which)
      requires Linked() && QueueUnstarted(CancelQueued(model.(now := now), which))
      modifies this, queue, queue.items, runs
      ensures Linked() && runs == old(runs) && queue.items == old(queue.items)
      ensures model == RunnerSpec.CancelMany(old(model).(now := now), which)
    {
      model := model.(now := now);
      PurgeBulk(which);
      if current != null && Hits(which, current.info) {
        Advance(now, true);
      }
    }

    method PurgeBulk(which: Which)
      requires Linked()
      modifies this, queue.items
      ensures Linked() && runs == old(runs) && current == old(current) && model == CancelQueued(old(model), which)
    {
      hide RingSpec.Clear, BulkRemove, View;
      model := CancelQueued(model, which);
      var fromQueue := queue.RemoveBulk(which);
      SignalAll(fromQueue);
    }

    method CancelSection(now: int, sec: Section)
      requires Valid() && model.now <= now
      modifies this, queue, queue.items, runs
      ensures Valid() && runs == old(runs) && queue.items == old(queue.items)
      ensures model == Step(old(model), At(now, RunnerSpec.CancelSection(sec)))
    {
      hide Inv;
      StepKeeps(model, At(now, RunnerSpec.CancelSection(sec)));
      BulkUnstarted(model, now, OfSection(sec));
      CancelMany(now, OfSection(sec));
    }

    // Cancels the run with the given id, or every run.
    method CancelID(now: int, id: int)
      requires Valid() && model.now <= now
      modifies this, queue, queue.items, runs
      ensures Valid() && runs == old(runs) && queue.items == old(queue.items)
      ensures model == Step(old(model), At(now, RunnerSpec.CancelID(id)))
    {
      hide Inv;
      StepKeeps(model, At(now, RunnerSpec.CancelID(id)));
      if id == SR_ID_ALL {
        BulkUnstarted(model, now, Every);
        CancelMany(now, Every);
      } else {
        IDUnstarted(model, now, id);
        CancelOne(now, id);
      }
    }

    method CancelOne(now: int, id: int)
      requires Linked() && QueueUnstarted(CancelQueuedID(model.(now := now), id))
      modifies this, queue, queue.items, runs
      ensures Linked() && runs == old(runs) && queue.items == old(queue.items)
      ensures model == RunnerSpec.CancelOne(old(model).(now := now), id)
    {
      model := model.(now := now);
      PurgeOne(id);
      if current != null && current.info.id == id {
        Advance(now, true);
      }
    }

    method PurgeOne(id: int)
      requires Linked()
      modifies this, queue.items
      ensures Linked() && runs == old(runs) && current == old(current) && model == CancelQueuedID(old(model), id)
    {
      hide IndexOfId, IdRemove, Live, View;
      model := CancelQueuedID(model, id);
      var fromQueue := queue.RemoveByID(id);
      if fromQueue != null {
        NotifyAllOne(fromQueue.info);
        Signal(fromQueue.info, true);
      }
    }

    // Pauses or resumes.
    method SetPaused(now: int, on: bool)
      requires Valid() && model.now <= now
      modifies this, queue, runs
      ensures Valid() && runs == old(runs)
      ensures model == Step(old(model), At(now, RunnerSpec.SetPaused(on)))
    {
      hide Inv;
      StepKeeps(model, At(now, RunnerSpec.SetPaused(on)));
      InvUnstarted(model);
      ChangePaused(now, on);
    }

    method ChangePaused(now: int, on: bool)
      requires Linked() && CurrentStarted(model) && QueueUnstarted(model)
      modifies this, queue, runs
      ensures Linked() && runs == old(runs)
      ensures model == RunnerSpec.ChangePaused(old(model).(now := now), on)
    {
      if paused == on {
        model := model.(now := now);
      } else if on {
        PauseCurrent(now);
      } else {
        Resume(now);
      }
    }

    method PauseCurrent(now: int)
      requires Linked() && CurrentStarted(model)
      modifies this, runs
      ensures Linked() && runs == old(runs) && model == Pause(old(model).(now := now))
    {
      hide View;
      model := Pause(model.(now := now));
      if current != null {
        var switchedOn := if current.unpauseTime.Some? then current.unpauseTime else current.startTime;
        var alreadyRunFor := now - switchedOn.value;
        outputs := outputs - {current.info.sec.interfaceID};
        current.pauseTime := Some(now);
        current.duration := current.duration - alreadyRunFor;
        delay := None;
      }
      paused := true;
    }

    method Resume(now: int)
      requires Linked() && CurrentStarted(model) && QueueUnstarted(model)
      modifies this, queue, runs
      ensures Linked() && runs == old(runs) && model == Unpause(old(model).(now := now))
    {
      hide View;
      if current != null {
        ResumeCurrent(now);
      } else {
        paused := false;
        model := model.(now := now, paused := false);
        TakeNext();
        RunItem(now);
      }
    }

    method ResumeCurrent(now: int)
      requires Linked() && CurrentStarted(model) && current != null
      modifies this, runs
      ensures Linked() && runs == old(runs) && model == Unpause(old(model).(now := now))
    {
      hide View;
      assert current.info in model.log.started;
      paused := false;
      delay := Some(now + current.duration);
      current.pauseTime := None;
      current.unpauseTime := Some(now);
      outputs := outputs + {current.info.sec.interfaceID};
      model := Unpause(model.(now := now));
    }

    // The timer says that the current run has had its time.
    method TimerFired(now: int)
      requires Valid() && Enabled(model, At(now, Timer))
      modifies this, queue, runs
      ensures Valid() && runs == old(runs)
      ensures model == Step(old(model), At(now, Timer))
    {
      hide Inv;
      StepKeeps(model, At(now, Timer));
      InvUnstarted(model);
      TimerHasCurrent(model, now);
      Advance(now, false);
    }
  }
}
