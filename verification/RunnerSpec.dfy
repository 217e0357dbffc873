// The section runner as a state machine: one step per select case, each under the state lock.

module RunnerSpec {
  import opened Wrappers
  import opened Runs
  import opened RingSpec

  const SR_ID_ALL: int := -1
  const INITIAL_CAPACITY: nat := 10

  // The current run with the fields that are updated in place.
  datatype Active = Active(run: Run, duration: int,
                           startTime: Option<int>, pauseTime: Option<int>, unpauseTime: Option<int>)

  // A value sent on a run's Done channel, and also the way a started run ended.
  datatype Outcome = Outcome(run: Run, cancelled: bool)

  // History.  `dropped` are the runs cancelled while queued; `stale` the runs that a bulk removal found in
  // the slot at tail; `signals` everything sent on Done channels, in order.
  datatype Log = Log(arrived: seq<Run>, started: seq<Run>, ended: seq<Outcome>,
                     dropped: seq<Run>, stale: seq<Run>, signals: seq<Outcome>)

  // `pending` are the runs with an id that have not yet been received from the run channel; `delay` is the
  // instant at which the timer becomes due; `outputs` the hardware outputs that are on.
  datatype State = State(now: int, nextID: nat, pending: set<Run>,
                         queue: Ring, current: Option<Active>, paused: bool,
                         delay: Option<int>, outputs: set<nat>, log: Log)

  datatype Event =
    | Submit(sec: Section, total: int, notify: bool)
    | Receive(run: Run)
    | CancelSection(section: Section)
    | CancelID(id: int)
    | SetPaused(on: bool)
    | Timer

  datatype Stamped = At(time: int, event: Event)

  function Init(now: int): State {
    State(now, 0, {}, Empty(INITIAL_CAPACITY), None, false, None, {}, Log([], [], [], [], [], []))
  }

  function Queued(s: State): seq<Run> {
    Live(s.queue.window)
  }

  function CurrentRun(s: State): seq<Run> {
    if s.current.Some? then [s.current.value.run] else []
  }

  // ---- The pieces of a step ----

  function Fresh(r: Run): Active {
    Active(r, r.total, None, None, None)
  }

  // Switches the current run's output on and arms the timer, unless paused.
  function RunItem(s: State): State {
    match s.current
    case None => s
    case Some(a) =>
      var started := s.(log := s.log.(started := s.log.started + [a.run]));
      if s.paused then
        started.(delay := None, current := Some(a.(startTime := Some(s.now), pauseTime := Some(s.now))))
      else
        started.(current := Some(a.(startTime := Some(s.now))),
                 outputs := s.outputs + {a.run.sec.interfaceID},
                 delay := Some(s.now + a.duration))
  }

  function TakeNext(s: State): State {
    var (x, q) := Pop(s.queue);
    s.(queue := q, current := if x.Some? then Some(Fresh(x.value)) else None)
  }

  function Promote(s: State): State {
    RunItem(TakeNext(s))
  }

  function NotifyOne(o: Outcome): seq<Outcome> {
    if o.run.notify then [o] else []
  }

  function NotifyAll(rs: seq<Run>): seq<Outcome> {
    if rs == [] then [] else NotifyOne(Outcome(rs[0], true)) + NotifyAll(rs[1..])
  }

  function EndCurrent(s: State, cancelled: bool): State
    requires s.current.Some?
  {
    var o := Outcome(s.current.value.run, cancelled);
    s.(outputs := s.outputs - {o.run.sec.interfaceID}, delay := None, current := None,
       log := s.log.(ended := s.log.ended + [o], signals := s.log.signals + NotifyOne(o)))
  }

  // finishRun.
  function FinishRun(s: State, cancelled: bool): State
    requires s.current.Some?
  {
    TakeNext(EndCurrent(s, cancelled))
  }

  function Advance(s: State, cancelled: bool): State
    requires s.current.Some?
  {
    RunItem(FinishRun(s, cancelled))
  }

  function CancelQueued(s: State, which: Which): State
    requires Sound(s.queue)
  {
    s.(queue := BulkRemove(s.queue, which),
       log := s.log.(dropped := s.log.dropped + Hit(Queued(s), which),
                     stale := s.log.stale + StaleHit(s.queue, which),
                     signals := s.log.signals + NotifyAll(BulkRemoved(s.queue, which))))
  }

  function CancelQueuedID(s: State, id: int): State {
    var x := IdRemoved(s.queue, id);
    s.(queue := IdRemove(s.queue, id),
       log := s.log.(dropped := s.log.dropped + Shown(x), signals := s.log.signals + NotifyAll(Shown(x))))
  }

  // The queue is purged before the current run is ended, so that the next run is the first survivor.
  function CancelMany(s: State, which: Which): State
    requires Sound(s.queue)
  {
    var t := CancelQueued(s, which);
    if t.current.Some? && Hits(which, t.current.value.run) then Advance(t, true) else t
  }

  function CancelOne(s: State, id: int): State {
    var t := CancelQueuedID(s, id);
    if t.current.Some? && t.current.value.run.id == id then Advance(t, true) else t
  }

  function Arrived(s: State, r: Run): State {
    s.(pending := s.pending - {r}, log := s.log.(arrived := s.log.arrived + [r]))
  }

  function Accept(s: State, r: Run): State
    requires Sound(s.queue)
  {
    var t := Arrived(s, r);
    if s.current.None? && !s.paused then RunItem(t.(current := Some(Fresh(r))))
    else t.(queue := Push(t.queue, Some(r)))
  }

  // When the current run was last switched on.
  function SwitchedOn(a: Active): Option<int> {
    if a.unpauseTime.Some? then a.unpauseTime else a.startTime
  }

  function Pause(s: State): State {
    match s.current
    case None => s.(paused := true)
    case Some(a) =>
      var alreadyRunFor := match SwitchedOn(a) case Some(t) => s.now - t case None => 0;
      s.(paused := true, delay := None, outputs := s.outputs - {a.run.sec.interfaceID},
         current := Some(a.(pauseTime := Some(s.now), duration := a.duration - alreadyRunFor)))
  }

  function Unpause(s: State): State {
    match s.current
    case None => Promote(s.(paused := false))
    case Some(a) =>
      s.(paused := false, delay := Some(s.now + a.duration), outputs := s.outputs + {a.run.sec.interfaceID},
         current := Some(a.(pauseTime := None, unpauseTime := Some(s.now))))
  }

  function ChangePaused(s: State, on: bool): State {
    if s.paused == on then s else if on then Pause(s) else Unpause(s)
  }

  // ---- The step ----

  // A run is received only once, after it was submitted; the timer fires when due or later; time does not
  // go back.
  predicate Enabled(s: State, e: Stamped) {
    && s.now <= e.time
    && (e.event.Receive? ==> e.event.run in s.pending)
    && (e.event.Timer? ==> s.delay.Some? && s.delay.value <= e.time)
  }

  // The bulk removal that an event performs, if any.
  function BulkOf(e: Event): Option<Which> {
    match e
    case CancelSection(sec) => Some(OfSection(sec))
    case CancelID(id) => if id == SR_ID_ALL then Some(Every) else None
    case _ => None
  }

  function Step(s0: State, e: Stamped): State
    requires Sound(s0.queue)
  {
    var s := s0.(now := e.time);
    match e.event
    case Submit(sec, total, notify) =>
      s.(nextID := s.nextID + 1, pending := s.pending + {Run(s.nextID, sec, total, notify)})
    case Receive(r) => Accept(s, r)
    case CancelSection(sec) => CancelMany(s, OfSection(sec))
    case CancelID(id) => if id == SR_ID_ALL then CancelMany(s, Every) else CancelOne(s, id)
    case SetPaused(on) => ChangePaused(s, on)
    case Timer => if s.current.Some? then Advance(s, false) else s
  }

  // ---- Executions ----

  ghost predicate Transition(s: State, e: Stamped, t: State) {
    Sound(s.queue) && Enabled(s, e) && t == Step(s, e)
  }

  // ss are the states before, between and after the events es.
  ghost predicate Execution(ss: seq<State>, es: seq<Stamped>) {
    && |ss| == |es| + 1
    && ss[0] == Init(ss[0].now)
    && forall i :: 0 <= i < |es| ==> Transition(ss[i], es[i], ss[i + 1])
  }
}
