// Why a program cancels from last to first: its own cancels then never start one of its runs.

module ProgramOrder {
  import opened Runs
  import opened RingSpec
  import opened RunnerSpec
  import opened RunLists
  import opened RunnerInvariant
  import opened RunnerHistory
  import opened RunnerLine
  import opened ProgramSpec
  import opened ProgramBarrier

  // The program's runs among s have increasing ids.
  ghost predicate MineIncrease(s: seq<Run>, mine: set<Run>) {
    forall p, q :: 0 <= p < q < |s| && s[p] in mine && s[q] in mine ==> s[p].id < s[q].id
  }

  // They arrive in the order they were submitted.
  ghost predicate ArriveInOrder(s: System) {
    && MineIncrease(s.runner.log.arrived, s.mine)
    && forall a, p :: a in s.runner.log.arrived && a in s.mine && p in s.runner.pending && p in s.mine ==> a.id < p.id
  }

  // On the wire, the cancels of one batch come in decreasing order.
  ghost predicate WireDecreases(wire: seq<int>, b: seq<Run>) {
    forall p, q, x, y ::
      (0 <= p < q < |wire| && 0 <= x < |b| && 0 <= y < |b| && wire[p] == b[x].id && wire[q] == b[y].id)
      ==> y < x
  }

  function Current(s: System): seq<Run> {
    match s.phase
    case Idle => []
    case Submitting(b) => b
    case Awaiting(b, _) => b
    case Cancelling(b, _, _) => b
  }

  // The cancels of Current(s)[SentFrom(s)..] have been sent.
  function SentFrom(s: System): nat {
    if s.phase.Cancelling? then s.phase.j else |Current(s)|
  }

  ghost predicate WireHolds(s: System) {
    && (forall k :: 0 <= k < |s.wire| ==> s.wire[k] < s.runner.nextID)
    && (forall r :: r in s.overtaken ==> r.id < s.runner.nextID)
    && (forall b :: b in s.retired ==> WireDecreases(s.wire, b))
    && WireDecreases(s.wire, Current(s))
    && SentFrom(s) <= |Current(s)|
    && (forall x :: 0 <= x < SentFrom(s) ==> Current(s)[x].id !in s.wire && Current(s)[x] !in s.overtaken)
    && (forall b: seq<Run>, x, y ::
          b in s.retired && 0 <= x < |b| && 0 <= y < |Current(s)| ==> b[x].id < Current(s)[y].id)
  }

  ghost predicate OrderInv(s: System) {
    SysInv(s) && ArriveInOrder(s) && WireHolds(s)
  }

  // ---- Arrival order ----

  lemma IDsApart(s: State)
    requires Inv(s)
    ensures forall p, q :: p in s.pending && q in s.pending && p.id == q.id ==> p == q
    ensures forall a :: a in s.log.arrived ==> a.id < s.nextID && a !in s.pending
    ensures forall p :: p in s.pending ==> p.id < s.nextID
  {
  }

  lemma ArriveInOrderKeeps(s: System, a: Action)
    requires SysInv(s) && ArriveInOrder(s) && Possible(s, a) && Sound(s.runner.queue)
    ensures ArriveInOrder(Act(s, a))
  {
    hide Inv, Step, PhaseHolds, RetiredSettled;
    var t := Act(s, a);
    MineBelow(s);
    IDsApart(s.runner);
    var e := RunnerEvent(s, a);
    if e.Some? { PendingMoves(s.runner, e.value); }
  }

  lemma {:induction false} MineIncreaseWithout(s: seq<Run>, mine: set<Run>, d: set<Run>)
    requires MineIncrease(s, mine)
    ensures MineIncrease(Without(s, d), mine)
  {
    if s != [] {
      MineIncreaseWithout(s[1..], mine, d);
      forall r | r in Without(s[1..], d) && r in mine && s[0] in mine ensures s[0].id < r.id {
        WithoutHas(s[1..], d, r);
      }
    }
  }

  lemma MineIncreaseDrop(s: seq<Run>, mine: set<Run>, n: nat)
    requires MineIncrease(s, mine) && n <= |s|
    ensures MineIncrease(s[n..], mine)
  {
  }

  // So the program's runs wait in the order they were submitted.
  lemma LineInOrder(s: System)
    requires OrderInv(s)
    ensures MineIncrease(CurrentRun(s.runner) + Queued(s.runner), s.mine)
  {
    hide WireHolds, PhaseHolds, RetiredSettled, MineIncrease;
    var log := s.runner.log;
    MineIncreaseWithout(log.arrived, s.mine, Members(log.dropped));
    MineIncreaseDrop(log.started + Queued(s.runner), s.mine, |log.ended|);
    assert CurrentRun(s.runner) + Queued(s.runner) == (log.started + Queued(s.runner))[|log.ended|..];
  }

  // ---- The wire ----

  lemma NextIDGrows(s: State, e: Stamped)
    requires Sound(s.queue) && Enabled(s, e)
    ensures Step(s, e).nextID == if e.event.Submit? then s.nextID + 1 else s.nextID
  {
  }

  lemma WireOther(s: System, a: Action)
    requires SysInv(s) && WireHolds(s) && Possible(s, a) && Sound(s.runner.queue) && a.Other?
    ensures WireHolds(Act(s, a))
  {
    hide Inv, PhaseHolds, RetiredSettled, WireDecreases;
    NextIDGrows(s.runner, a.event);
  }

  lemma WireSkips(wire: seq<int>, b: seq<Run>, n: Run)
    requires WireDecreases(wire, b) && n.id !in wire
    ensures WireDecreases(wire, b + [n])
  {
  }

  lemma RetiredMine(s: System, b: seq<Run>, x: nat)
    requires SysInv(s) && b in s.retired && x < |b|
    ensures b[x] in s.mine && b[x].id < s.runner.nextID
  {
    MineBelow(s);
  }

  lemma WireSubmit(s: System, a: Action)
    requires SysInv(s) && WireHolds(s) && Possible(s, a) && Sound(s.runner.queue) && a.SubmitNext?
    ensures WireHolds(Act(s, a))
  {
    hide Inv, Step, SysInv, WireDecreases;
    var t := Act(s, a);
    var n := NextRun(s);
    NextIDGrows(s.runner, RunnerEvent(s, a).value);
    assert forall r :: r in s.overtaken ==> r != n;
    forall b: seq<Run>, x | b in s.retired && 0 <= x < |b| ensures b[x].id < n.id {
      RetiredMine(s, b, x);
    }
    WireSkips(s.wire, s.phase.batch, n);
    assert Current(t) == Current(s) + [n];
  }

  // A cancel may follow when it is for a run before all those of the batch that are on the wire.
  lemma WireAppend(wire: seq<int>, b: seq<Run>, id: int, y: nat)
    requires WireDecreases(wire, b)
    requires forall x :: 0 <= x < |b| && b[x].id == id ==> x == y
    requires forall x :: 0 <= x <= y && x < |b| && y < |b| ==> b[x].id !in wire
    ensures WireDecreases(wire + [id], b)
  {
  }

  lemma WireSend(s: System, a: Action)
    requires SysInv(s) && WireHolds(s) && Possible(s, a) && Sound(s.runner.queue) && a.SendCancel?
    ensures WireHolds(Act(s, a))
  {
    hide Inv, RetiredSettled, Settled, Over, WireDecreases;
    var t := Act(s, a);
    var b, j := s.phase.batch, s.phase.j;
    MineBelow(s);
    assert forall x :: 0 <= x < j - 1 ==> b[x].id < b[j - 1].id;
    forall c: seq<Run> | c in s.retired ensures WireDecreases(t.wire, c) {
      WireAppend(s.wire, c, b[j - 1].id, |c|);
    }
    WireAppend(s.wire, b, b[j - 1].id, j - 1);
  }

  lemma WireTail(wire: seq<int>, b: seq<Run>)
    requires wire != [] && WireDecreases(wire, b)
    ensures WireDecreases(wire[1..], b)
  {
    forall p, q, x, y | 0 <= p < q < |wire| - 1 && 0 <= x < |b| && 0 <= y < |b|
      && wire[1..][p] == b[x].id && wire[1..][q] == b[y].id
      ensures y < x
    {
      assert wire[p + 1] == b[x].id && wire[q + 1] == b[y].id;
    }
  }

  lemma WireDeliver(s: System, a: Action)
    requires SysInv(s) && WireHolds(s) && Possible(s, a) && Sound(s.runner.queue) && a.Deliver?
    ensures WireHolds(Act(s, a))
  {
    hide Inv, Step, PhaseHolds, RetiredSettled, WireDecreases;
    var t := Act(s, a);
    NextIDGrows(s.runner, RunnerEvent(s, a).value);
    IDsApart(s.runner);
    assert s.wire == [s.wire[0]] + t.wire;
    forall b | WireDecreases(s.wire, b) ensures WireDecreases(t.wire, b) {
      WireTail(s.wire, b);
    }
    assert WireDecreases(t.wire, Current(t));
  }

  lemma EmptyDecreases(wire: seq<int>)
    ensures WireDecreases(wire, [])
  {
  }

  lemma WireLocal(s: System, a: Action)
    requires SysInv(s) && WireHolds(s) && Possible(s, a) && Sound(s.runner.queue)
    requires a.Launch? || a.AwaitNext? || a.CancelRequest? || a.Return?
    ensures WireHolds(Act(s, a))
  {
    hide Inv, RetiredSettled, WireDecreases, Settled, Over;
    var t := Act(s, a);
    assert WireDecreases(s.wire, []) by { EmptyDecreases(s.wire); }
  }

  lemma WireKeeps(s: System, a: Action)
    requires SysInv(s) && WireHolds(s) && Possible(s, a) && Sound(s.runner.queue)
    ensures WireHolds(Act(s, a))
  {
    hide SysInv, WireHolds;
    match a
    case Other(_) => WireOther(s, a);
    case SubmitNext(_) => WireSubmit(s, a);
    case SendCancel => WireSend(s, a);
    case Deliver(_) => WireDeliver(s, a);
    case _ => WireLocal(s, a);
  }

  lemma MoveKeepsOrder(s: System, a: Action, t: System)
    requires OrderInv(s) && Move(s, a, t)
    ensures ArriveInOrder(t) && WireHolds(t)
  {
    WireKeeps(s, a);
    ArriveInOrderKeeps(s, a);
  }

  lemma {:induction false} OrderReachable(ss: seq<System>, acts: seq<Action>, n: nat)
    requires History(ss, acts) && n <= |acts|
    ensures OrderInv(ss[n])
  {
    hide SysInv;
    SystemReachable(ss, acts, n);
    if n > 0 {
      OrderReachable(ss, acts, n - 1);
      assert Move(ss[n - 1], acts[n - 1], ss[n - 1 + 1]);
      MoveKeepsOrder(ss[n - 1], acts[n - 1], ss[n]);
    }
  }

  // ---- Own cancels ----

  lemma FirstInLine(s: State, r: Run)
    requires Inv(s) && s.current.Some? && r !in s.log.started
    ensures s.current.value.run in s.log.arrived && s.current.value.run != r
  {
    Accounts(s.log, Queued(s), CurrentRun(s));
    var c := s.current.value.run;
    assert c in s.log.started;
    assert c in s.log.started + Queued(s);
  }

  lemma BatchFacts(s: System, batch: seq<Run>, j: nat)
    requires OrderInv(s) && (batch in s.retired || batch == Current(s)) && j < |batch|
    ensures BatchKnown(s, batch) && WireDecreases(s.wire, batch)
    ensures batch[j].id in s.wire ==> forall k :: j < k < |batch| ==> Settled(s, batch[k])
    ensures batch[j].id >= 0
  {
    MineBelow(s);
  }

  // A cancel by id starts a run only if it ends the current one, and then the next in line.
  lemma CancelStarts(s: State, e: Stamped, r: Run)
    requires Inv(s) && Enabled(s, e) && e.event.CancelID? && e.event.id != SR_ID_ALL
    requires r in Step(s, e).log.started && r !in s.log.started
    ensures s.current.Some? && s.current.value.run.id == e.event.id && r in Queued(s)
    ensures var line := CurrentRun(s) + Queued(s);
            exists q :: 0 < q < |line| && line[q] == r
  {
    var t := Step(s, e);
    StepGrows(s, e);
    CancelBarrier(s, e);
    var line := CurrentRun(s) + Queued(s);
    assert r in CurrentRun(t);
    assert r in CurrentRun(t) + Queued(t);
    assert r in line && r !in CurrentRun(s);
    var q :| 0 <= q < |line| && line[q] == r;
  }

  lemma SameRun(s: State, a: Run, r: Run)
    requires Inv(s) && a in s.log.arrived && (r in s.pending || r in s.log.arrived) && a.id == r.id
    ensures a == r
  {
  }

  lemma BatchInLine(s: System, batch: seq<Run>, j: nat, k: nat, first: Run)
    requires OrderInv(s) && BatchKnown(s, batch) && j < |batch| && k < |batch|
    requires first in s.runner.log.arrived && first.id == batch[j].id && first != batch[k]
    requires first in s.mine ==> first.id < batch[k].id
    ensures j < k
  {
    hide Inv;
    assert batch[j] in s.mine;
    SameRun(s.runner, first, batch[j]);
  }

  lemma NotSettledInLine(s: System, batch: seq<Run>, j: nat, k: nat)
    requires OrderInv(s) && BatchKnown(s, batch) && WireDecreases(s.wire, batch)
    requires j < k < |batch| && s.wire != [] && s.wire[0] == batch[j].id
    requires Settled(s, batch[k]) && batch[k] in Queued(s.runner)
    ensures batch[k] in s.overtaken
  {
    hide Inv;
    if Over(s.runner, batch[k]) {
      NotInLine(s.runner, batch[k]);
    }
    assert forall q :: 0 < q < |s.wire| ==> s.wire[q] != batch[k].id;
  }

  lemma DeliverStartsNoOther(s: System, a: Action, t: System, batch: seq<Run>, j: nat, k: nat)
    requires OrderInv(s) && Move(s, a, t) && a.Deliver?
    requires batch in s.retired || batch == Current(s)
    requires j < |batch| && k < |batch| && s.wire[0] == batch[j].id
    requires batch[k] in t.runner.log.started && batch[k] !in s.runner.log.started
    ensures batch[k] in s.overtaken
  {
    hide Inv, Step, WireHolds, ArriveInOrder, Settled;
    BatchFacts(s, batch, j);
    CancelStarts(s.runner, At(a.time, CancelID(batch[j].id)), batch[k]);
    LineInOrder(s);
    var line := CurrentRun(s.runner) + Queued(s.runner);
    var q :| 0 < q < |line| && line[q] == batch[k];
    FirstInLine(s.runner, batch[k]);
    BatchInLine(s, batch, j, k, line[0]);
    NotSettledInLine(s, batch, j, k);
  }

  // When the runner receives one of the program's cancels, for batch[j], the run it starts next (if any) is
  // not another run of that batch; unless that run's own cancel had come before the run itself.
  lemma OwnCancelStartsNoOther(ss: seq<System>, acts: seq<Action>, n: nat, batch: seq<Run>, j: nat, k: nat)
    requires History(ss, acts) && n < |acts| && acts[n].Deliver?
    requires batch in ss[n].retired || batch == Current(ss[n])
    requires j < |batch| && k < |batch| && ss[n].wire != [] && ss[n].wire[0] == batch[j].id
    requires batch[k] in ss[n + 1].runner.log.started && batch[k] !in ss[n].runner.log.started
    ensures batch[k] in ss[n].overtaken
  {
    OrderReachable(ss, acts, n);
    assert Move(ss[n], acts[n], ss[n + 1]);
    DeliverStartsNoOther(ss[n], acts[n], ss[n + 1], batch, j, k);
  }

  // ---- The barrier, for runs already received ----

  lemma ReceivedStays(s: System, a: Action, t: System, r: Run)
    requires SysInv(s) && Move(s, a, t) && r in s.runner.log.arrived && r !in s.overtaken
    ensures r in t.runner.log.arrived && r !in t.overtaken
  {
    hide Inv, Step, PhaseHolds, RetiredSettled;
    IDsApart(s.runner);
    var e := RunnerEvent(s, a);
    if e.Some? { PendingMoves(s.runner, e.value); }
  }

  lemma {:induction false} NeverOvertaken(ss: seq<System>, acts: seq<Action>, m: nat, n: nat, r: Run)
    requires History(ss, acts) && m <= n <= |acts|
    requires r in ss[m].runner.log.arrived && r !in ss[m].overtaken
    ensures r in ss[n].runner.log.arrived && r !in ss[n].overtaken
    decreases n
  {
    hide Step;
    hide SysInv;
    if m < n {
      NeverOvertaken(ss, acts, m, n - 1, r);
      SystemReachable(ss, acts, n - 1);
      assert Move(ss[n - 1], acts[n - 1], ss[n - 1 + 1]);
      ReceivedStays(ss[n - 1], acts[n - 1], ss[n], r);
    }
  }

  // If the runner had received a run by the time its program was still waiting, then once the invocation is
  // over and its cancels are off the wire, that run is neither queued nor current, and never again will be.
  lemma ReceivedThenGone(ss: seq<System>, acts: seq<Action>, m: nat, n: nat, p: nat, batch: seq<Run>, k: nat)
    requires History(ss, acts) && m <= n <= p <= |acts| && k < |batch|
    requires ss[m].phase.Awaiting? && ss[m].phase.batch == batch && batch[k] in ss[m].runner.log.arrived
    requires batch in ss[n].retired && batch[k].id !in ss[n].wire
    ensures Over(ss[p].runner, batch[k])
    ensures batch[k] !in Queued(ss[p].runner) && batch[k] !in CurrentRun(ss[p].runner)
  {
    hide SysInv;
    OrderReachable(ss, acts, m);
    NeverOvertaken(ss, acts, m, n, batch[k]);
    CancelledForGood(ss, acts, n, p, batch, k);
  }
}
