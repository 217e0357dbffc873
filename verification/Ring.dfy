// The run queue as values.
//
// A circular buffer is determined, up to rotation, by two stretches of slots: the *window* from head to
// tail, and the *spare* slots from tail round to head.  Slots of the window that were cancelled hold None;
// spare slots hold whatever Pop left behind.  Rotation removes every modulus from the reasoning, and keeps
// exactly what the code can observe: the window, and the slot at tail (spare[0]).

module Runs {

  // A section is compared by address; interfaceID is the output that waters it.
  datatype Section = Section(address: nat, interfaceID: nat)

  // The part of a section run that never changes.  `notify` says whether it has a Done channel.
  datatype Run = Run(id: int, sec: Section, total: int, notify: bool)

  // The two bulk removals.
  datatype Which = Every | OfSection(sec: Section)

  predicate Hits(which: Which, r: Run) {
    match which
    case Every => true
    case OfSection(sec) => r.sec == sec
  }

  function Hit(s: seq<Run>, which: Which): seq<Run> {
    if s == [] then []
    else if Hits(which, s[0]) then [s[0]] + Hit(s[1..], which)
    else Hit(s[1..], which)
  }

  function Missed(s: seq<Run>, which: Which): seq<Run> {
    if s == [] then []
    else if Hits(which, s[0]) then Missed(s[1..], which)
    else [s[0]] + Missed(s[1..], which)
  }
}

module RingSpec {
  import opened Wrappers
  import opened Runs

  type Slot = Option<Run>

  datatype Ring = Ring(window: seq<Slot>, spare: seq<Slot>)

  // Push always leaves a free slot at tail, so head == tail means "empty window".
  predicate Sound(q: Ring) {
    |q.spare| >= 1
  }

  function Nones(n: nat): (s: seq<Slot>)
    ensures |s| == n && forall i :: 0 <= i < n ==> s[i] == None
  {
    seq(n, _ => None)
  }

  function Empty(capacity: nat): Ring {
    Ring([], Nones(capacity))
  }

  // The live queue: what is left of the window when the tombstones are dropped.
  function Live(w: seq<Slot>): seq<Run> {
    if w == [] then []
    else if w[0].Some? then [w[0].value] + Live(w[1..])
    else Live(w[1..])
  }

  function Shown(x: Slot): seq<Run> {
    if x.Some? then [x.value] else []
  }

  // ---- The operations ----

  function Push(q: Ring, x: Slot): Ring
    requires Sound(q)
  {
    var w := q.window + [x];
    if |q.spare| == 1 then Ring(w, Nones(|w|)) else Ring(w, q.spare[1..])
  }

  // Pop skips tombstones and leaves the slots it passes as they are.
  function Pop(q: Ring): (Slot, Ring)
    decreases |q.window|
  {
    if q.window == [] then (None, q)
    else
      var rest := Ring(q.window[1..], q.spare + [q.window[0]]);
      if q.window[0].None? then Pop(rest) else (q.window[0], rest)
  }

  predicate HitsSlot(which: Which, x: Slot) {
    x.Some? && Hits(which, x.value)
  }

  function ClearSlot(x: Slot, which: Which): Slot {
    if HitsSlot(which, x) then None else x
  }

  function Clear(w: seq<Slot>, which: Which): (c: seq<Slot>)
    ensures |c| == |w| && forall i :: 0 <= i < |w| ==> c[i] == ClearSlot(w[i], which)
  {
    seq(|w|, i requires 0 <= i < |w| => ClearSlot(w[i], which))
  }

  function HitOf(x: Slot, which: Which): seq<Run> {
    if HitsSlot(which, x) then [x.value] else []
  }

  // The bulk removals also look at the slot at tail, which lies outside the window.
  function StaleHit(q: Ring, which: Which): seq<Run>
    requires Sound(q)
  {
    HitOf(q.spare[0], which)
  }

  function BulkRemoved(q: Ring, which: Which): seq<Run>
    requires Sound(q)
  {
    Hit(Live(q.window), which) + StaleHit(q, which)
  }

  function BulkRemove(q: Ring, which: Which): Ring
    requires Sound(q)
  {
    Ring(Clear(q.window, which), q.spare[0 := ClearSlot(q.spare[0], which)])
  }

  // Index of the first slot holding a run with this id, or |w|.
  function IndexOfId(w: seq<Slot>, id: int): (k: nat)
    ensures k <= |w|
    ensures k < |w| ==> w[k].Some? && w[k].value.id == id
    ensures forall i :: 0 <= i < k ==> w[i].Some? ==> w[i].value.id != id
  {
    if w == [] then 0
    else if w[0].Some? && w[0].value.id == id then 0
    else 1 + IndexOfId(w[1..], id)
  }

  function FirstWithId(s: seq<Run>, id: int): Slot {
    if s == [] then None else if s[0].id == id then Some(s[0]) else FirstWithId(s[1..], id)
  }

  function DropFirstId(s: seq<Run>, id: int): seq<Run> {
    if s == [] then [] else if s[0].id == id then s[1..] else [s[0]] + DropFirstId(s[1..], id)
  }

  function IdRemoved(q: Ring, id: int): Slot {
    var k := IndexOfId(q.window, id);
    if k < |q.window| then q.window[k] else None
  }

  function IdRemove(q: Ring, id: int): Ring {
    var k := IndexOfId(q.window, id);
    if k < |q.window| then q.(window := q.window[k := None]) else q
  }

  // ---- What they do to the live queue ----

  lemma {:induction false} LiveConcat(v: seq<Slot>, w: seq<Slot>)
    ensures Live(v + w) == Live(v) + Live(w)
  {
    if v == [] {
      assert v + w == w;
    } else {
      assert (v + w)[1..] == v[1..] + w;
      LiveConcat(v[1..], w);
    }
  }

  // Push appends, in every state: wrapping, doubling, and with tombstones in the window.
  lemma PushAppends(q: Ring, x: Slot)
    requires Sound(q)
    ensures Sound(Push(q, x))
    ensures Live(Push(q, x).window) == Live(q.window) + Shown(x)
  {
    LiveConcat(q.window, [x]);
    assert Live([x]) == Shown(x);
  }

  function Capacity(q: Ring): nat {
    |q.window| + |q.spare|
  }

  // Push doubles the buffer when only one slot is free, and nothing else changes its size.
  lemma {:induction false} CapacityDoubles(q: Ring, x: Slot, which: Which, id: int)
    requires Sound(q)
    ensures Capacity(Push(q, x)) == if |q.spare| == 1 then 2 * Capacity(q) else Capacity(q)
    ensures Capacity(Pop(q).1) == Capacity(BulkRemove(q, which)) == Capacity(IdRemove(q, id)) == Capacity(q)
    decreases |q.window|
  {
    if q.window != [] && q.window[0].None? {
      CapacityDoubles(Ring(q.window[1..], q.spare + [q.window[0]]), x, which, id);
    }
  }

  // Pop writes to no slot: read from the slot at tail round to tail, the buffer is the same.
  lemma {:induction false} PopOnlyTurns(q: Ring)
    ensures Pop(q).1.spare + Pop(q).1.window == q.spare + q.window
    ensures |Pop(q).1.window| <= |q.window|
    decreases |q.window|
  {
    if q.window != [] {
      var rest := Ring(q.window[1..], q.spare + [q.window[0]]);
      assert rest.spare + rest.window == q.spare + q.window;
      if q.window[0].None? { PopOnlyTurns(rest); }
    }
  }

  // A bulk removal empties the slots of the window and the slot at tail that hold a match, and a removal by
  // id the first slot of the window with that id; no other slot changes, and none changes otherwise.
  lemma RemovalsEmpty(q: Ring, which: Which, id: int, i: nat)
    requires Sound(q) && i < Capacity(q)
    ensures var slot, slot' := (q.window + q.spare)[i],
                               (BulkRemove(q, which).window + BulkRemove(q, which).spare)[i];
            slot' == if i <= |q.window| && slot.Some? && Hits(which, slot.value) then None else slot
    ensures var slot, slot' := (q.window + q.spare)[i], (IdRemove(q, id).window + IdRemove(q, id).spare)[i];
            slot' == if i < |q.window| && slot.Some? && slot.value.id == id
                        && (forall j :: 0 <= j < i && q.window[j].Some? ==> q.window[j].value.id != id)
                     then None else slot
  {
    hide IndexOfId;
    var k := IndexOfId(q.window, id);
  }

  // Pop returns and drops the first live run; it returns nil exactly when no live run is left.
  lemma {:induction false} PopTakesFirst(q: Ring)
    requires Sound(q)
    ensures Sound(Pop(q).1)
    ensures Pop(q).0 == if Live(q.window) == [] then None else Some(Live(q.window)[0])
    ensures Live(Pop(q).1.window) == if Live(q.window) == [] then [] else Live(q.window)[1..]
    decreases |q.window|
  {
    if q.window != [] {
      var rest := Ring(q.window[1..], q.spare + [q.window[0]]);
      if q.window[0].None? {
        PopTakesFirst(rest);
      }
    }
  }

  // A bulk removal leaves the live runs that do not match, in order.
  lemma {:induction false} ClearKeepsMissed(w: seq<Slot>, which: Which)
    ensures Live(Clear(w, which)) == Missed(Live(w), which)
  {
    if w != [] {
      assert Clear(w, which)[1..] == Clear(w[1..], which);
      ClearKeepsMissed(w[1..], which);
      if w[0].Some? {
        assert Live(w)[1..] == Live(w[1..]);
      }
    }
  }

  // A removal by id takes out the first live run with that id and no other.
  lemma {:induction false} IdRemoveDropsFirst(w: seq<Slot>, id: int)
    ensures var k := IndexOfId(w, id);
            FirstWithId(Live(w), id) == if k < |w| then w[k] else None
    ensures var k := IndexOfId(w, id);
            DropFirstId(Live(w), id) == if k < |w| then Live(w[k := None]) else Live(w)
  {
    if w != [] {
      IdRemoveDropsFirst(w[1..], id);
      var k := IndexOfId(w, id);
      if w[0].Some? {
        assert Live(w)[1..] == Live(w[1..]);
      }
      if k < |w| {
        assert w[k := None][1..] == if k == 0 then w[1..] else w[1..][k - 1 := None];
      }
    }
  }

  // ---- Stale slots: what can lie outside the window ----

  ghost predicate SpareWithin(q: Ring, popped: set<Run>) {
    forall i :: 0 <= i < |q.spare| && q.spare[i].Some? ==> q.spare[i].value in popped
  }

  // Outside the window there is never anything but nil and runs that Pop has handed out.
  lemma {:induction false} SpareOnlyPopped(q: Ring, x: Slot, which: Which, id: int, popped: set<Run>)
    requires Sound(q) && SpareWithin(q, popped)
    ensures SpareWithin(Push(q, x), popped)
    ensures SpareWithin(BulkRemove(q, which), popped)
    ensures SpareWithin(IdRemove(q, id), popped)
    ensures Pop(q).0.None? ==> SpareWithin(Pop(q).1, popped)
    ensures Pop(q).0.Some? ==> SpareWithin(Pop(q).1, popped + {Pop(q).0.value})
    decreases |q.window|
  {
    if q.window != [] && q.window[0].None? {
      var rest := Ring(q.window[1..], q.spare + [q.window[0]]);
      SpareOnlyPopped(rest, x, which, id, popped);
    }
  }
}
