// SRQueue: the circular buffer of pointers to section runs, doubling when it fills up.

module SRQueues {
  import opened Wrappers
  import opened Runs
  import opened RingSpec
  import RunnerSpec

  // A section run.  `info` never changes; the other fields are updated in place once the run is current.
  class SectionRun {
    const info: Run
    var duration: int
    var startTime: Option<int>
    var pauseTime: Option<int>
    var unpauseTime: Option<int>

    constructor (info: Run)
      ensures this.info == info && Untouched()
    {
      this.info := info;
      duration := info.total;
      startTime, pauseTime, unpauseTime := None, None, None;
    }

    // As NewSectionRun leaves it.
    predicate Untouched()
      reads this
    {
      duration == info.total && startTime == None && pauseTime == None && unpauseTime == None
    }
  }

  function SlotOf(p: SectionRun?): Slot {
    if p == null then None else Some(p.info)
  }

  function SlotsOf(s: seq<SectionRun?>): (r: seq<Slot>)
    ensures |r| == |s| && forall i :: 0 <= i < |s| ==> r[i] == SlotOf(s[i])
  {
    seq(|s|, i requires 0 <= i < |s| => SlotOf(s[i]))
  }

  function InfosOf(s: seq<SectionRun>): (r: seq<Run>)
    ensures |r| == |s| && forall i :: 0 <= i < |s| ==> r[i] == s[i].info
  {
    seq(|s|, i requires 0 <= i < |s| => s[i].info)
  }

  // An index less than 2 * n, modulo n.
  function Wrap(i: nat, n: nat): (w: nat)
    requires i < 2 * n
    ensures w < n
  {
    if i < n then i else i - n
  }

  method Next(i: nat, n: nat) returns (j: nat)
    requires i < n
    ensures j == Wrap(i + 1, n)
  {
    assert n % n == 0;
    j := (i + 1) % n;
  }

  // Number of steps from i round to j.
  function Gap(i: nat, j: nat, n: nat): (g: nat)
    requires i < n && j < n
    ensures g < n && Wrap(i + g, n) == j
  {
    if i <= j then j - i else j - i + n
  }

  // `count` slots starting at `from` and wrapping round.
  function Arc(s: seq<SectionRun?>, from: nat, count: nat): (a: seq<SectionRun?>)
    requires from < |s| && count <= |s|
    ensures |a| == count && forall k :: 0 <= k < count ==> a[k] == s[Wrap(from + k, |s|)]
  {
    seq(count, k requires 0 <= k < count => s[Wrap(from + k, |s|)])
  }

  // The ring that a buffer, a head and a tail stand for.
  function View(s: seq<SectionRun?>, head: nat, tail: nat): (q: Ring)
    requires head < |s| && tail < |s|
    ensures |q.window| == Gap(head, tail, |s|) && |q.window| + |q.spare| == |s|
  {
    var g := Gap(head, tail, |s|);
    Ring(SlotsOf(Arc(s, head, g)), SlotsOf(Arc(s, tail, |s| - g)))
  }

  lemma ViewAfterPush(s: seq<SectionRun?>, head: nat, tail: nat, x: SectionRun?)
    requires head < |s| && tail < |s| && Wrap(tail + 1, |s|) != head
    ensures View(s[tail := x], head, Wrap(tail + 1, |s|)) == RingSpec.Push(View(s, head, tail), SlotOf(x))
  {
    var q, t := View(s, head, tail), View(s[tail := x], head, Wrap(tail + 1, |s|));
    assert t.window == q.window + [SlotOf(x)];
    assert t.spare == q.spare[1..];
  }

  // A full buffer s is copied, head first, into the front of one twice as long.
  lemma ViewAfterDoubling(s: seq<SectionRun?>, head: nat, tail: nat, x: SectionRun?, d: seq<SectionRun?>)
    requires head < |s| && tail < |s| && Wrap(tail + 1, |s|) == head
    requires |d| == 2 * |s|
    requires forall k :: 0 <= k < |s| ==> d[k] == s[tail := x][Wrap(head + k, |s|)]
    requires forall k :: |s| <= k < |d| ==> d[k] == null
    ensures View(d, 0, |s|) == RingSpec.Push(View(s, head, tail), SlotOf(x))
  {
    var q, t := View(s, head, tail), View(d, 0, |s|);
    assert t.window == q.window + [SlotOf(x)];
    assert t.spare == Nones(|s|);
  }

  lemma ViewAfterStep(s: seq<SectionRun?>, head: nat, tail: nat)
    requires head < |s| && tail < |s| && head != tail
    ensures var q, t := View(s, head, tail), View(s, Wrap(head + 1, |s|), tail);
            |q.window| > 0 && q.window[0] == SlotOf(s[head])
            && t == Ring(q.window[1..], q.spare + [q.window[0]])
  {
    var q, t := View(s, head, tail), View(s, Wrap(head + 1, |s|), tail);
    assert t.window == q.window[1..];
    assert t.spare == q.spare + [q.window[0]];
  }

  function ClearedAt(s: seq<SectionRun?>, i: nat, which: Which): seq<SectionRun?>
    requires i < |s|
  {
    if HitsSlot(which, SlotOf(s[i])) then s[i := null] else s
  }

  // The first k slots counting from head have been looked at.
  function Cleared(s: seq<SectionRun?>, head: nat, k: nat, which: Which): (c: seq<SectionRun?>)
    requires head < |s|
    ensures |c| == |s|
    ensures forall j :: 0 <= j < |s| ==>
      c[j] == if Gap(head, j, |s|) < k && HitsSlot(which, SlotOf(s[j])) then null else s[j]
  {
    seq(|s|, j requires 0 <= j < |s| =>
      if Gap(head, j, |s|) < k && HitsSlot(which, SlotOf(s[j])) then null else s[j])
  }

  // What a bulk removal has collected after k slots counting from head.
  function Found(s: seq<SectionRun?>, head: nat, k: nat, which: Which): seq<Run>
    requires head < |s| && k <= |s|
  {
    if k == 0 then [] else Found(s, head, k - 1, which) + HitOf(SlotOf(s[Wrap(head + k - 1, |s|)]), which)
  }

  lemma LiveOne(x: Slot)
    ensures Live([x]) == Shown(x)
  {
  }

  lemma LiveNothing(w: seq<Slot>)
    ensures Live(w[..0]) == []
  {
  }

  lemma LiveTake(w: seq<Slot>, k: nat)
    requires k < |w|
    ensures Live(w[..k + 1]) == Live(w[..k]) + Shown(w[k])
  {
    hide Live;
    assert w[..k + 1] == w[..k] + [w[k]];
    LiveConcat(w[..k], [w[k]]);
    LiveOne(w[k]);
  }

  lemma LivePrefix(w: seq<Slot>, k: nat)
    requires k <= |w|
    ensures Live(w[..k]) <= Live(w)
  {
    hide Live;
    assert w == w[..k] + w[k..];
    LiveConcat(w[..k], w[k..]);
  }

  lemma {:induction false} HitConcat(a: seq<Run>, b: seq<Run>, which: Which)
    ensures Hit(a + b, which) == Hit(a, which) + Hit(b, which)
  {
    if a == [] {
      assert a + b == b;
    } else {
      assert (a + b)[1..] == a[1..] + b;
      HitConcat(a[1..], b, which);
    }
  }

  lemma HitShown(x: Slot, which: Which)
    ensures Hit(Shown(x), which) == HitOf(x, which)
  {
  }

  lemma HitNothing(which: Which)
    ensures Hit([], which) == []
  {
  }

  lemma {:induction false} FoundIsHit(s: seq<SectionRun?>, head: nat, tail: nat, k: nat, which: Which)
    requires head < |s| && tail < |s| && k <= Gap(head, tail, |s|)
    ensures Found(s, head, k, which) == Hit(Live(View(s, head, tail).window[..k]), which)
  {
    hide Hit, HitOf;
    if k > 0 {
      var w := View(s, head, tail).window;
      FoundIsHit(s, head, tail, k - 1, which);
      LiveTake(w, k - 1);
      HitShown(w[k - 1], which);
      HitConcat(Live(w[..k - 1]), Shown(w[k - 1]), which);
    } else {
      HitNothing(which);
    }
  }

  lemma SweepStart(s: seq<SectionRun?>, head: nat, which: Which)
    requires head < |s|
    ensures Cleared(s, head, 0, which) == s && Found(s, head, 0, which) == []
  {
  }

  // One turn of the loop of a bulk removal.
  lemma SweepStep(s: seq<SectionRun?>, head: nat, k: nat, which: Which, i: nat)
    requires head < |s| && k < |s| && i == Wrap(head + k, |s|)
    ensures Cleared(s, head, k, which)[i] == s[i]
    ensures Cleared(s, head, k + 1, which) == ClearedAt(Cleared(s, head, k, which), i, which)
    ensures Found(s, head, k + 1, which) == Found(s, head, k, which) + HitOf(SlotOf(s[i]), which)
  {
    assert Gap(head, i, |s|) == k;
    assert forall j :: 0 <= j < |s| && j != i ==> Gap(head, j, |s|) != k;
  }

  lemma ViewAfterClear(s: seq<SectionRun?>, head: nat, tail: nat, which: Which)
    requires head < |s| && tail < |s|
    ensures var c := Cleared(s, head, Gap(head, tail, |s|), which);
            c[tail] == s[tail] && View(ClearedAt(c, tail, which), head, tail) == BulkRemove(View(s, head, tail), which)
            && forall p :: p in ClearedAt(c, tail, which) ==> p == null || p in s
  {
    var c := ClearedAt(Cleared(s, head, Gap(head, tail, |s|), which), tail, which);
    var q, t := View(s, head, tail), View(c, head, tail);
    assert t.window == Clear(q.window, which);
    assert t.spare == q.spare[0 := ClearSlot(q.spare[0], which)];
  }

  lemma ViewAfterNull(s: seq<SectionRun?>, head: nat, tail: nat, k: nat)
    requires head < |s| && tail < |s| && k < Gap(head, tail, |s|)
    ensures var q := View(s, head, tail);
            View(s[Wrap(head + k, |s|) := null], head, tail) == q.(window := q.window[k := None])
  {
    var q, t := View(s, head, tail), View(s[Wrap(head + k, |s|) := null], head, tail);
    assert t.window == q.window[k := None];
    assert t.spare == q.spare;
  }

  lemma IndexOfIdIs(w: seq<Slot>, id: int, k: nat)
    requires k < |w| && w[k].Some? && w[k].value.id == id
    requires forall j :: 0 <= j < k && w[j].Some? ==> w[j].value.id != id
    ensures IndexOfId(w, id) == k
  {
  }

  // ---- The live runs of a stretch of slots ----

  function NonNull(s: seq<SectionRun?>): seq<SectionRun> {
    if s == [] then []
    else NonNull(s[..|s| - 1]) + if s[|s| - 1] == null then [] else [s[|s| - 1]]
  }

  lemma {:induction false} LiveIsNonNull(s: seq<SectionRun?>)
    ensures Live(SlotsOf(s)) == InfosOf(NonNull(s))
  {
    if s != [] {
      var n := |s| - 1;
      LiveIsNonNull(s[..n]);
      LiveTake(SlotsOf(s), n);
      assert SlotsOf(s)[..n] == SlotsOf(s[..n]) && SlotsOf(s)[..n + 1] == SlotsOf(s);
    }
  }

  // A copy of the whole struct.
  function CopyOf(p: SectionRun): RunnerSpec.Active
    reads p
  {
    RunnerSpec.Active(p.info, p.duration, p.startTime, p.pauseTime, p.unpauseTime)
  }

  ghost predicate Copies(a: seq<RunnerSpec.Active>, s: seq<SectionRun>)
    reads s
  {
    |a| == |s| && forall i :: 0 <= i < |s| ==> a[i] == CopyOf(s[i])
  }

  lemma NonNullNone(s: seq<SectionRun?>)
    ensures NonNull(s[..0]) == []
  {
  }

  lemma NonNullTake(s: seq<SectionRun?>, k: nat)
    requires k < |s|
    ensures s[k] == null ==> NonNull(s[..k + 1]) == NonNull(s[..k])
    ensures s[k] != null ==> NonNull(s[..k + 1]) == NonNull(s[..k]) + [s[k]]
  {
    assert s[..k + 1][..k] == s[..k];
  }

  class SRQueue {
    var items: array<SectionRun?>
    var head: nat
    var tail: nat

    ghost predicate Valid()
      reads this
    {
      head < items.Length && tail < items.Length
    }

    ghost function Abs(): (q: Ring)
      reads this, items
      requires Valid()
      ensures Sound(q)
    {
      View(items[..], head, tail)
    }

    constructor (size: nat)
      requires size >= 1
      ensures Valid() && fresh(items)
      ensures Abs() == Empty(size)
      ensures forall p :: p in items[..] ==> p == null
    {
      items := new SectionRun?[size](_ => null);
      head, tail := 0, 0;
    }

    method Push(item: SectionRun?)
      requires Valid()
      modifies this, items
      ensures Valid() && (items == old(items) || fresh(items))
      ensures Abs() == RingSpec.Push(old(Abs()), SlotOf(item))
      ensures forall p :: p in items[..] ==> p == null || p == item || p in old(items[..])
    {
      hide RingSpec.Push;
      ghost var was := items[..];
      items[tail] := item;
      var itemsLen := items.Length;
      tail := Next(tail, itemsLen);
      if tail == head {
        DoubleStorage();
        ViewAfterDoubling(was, old(head), old(tail), item, items[..]);
      } else {
        ViewAfterPush(was, head, old(tail), item);
      }
    }

    // If the queue is full, double the storage size.
    method DoubleStorage()
      requires Valid() && tail == head
      modifies this
      ensures fresh(items) && items.Length == 2 * old(items.Length)
      ensures head == 0 && tail == old(items.Length)
      ensures forall k :: 0 <= k < tail ==> items[k] == old(items[..])[Wrap(old(head) + k, tail)]
      ensures forall k :: tail <= k < items.Length ==> items[k] == null
    {
      var itemsLen := items.Length;
      var newItems := new SectionRun?[itemsLen * 2](_ => null);
      forall k | 0 <= k < itemsLen - head {
        newItems[k] := items[head + k];
      }
      forall k | 0 <= k < head {
        newItems[itemsLen - head + k] := items[k];
      }
      head := 0;
      tail := itemsLen;
      items := newItems;
    }

    method Pop() returns (item: SectionRun?)
      requires Valid()
      modifies this
      ensures Valid() && items == old(items)
      ensures (SlotOf(item), Abs()) == RingSpec.Pop(old(Abs()))
      ensures item != null ==> item in items[..]
      decreases Gap(head, tail, items.Length)
    {
      if head == tail {
        return null;
      }
      item := items[head];
      ViewAfterStep(items[..], head, tail);
      head := Next(head, items.Length);
      if item == null {
        item := Pop();
      }
    }

    // Calls f on the live runs from first to last, and stops after the first false.
    method ForEach(f: Run -> bool) returns (all: bool, ghost calls: seq<Run>)
      requires Valid()
      ensures all <==> forall r :: r in Live(Abs().window) ==> f(r)
      ensures calls <= Live(Abs().window)
      ensures all ==> calls == Live(Abs().window)
      ensures !all ==> calls != [] && !f(calls[|calls| - 1]) && forall i :: 0 <= i < |calls| - 1 ==> f(calls[i])
    {
      hide Live;
      ghost var w := Abs().window;
      calls := [];
      LiveNothing(w);
      var i := head;
      ghost var k := 0;
      while i != tail
        invariant 0 <= k <= |w| && i == Wrap(head + k, items.Length)
        invariant calls == Live(w[..k]) && calls <= Live(w)
        invariant forall r :: r in calls ==> f(r)
        decreases |w| - k
      {
        assert k < |w|;
        var item := items[i];
        LiveTake(w, k);
        LivePrefix(w, k + 1);
        if item != null {
          calls := calls + [item.info];
          var result := f(item.info);
          if !result {
            assert Live(w)[|calls| - 1] == item.info;
            return false, calls;
          }
        }
        i := Next(i, items.Length);
        k := k + 1;
      }
      assert w[..k] == w;
      all := true;
    }

    ghost function LiveRuns(): seq<SectionRun>
      reads this, items
      requires Valid()
    {
      NonNull(Arc(items[..], head, Gap(head, tail, items.Length)))
    }

    // Copies of the live runs, in order.
    method ToSlice() returns (a: seq<RunnerSpec.Active>)
      requires Valid()
      ensures Copies(a, LiveRuns()) && InfosOf(LiveRuns()) == Live(Abs().window)
    {
      hide NonNull, CopyOf, Live;
      ghost var w := Arc(items[..], head, Gap(head, tail, items.Length));
      LiveIsNonNull(w);
      assert Abs().window == SlotsOf(w);
      ghost var found: seq<SectionRun> := [];
      a := [];
      NonNullNone(w);
      var i := head;
      ghost var k := 0;
      while i != tail
        invariant 0 <= k <= |w| && i == Wrap(head + k, items.Length)
        invariant found == NonNull(w[..k]) && Copies(a, found)
        decreases |w| - k
      {
        assert k < |w|;
        var item := items[i];
        assert w[k] == item;
        NonNullTake(w, k);
        if item != null {
          a, found := a + [CopyOf(item)], found + [item];
        }
        i := Next(i, items.Length);
        k := k + 1;
      }
      assert w[..k] == w;
    }

    method Len() returns (count: nat)
      requires Valid()
      ensures count == |Live(Abs().window)|
    {
      ghost var w := Abs().window;
      count := 0;
      var i := head;
      ghost var k := 0;
      while i != tail
        invariant 0 <= k <= |w| && i == Wrap(head + k, items.Length)
        invariant count == |Live(w[..k])|
        decreases |w| - k
      {
        assert k < |w|;
        LiveTake(w, k);
        if items[i] != null {
          count := count + 1;
        }
        i := Next(i, items.Length);
        k := k + 1;
      }
      assert w[..k] == w;
    }

    // RemoveWithSection and RemoveAll: the same loop with two tests.
    method RemoveBulk(which: Which) returns (removed: seq<SectionRun>)
      requires Valid()
      modifies items
      ensures Valid()
      ensures InfosOf(removed) == BulkRemoved(old(Abs()), which)
      ensures Abs() == BulkRemove(old(Abs()), which)
      ensures forall p :: p in items[..] ==> p == null || p in old(items[..])
    {
      hide Found, Cleared, ClearedAt, HitsSlot, Clear;
      ViewAfterClear(items[..], head, tail, which);
      ghost var g := Gap(head, tail, items.Length);
      FoundIsHit(items[..], head, tail, g, which);
      assert Abs().window[..g] == Abs().window;
      removed := Sweep(which);
      removed := CheckAndRemove(tail, which, removed);
    }

    // The loop from head to tail.
    method Sweep(which: Which) returns (removed: seq<SectionRun>)
      requires Valid()
      modifies items
      ensures items[..] == Cleared(old(items[..]), head, Gap(head, tail, items.Length), which)
      ensures InfosOf(removed) == Found(old(items[..]), head, Gap(head, tail, items.Length), which)
    {
      hide Found, Cleared, ClearedAt, HitOf, HitsSlot;
      ghost var g := Gap(head, tail, items.Length);
      ghost var was := items[..];
      SweepStart(was, head, which);
      removed := [];
      var i := head;
      ghost var k := 0;
      while i != tail
        invariant 0 <= k <= g && i == Wrap(head + k, items.Length)
        invariant InfosOf(removed) == Found(was, head, k, which)
        invariant items[..] == Cleared(was, head, k, which)
        decreases g - k
      {
        assert k < g;
        SweepStep(was, head, k, which, i);
        assert items[i] == was[i];
        removed := CheckAndRemove(i, which, removed);
        i := Next(i, items.Length);
        k := k + 1;
      }
      assert k == g;
    }

    method CheckAndRemove(i: nat, which: Which, removed: seq<SectionRun>) returns (r: seq<SectionRun>)
      requires Valid() && i < items.Length
      modifies items
      ensures items[..] == ClearedAt(old(items[..]), i, which)
      ensures InfosOf(r) == InfosOf(removed) + HitOf(SlotOf(old(items[i])), which)
    {
      r := removed;
      if items[i] != null && Hits(which, items[i].info) {
        r := r + [items[i]];
        items[i] := null;
      }
    }

    method RemoveByID(id: int) returns (item: SectionRun?)
      requires Valid()
      modifies items
      ensures Valid()
      ensures SlotOf(item) == IdRemoved(old(Abs()), id)
      ensures Abs() == IdRemove(old(Abs()), id)
      ensures forall p :: p in items[..] ==> p == null || p in old(items[..])
    {
      hide IndexOfId;
      ghost var q := Abs();
      var i := head;
      ghost var k := 0;
      while i != tail
        invariant 0 <= k <= |q.window| && i == Wrap(head + k, items.Length)
        invariant forall j :: 0 <= j < k && q.window[j].Some? ==> q.window[j].value.id != id
        invariant items[..] == old(items[..])
        decreases |q.window| - k
      {
        assert k < |q.window| && q.window[k] == SlotOf(items[i]);
        if items[i] != null && items[i].info.id == id {
          item := items[i];
          IndexOfIdIs(q.window, id, k);
          ViewAfterNull(items[..], head, tail, k);
          items[i] := null;
          return item;
        }
        i := Next(i, items.Length);
        k := k + 1;
      }
      return null;
    }
  }
}
