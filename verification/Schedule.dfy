// Schedule.NextRunAfterTime: the next instant at which a schedule wants to run.

module Schedules {
  import opened Wrappers
  import opened Calendar

  datatype TimeOfDay = TimeOfDay(hour: int, minute: int, second: int, millisecond: int)

  // A date with year 0 stands for that day of any year.
  datatype Schedule = Schedule(times: seq<TimeOfDay>, weekdays: seq<int>, from: Option<Date>, to: Option<Date>)

  function Duration(tod: TimeOfDay): int {
    tod.hour * HOUR + tod.minute * MINUTE + tod.second * SECOND + tod.millisecond * MILLISECOND
  }

  function DateFromTime(t: int): Date {
    DateOf(DayOf(t))
  }

  function ToTime(d: Date): int {
    Midnight(DayNumber(d))
  }

  function WithResolvedYear(d: Date, ref: int): Date {
    if d.year == 0 then d.(year := DateFromTime(ref).year) else d
  }

  // As the code has it: a "week" of 24 hours.
  function Weeks(n: int): int {
    n * 24 * HOUR
  }

  function NextDay(t: int, wd: int): int {
    var timeWithDay := ToTime(DateFromTime(t));
    var diff := wd - WeekdayOf(DayOf(timeWithDay));
    timeWithDay + Weeks(if diff < 0 then diff + 7 else diff)
  }

  // ---- The window and the effective reference ----

  // The resolved From and To, and the instant the search starts from.
  datatype Window = Window(from: Option<Date>, to: Option<Date>, ref: int)

  // What the code does with a From after its To.
  function Unwrap(from: Date, to: Date, refDate: Date): (Date, Date) {
    if !After(from, to) then (from, to)
    else if (Before(refDate, to) && Before(refDate, from)) || (After(refDate, to) && After(refDate, from)) then
      (from.(year := from.year - 1), to)
    else (from, to.(year := to.year + 1))
  }

  function WindowOf(s: Schedule, ref: int): Window {
    var to := if s.to.Some? then Some(WithResolvedYear(s.to.value, ref)) else None;
    if s.from.None? then Window(None, to, ref)
    else
      var from := WithResolvedYear(s.from.value, ref);
      var (f, t) :=
        if to.Some? then var (f, t) := Unwrap(from, to.value, DateFromTime(ref)); (f, Some(t))
        else (from, None);
      Window(Some(f), t, if ToTime(f) > ref then ToTime(f) else ref)
  }

  // ---- The candidates ----

  function Candidate(ref: int, wd: int, tod: TimeOfDay): int {
    var tim := NextDay(ref, wd) + Duration(tod);
    if tim < ref then tim + Weeks(1) else tim
  }

  predicate Accepted(w: Window, t: int) {
    w.to.Some? ==> t <= ToTime(w.to.value)
  }

  function CandidateAt(s: Schedule, w: Window, i: nat, j: nat): int
    requires i < |s.weekdays| && j < |s.times|
  {
    Candidate(w.ref, s.weekdays[i], s.times[j])
  }

  // The accepted candidates of weekday i for the first j times, and of the first i weekdays.
  function Row(s: Schedule, w: Window, i: nat, j: nat): seq<int>
    requires i < |s.weekdays| && j <= |s.times|
  {
    if j == 0 then []
    else
      var c := CandidateAt(s, w, i, j - 1);
      Row(s, w, i, j - 1) + if Accepted(w, c) then [c] else []
  }

  function Rows(s: Schedule, w: Window, i: nat): seq<int>
    requires i <= |s.weekdays|
  {
    if i == 0 then [] else Rows(s, w, i - 1) + Row(s, w, i - 1, |s.times|)
  }

  function Candidates(s: Schedule, w: Window): seq<int> {
    Rows(s, w, |s.weekdays|)
  }

  lemma {:induction false} RowHas(s: Schedule, w: Window, i: nat, j: nat, t: int)
    requires i < |s.weekdays| && j <= |s.times|
    ensures t in Row(s, w, i, j) <==> exists l :: 0 <= l < j && CandidateAt(s, w, i, l) == t && Accepted(w, t)
  {
    hide CandidateAt, Accepted;
    if j > 0 {
      RowHas(s, w, i, j - 1, t);
      assert CandidateAt(s, w, i, j - 1) == CandidateAt(s, w, i, j - 1);
    }
  }

  lemma {:induction false} RowsHave(s: Schedule, w: Window, i: nat, t: int)
    requires i <= |s.weekdays|
    ensures t in Rows(s, w, i)
            <==> exists k, l :: 0 <= k < i && 0 <= l < |s.times| && CandidateAt(s, w, k, l) == t && Accepted(w, t)
  {
    hide CandidateAt, Accepted;
    if i > 0 {
      RowsHave(s, w, i - 1, t);
      RowHas(s, w, i - 1, |s.times|, t);
    }
  }

  ghost predicate IsLeast(c: seq<int>, r: Option<int>) {
    match r
    case None => c == []
    case Some(x) => x in c && forall t :: t in c ==> x <= t
  }

  // The least element, or None if there is none.
  function Least(c: seq<int>): (r: Option<int>)
    ensures IsLeast(c, r)
  {
    if c == [] then None
    else
      var n := |c| - 1;
      var r := Least(c[..n]);
      assert c == c[..n] + [c[n]];
      if r.None? || r.value > c[n] then Some(c[n]) else r
  }

  // The next run: the least accepted candidate of the schedule's window.
  function NextRun(s: Schedule, ref: int): (r: Option<int>)
    ensures IsLeast(Candidates(s, WindowOf(s, ref)), r)
  {
    Least(Candidates(s, WindowOf(s, ref)))
  }

  lemma LeastStep(a: seq<int>, b: seq<int>, x: int, accepted: bool)
    ensures var r := Least(a + b);
            Least(a + (b + if accepted then [x] else []))
            == if accepted && (r.None? || r.value > x) then Some(x) else r
  {
    if accepted {
      assert (a + (b + [x]))[..|a + b|] == a + b;
    } else {
      assert b + [] == b;
    }
  }

  // The part before the loops: resolves the window, and moves the reference up to From.
  method Resolve(s: Schedule, ref: int) returns (from: Option<Date>, to: Option<Date>, timeReference: int)
    ensures WindowOf(s, ref) == Window(from, to, timeReference)
  {
    hide ToTime, WithResolvedYear, DateFromTime;
    timeReference := ref;
    to, from := None, None;
    if s.to.Some? {
      to := Some(WithResolvedYear(s.to.value, timeReference));
    }
    if s.from.Some? {
      from := Some(WithResolvedYear(s.from.value, timeReference));
      if to.Some? && After(from.value, to.value) {
        var refDate := DateFromTime(timeReference);
        if (Before(refDate, to.value) && Before(refDate, from.value)) ||
           (After(refDate, to.value) && After(refDate, from.value)) {
          from := Some(from.value.(year := from.value.year - 1));
        } else {
          to := Some(to.value.(year := to.value.year + 1));
        }
      }
      if ToTime(from.value) > timeReference {
        timeReference := ToTime(from.value);
      }
    }
  }

  lemma LeastOfNothing()
    ensures Least([]) == None
  {
  }

  method NextRunAfterTime(s: Schedule, ref: int) returns (nextRunTime: Option<int>)
    ensures nextRunTime == NextRun(s, ref)
  {
    hide NextDay, Duration, ToTime, WindowOf, Least;
    LeastOfNothing();
    ghost var w := WindowOf(s, ref);
    nextRunTime := None;
    var from, to, timeReference := Resolve(s, ref);
    for i := 0 to |s.weekdays|
      invariant nextRunTime == Least(Rows(s, w, i))
    {
      assert Rows(s, w, i) + [] == Rows(s, w, i);
      var timeWithDay := NextDay(timeReference, s.weekdays[i]);
      for j := 0 to |s.times|
        invariant nextRunTime == Least(Rows(s, w, i) + Row(s, w, i, j))
      {
        var tim := timeWithDay + Duration(s.times[j]);
        if tim < timeReference {
          tim := tim + Weeks(1);
        }
        assert tim == CandidateAt(s, w, i, j);
        LeastStep(Rows(s, w, i), Row(s, w, i, j), tim, Accepted(w, tim));
        if to.Some? && tim > ToTime(to.value) {
          continue;
        }
        if nextRunTime.None? || nextRunTime.value > tim {
          nextRunTime := Some(tim);
        }
      }
    }
  }
}
