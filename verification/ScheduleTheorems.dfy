// When the next run is the one the schedule asks for.

module ScheduleTheorems {
  import opened Wrappers
  import opened Calendar
  import opened Schedules

  // What the parser and the JSON format mean by a schedule: real weekdays, and times of day within the day.
  ghost predicate WellFormed(s: Schedule) {
    && (forall i :: 0 <= i < |s.weekdays| ==> 0 <= s.weekdays[i] < 7)
    && (forall j :: 0 <= j < |s.times| ==> 0 <= Duration(s.times[j]) < DAY)
  }

  predicate OnWeekday(s: Schedule, n: int) {
    WeekdayOf(n) in s.weekdays
  }

  // t is one of the schedule's times on one of its weekdays.
  ghost predicate ScheduledAt(s: Schedule, t: int) {
    OnWeekday(s, DayOf(t)) && exists j :: 0 <= j < |s.times| && Duration(s.times[j]) == t % DAY
  }

  // Not after the window: its last instant is the midnight at which the day of To begins.
  predicate NotTooLate(w: Window, t: int) {
    w.to.None? || t <= ToTime(w.to.value)
  }

  ghost predicate Due(s: Schedule, w: Window, t: int) {
    w.ref <= t && NotTooLate(w, t) && ScheduledAt(s, t)
  }

  // The intended next run: the least scheduled instant of the window from the reference on, if there is one
  // at all.
  ghost predicate IsNextDue(s: Schedule, w: Window, r: Option<int>) {
    match r
    case None => forall t :: !Due(s, w, t)
    case Some(x) => Due(s, w, x) && forall t :: Due(s, w, t) ==> x <= t
  }

  // ---- Times of day ----

  predicate ValidTime(tod: TimeOfDay) {
    0 <= tod.hour < 24 && 0 <= tod.minute < 60 && 0 <= tod.second < 60 && 0 <= tod.millisecond < 1000
  }

  // The duration of a time of day is what a wall clock shows, in hours, minutes, seconds and milliseconds.
  lemma DurationIsReading(tod: TimeOfDay)
    requires ValidTime(tod)
    ensures var ms := Duration(tod) / 1_000_000; var sec := ms / 1000; var min := sec / 60;
            && 0 <= Duration(tod) == ms * 1_000_000 < DAY
            && tod == TimeOfDay(min / 60, min % 60, sec % 60, ms % 1000)
  {
    var min := tod.hour * 60 + tod.minute;
    var sec := min * 60 + tod.second;
    var ms := sec * 1000 + tod.millisecond;
    assert Duration(tod) == ms * 1_000_000;
    assert ms / 1000 == sec && ms % 1000 == tod.millisecond;
    assert sec / 60 == min && sec % 60 == tod.second;
    assert min / 60 == tod.hour && min % 60 == tod.minute;
  }

  // ---- One candidate ----

  // The first day from t's day on that falls on weekday wd.
  function FirstDay(t: int, wd: int): (n: int)
    requires 0 <= wd < 7
    ensures DayOf(t) <= n < DayOf(t) + 7 && WeekdayOf(n) == wd
  {
    DayOf(t) + (wd - WeekdayOf(DayOf(t))) % 7
  }

  lemma InstantOf(n: int, d: int)
    requires 0 <= d < DAY
    ensures DayOf(Midnight(n) + d) == n && (Midnight(n) + d) % DAY == d
  {
  }

  lemma NextDayIsFirstDay(t: int, wd: int)
    requires 0 <= wd < 7
    ensures NextDay(t, wd) == Midnight(FirstDay(t, wd))
  {
    hide DateOf, DayNumber;
    assert DayOf(Midnight(DayOf(t))) == DayOf(t) by { InstantOf(DayOf(t), 0); }
    var diff := wd - WeekdayOf(DayOf(t));
    assert -7 < diff < 7;
    hide WeekdayOf, DayOf;
    assert diff % 7 == if diff < 0 then diff + 7 else diff;
  }

  lemma SameWeekday(m: int, n: int)
    requires m <= n && WeekdayOf(m) == WeekdayOf(n)
    ensures m == n || m + 7 <= n
  {
  }

  lemma DayBounds(t: int)
    ensures Midnight(DayOf(t)) <= t < Midnight(DayOf(t)) + DAY && t == Midnight(DayOf(t)) + t % DAY
  {
  }

  // A candidate lies in the week from the reference on.  It is a time of the schedule, unless the time has
  // passed on the reference's own day: then it is that time on the next day.
  lemma CandidateIs(s: Schedule, w: Window, i: nat, j: nat)
    requires WellFormed(s) && i < |s.weekdays| && j < |s.times|
    ensures var n := FirstDay(w.ref, s.weekdays[i]);
            var tim := Midnight(n) + Duration(s.times[j]);
            && CandidateAt(s, w, i, j) == (if tim < w.ref then tim + DAY else tim)
            && (tim < w.ref ==> n == DayOf(w.ref))
            && w.ref <= CandidateAt(s, w, i, j) < w.ref + 7 * DAY
  {
    hide NextDay, Duration, FirstDay;
    NextDayIsFirstDay(w.ref, s.weekdays[i]);
    DayBounds(w.ref);
  }

  lemma CandidateAccepted(s: Schedule, w: Window, i: nat, j: nat)
    requires i < |s.weekdays| && j < |s.times|
    ensures Accepted(w, CandidateAt(s, w, i, j)) <==> CandidateAt(s, w, i, j) in Candidates(s, w)
  {
    var c := CandidateAt(s, w, i, j);
    RowsHave(s, w, |s.weekdays|, c);
  }

  lemma FirstDayIsFirst(t: int, wd: int, n: int)
    requires 0 <= wd < 7 && DayOf(t) <= n && WeekdayOf(n) == wd
    ensures FirstDay(t, wd) <= n
  {
  }

  lemma FirstDayFalls(t: int, wd: int)
    requires 0 <= wd < 7
    ensures WeekdayOf(FirstDay(t, wd)) == wd
  {
  }

  // t falls on the first such day or at least a week later.
  lemma FirstDayNoLater(ref: int, wd: int, t: int)
    requires 0 <= wd < 7 && ref <= t && WeekdayOf(DayOf(t)) == wd
    ensures var tim := Midnight(FirstDay(ref, wd)) + t % DAY;
            tim <= t && (tim < ref ==> tim + DAY <= t)
  {
    hide FirstDay, WeekdayOf;
    DayBounds(t);
    FirstDayIsFirst(ref, wd, DayOf(t));
    FirstDayFalls(ref, wd);
    SameWeekday(FirstDay(ref, wd), DayOf(t));
  }

  // Every due instant has a candidate no later than it.
  lemma DueHasCandidate(s: Schedule, w: Window, t: int) returns (c: int)
    requires WellFormed(s) && Due(s, w, t)
    ensures c in Candidates(s, w) && c <= t
  {
    hide Duration, FirstDay, CandidateAt, Candidates, WeekdayOf;
    var i :| 0 <= i < |s.weekdays| && s.weekdays[i] == WeekdayOf(DayOf(t));
    var j :| 0 <= j < |s.times| && Duration(s.times[j]) == t % DAY;
    c := CandidateAt(s, w, i, j);
    CandidateIs(s, w, i, j);
    CandidateAccepted(s, w, i, j);
    FirstDayNoLater(w.ref, s.weekdays[i], t);
  }

  lemma CandidateOrigin(s: Schedule, w: Window, c: int) returns (i: nat, j: nat)
    requires c in Candidates(s, w)
    ensures i < |s.weekdays| && j < |s.times| && CandidateAt(s, w, i, j) == c && Accepted(w, c)
  {
    RowsHave(s, w, |s.weekdays|, c);
    i, j :| 0 <= i < |s.weekdays| && 0 <= j < |s.times| && CandidateAt(s, w, i, j) == c && Accepted(w, c);
  }

  // ---- The result ----

  // The result lies in the week from the reference on and between the two midnights of the window.
  lemma NextRunWithin(s: Schedule, ref: int)
    requires WellFormed(s)
    ensures var w := WindowOf(s, ref); var r := NextRun(s, ref);
            r.Some? ==>
              && ref <= w.ref <= r.value < w.ref + 7 * DAY
              && (w.from.Some? ==> ToTime(w.from.value) <= r.value)
              && (w.to.Some? ==> r.value <= ToTime(w.to.value))
  {
    hide NextRun, Candidates, CandidateAt, ToTime, Unwrap;
    var w, r := WindowOf(s, ref), NextRun(s, ref);
    if r.Some? {
      var i, j := CandidateOrigin(s, w, r.value);
      CandidateIs(s, w, i, j);
    }
  }

  // The schedule's day of the reference is used up and the next day is not one of its weekdays, but the
  // window reaches the earliest time of that next day.
  ghost predicate RollsOver(s: Schedule, w: Window) {
    && OnWeekday(s, DayOf(w.ref))
    && !OnWeekday(s, DayOf(w.ref) + 1)
    && (forall j :: 0 <= j < |s.times| ==> Midnight(DayOf(w.ref)) + Duration(s.times[j]) < w.ref)
    && (exists j :: 0 <= j < |s.times| && NotTooLate(w, Midnight(DayOf(w.ref) + 1) + Duration(s.times[j])))
  }

  // The result is never later than the next due instant, so it is right exactly when it is due.
  lemma RightIfScheduled(s: Schedule, w: Window, r: Option<int>)
    requires WellFormed(s) && IsLeast(Candidates(s, w), r)
    ensures IsNextDue(s, w, r) <==> (r.Some? ==> ScheduledAt(s, r.value))
  {
    hide CandidateAt, Candidates, ScheduledAt;
    forall t | Due(s, w, t) ensures r.Some? && r.value <= t {
      var c := DueHasCandidate(s, w, t);
    }
    if r.Some? {
      var i, j := CandidateOrigin(s, w, r.value);
      CandidateIs(s, w, i, j);
    }
  }

  // A candidate is unscheduled only if it was rolled over to a day that is not one of the weekdays.
  lemma UnscheduledCandidate(s: Schedule, w: Window, i: nat, j: nat)
    requires WellFormed(s) && i < |s.weekdays| && j < |s.times|
    requires !ScheduledAt(s, CandidateAt(s, w, i, j))
    ensures OnWeekday(s, DayOf(w.ref)) && !OnWeekday(s, DayOf(w.ref) + 1)
    ensures CandidateAt(s, w, i, j) == Midnight(DayOf(w.ref) + 1) + Duration(s.times[j])
  {
    hide Duration, FirstDay, CandidateAt, WeekdayOf;
    CandidateIs(s, w, i, j);
    var n := FirstDay(w.ref, s.weekdays[i]);
    InstantOf(n, Duration(s.times[j]));
    InstantOf(n + 1, Duration(s.times[j]));
  }

  lemma TodayIsDue(s: Schedule, w: Window, l: nat)
    requires WellFormed(s) && l < |s.times| && OnWeekday(s, DayOf(w.ref))
    requires w.ref <= Midnight(DayOf(w.ref)) + Duration(s.times[l]) && Accepted(w, Midnight(DayOf(w.ref) + 1))
    ensures Due(s, w, Midnight(DayOf(w.ref)) + Duration(s.times[l]))
  {
    hide Duration, WeekdayOf;
    InstantOf(DayOf(w.ref), Duration(s.times[l]));
  }

  lemma RollOverIfWrong(s: Schedule, w: Window, r: int)
    requires WellFormed(s) && IsLeast(Candidates(s, w), Some(r)) && !ScheduledAt(s, r)
    ensures RollsOver(s, w)
  {
    hide Duration, FirstDay, CandidateAt, WeekdayOf, Candidates, ScheduledAt;
    var i, j := CandidateOrigin(s, w, r);
    UnscheduledCandidate(s, w, i, j);
    var today := DayOf(w.ref);
    forall l | 0 <= l < |s.times| ensures Midnight(today) + Duration(s.times[l]) < w.ref {
      var c := Midnight(today) + Duration(s.times[l]);
      if c >= w.ref {
        TodayIsDue(s, w, l);
        var d := DueHasCandidate(s, w, c);
      }
    }
  }

  // When the search rolls over, every time of the next day is a candidate, if the window reaches it.
  lemma RollOverOffers(s: Schedule, w: Window, j: nat)
    requires WellFormed(s) && RollsOver(s, w) && j < |s.times|
    requires Accepted(w, Midnight(DayOf(w.ref) + 1) + Duration(s.times[j]))
    ensures Midnight(DayOf(w.ref) + 1) + Duration(s.times[j]) in Candidates(s, w)
  {
    hide Duration, FirstDay, CandidateAt, WeekdayOf, Candidates;
    var today := DayOf(w.ref);
    var i :| 0 <= i < |s.weekdays| && s.weekdays[i] == WeekdayOf(today);
    CandidateIs(s, w, i, j);
    FirstDayIsFirst(w.ref, s.weekdays[i], today);
    CandidateAccepted(s, w, i, j);
  }

  // Only rolled-over candidates fall on the reference's own day or the next.
  lemma EarlyCandidateRolled(s: Schedule, w: Window, k: nat, l: nat)
    requires WellFormed(s) && RollsOver(s, w) && k < |s.weekdays| && l < |s.times|
    requires CandidateAt(s, w, k, l) < Midnight(DayOf(w.ref) + 2)
    ensures CandidateAt(s, w, k, l) == Midnight(DayOf(w.ref) + 1) + Duration(s.times[l])
  {
    hide Duration, FirstDay, CandidateAt, WeekdayOf;
    CandidateIs(s, w, k, l);
    FirstDayFalls(w.ref, s.weekdays[k]);
    assert FirstDay(w.ref, s.weekdays[k]) != DayOf(w.ref) + 1;
  }

  lemma WrongIfRollsOver(s: Schedule, w: Window, r: Option<int>)
    requires WellFormed(s) && IsLeast(Candidates(s, w), r) && RollsOver(s, w)
    ensures r.Some? && !ScheduledAt(s, r.value)
  {
    hide FirstDay, CandidateAt, WeekdayOf, Candidates, Duration;
    var tomorrow := DayOf(w.ref) + 1;
    var j :| 0 <= j < |s.times| && Accepted(w, Midnight(tomorrow) + Duration(s.times[j]));
    RollOverOffers(s, w, j);
    var k, l := CandidateOrigin(s, w, r.value);
    EarlyCandidateRolled(s, w, k, l);
    InstantOf(tomorrow, Duration(s.times[l]));
  }

  // The result is the intended next run, or None when there is none, if and only if the search does not
  // roll over.
  lemma NextRunIff(s: Schedule, ref: int)
    requires WellFormed(s)
    ensures IsNextDue(s, WindowOf(s, ref), NextRun(s, ref)) <==> !RollsOver(s, WindowOf(s, ref))
  {
    hide ScheduledAt, RollsOver, Candidates, IsNextDue, WindowOf, NextRun;
    var w, r := WindowOf(s, ref), NextRun(s, ref);
    RightIfScheduled(s, w, r);
    if RollsOver(s, w) {
      WrongIfRollsOver(s, w, r);
    } else if r.Some? && !ScheduledAt(s, r.value) {
      RollOverIfWrong(s, w, r.value);
    }
  }

  // What a roll-over returns: the earliest time of the day after the reference's.
  lemma RollOverResult(s: Schedule, ref: int)
    requires WellFormed(s)
    ensures var w := WindowOf(s, ref); var r := NextRun(s, ref);
            RollsOver(s, w) ==>
              && r.Some?
              && (exists j :: 0 <= j < |s.times| && r.value == Midnight(DayOf(w.ref) + 1) + Duration(s.times[j]))
              && (forall j :: 0 <= j < |s.times| ==> r.value <= Midnight(DayOf(w.ref) + 1) + Duration(s.times[j]))
  {
    hide FirstDay, CandidateAt, WeekdayOf, Candidates, ScheduledAt, WindowOf, NextRun, RollsOver;
    var w, r := WindowOf(s, ref), NextRun(s, ref);
    if RollsOver(s, w) {
      WrongIfRollsOver(s, w, r);
      var k, l := CandidateOrigin(s, w, r.value);
      UnscheduledCandidate(s, w, k, l);
      forall j | 0 <= j < |s.times| ensures r.value <= Midnight(DayOf(w.ref) + 1) + Duration(s.times[j]) {
        if Accepted(w, Midnight(DayOf(w.ref) + 1) + Duration(s.times[j])) { RollOverOffers(s, w, j); }
      }
    }
  }

  lemma SixteenthOfMay()
    ensures DayNumber(Date(2016, 5, 16)) == 736465
  {
    hide DayNumber;
    DayInMonth(Date(2016, 5, 16));
  }

  // Mondays at 8:30, asked on Monday 16 May 2016 at 9:00: the answer is a Tuesday.
  lemma RollOverHappens()
    ensures var s := Schedule([TimeOfDay(8, 30, 0, 0)], [1], None, None);
            var ref := ToTime(Date(2016, 5, 16)) + 9 * HOUR;
            WellFormed(s) && RollsOver(s, WindowOf(s, ref))
  {
    hide DayNumber, DateOf;
    var s := Schedule([TimeOfDay(8, 30, 0, 0)], [1], None, None);
    var n := DayNumber(Date(2016, 5, 16));
    SixteenthOfMay();
    InstantOf(n, 9 * HOUR);
    assert WeekdayOf(n) == 1 && WeekdayOf(n + 1) == 2;
    assert Duration(s.times[0]) == 8 * HOUR + 30 * MINUTE;
  }

  // ---- Windows that wrap round the end of the year ----

  ghost predicate Wraps(s: Schedule) {
    && s.from.Some? && s.to.Some? && s.from.value.year == 0 && s.to.value.year == 0
    && MonthAndDay(s.from.value) && MonthAndDay(s.to.value) && After(s.from.value, s.to.value)
  }

  function InYear(d: Date, y: int): Date {
    d.(year := y)
  }

  // The resolved From precedes To, one calendar year apart.
  lemma WrapResolves(s: Schedule, ref: int)
    requires Wraps(s)
    ensures var w := WindowOf(s, ref); var rd := DateFromTime(ref);
            && w.from.Some? && w.to.Some?
            && w.from.value == InYear(s.from.value, w.from.value.year)
            && w.to.value == InYear(s.to.value, w.from.value.year + 1)
            && DayNumber(w.from.value) < DayNumber(w.to.value)
            && w.from.value.year
               == if Before(rd, InYear(s.to.value, rd.year)) || After(rd, InYear(s.from.value, rd.year))
                  then rd.year - 1 else rd.year
  {
    hide DayNumber, DateOf;
    var w := WindowOf(s, ref);
    YearsApart(w.from.value, w.to.value);
  }

  // The year in which the intended window opens: the first annual window whose To date is still to come.
  function OpeningYear(s: Schedule, ref: int): int
    requires s.to.Some?
  {
    var rd := DateFromTime(ref);
    if Before(rd, InYear(s.to.value, rd.year)) then rd.year - 1 else rd.year
  }

  lemma OpeningYearIsFirst(s: Schedule, ref: int, k: int)
    requires Wraps(s)
    ensures After(InYear(s.to.value, k + 1), DateFromTime(ref)) <==> OpeningYear(s, ref) <= k
  {
    hide DateOf;
  }

  // The code resolves to the intended window if and only if the reference date is not after From in its year.
  lemma WindowIff(s: Schedule, ref: int)
    requires Wraps(s)
    ensures var w := WindowOf(s, ref); var rd := DateFromTime(ref);
            && w.from.Some?
            && (w.from.value.year == OpeningYear(s, ref) <==> !After(rd, InYear(s.from.value, rd.year)))
  {
    hide DayNumber, DateOf;
    WrapResolves(s, ref);
  }

  // A year-less date is real if some year has it: year 0 is a leap year.  In a common year 29 February is
  // taken for 1 March.
  lemma LeapDayCounts(d: Date)
    requires ValidDate(InYear(d, 0)) && !ValidDate(d)
    ensures d.month == 2 && d.day == 29 && ValidDate(Date(d.year, 3, 1))
    ensures DayNumber(d) == DayNumber(Date(d.year, 3, 1))
  {
    hide DaysBeforeYear;
  }

  // Real dates that are in order are days in order, save 29 February of a common year and the day after it.
  lemma RealDatesOrdered(d: Date, e: Date)
    requires ValidDate(InYear(d, 0)) && ValidDate(InYear(e, 0)) && After(d, e)
    ensures DayNumber(d) > DayNumber(e) || (!ValidDate(e) && d == Date(e.year, 3, 1))
  {
    hide DayNumber;
    var d', e' := if ValidDate(d) then d else Date(d.year, 3, 1), if ValidDate(e) then e else Date(e.year, 3, 1);
    if !ValidDate(d) { LeapDayCounts(d); }
    if !ValidDate(e) { LeapDayCounts(e); }
    AfterIsLater(d', e');
  }

  lemma DateOfDayOf(t: int)
    ensures ValidDate(DateFromTime(t)) && DayNumber(DateFromTime(t)) == DayOf(t)
  {
  }

  lemma ToIsPast(s: Schedule, rd: Date)
    requires Wraps(s) && ValidDate(rd) && After(rd, InYear(s.from.value, rd.year))
    requires ValidDate(InYear(s.to.value, rd.year)) || (ValidDate(s.to.value) && ValidDate(s.from.value))
    ensures DayNumber(InYear(s.to.value, rd.year)) < DayNumber(rd)
  {
    hide DayNumber;
    var to := InYear(s.to.value, rd.year);
    if ValidDate(to) {
      AfterIsLater(rd, to);
    } else {
      LeapDayCounts(to);
      AfterIsLater(rd, Date(rd.year, 3, 1));
    }
  }

  // When it is after, the window that has already closed is taken, and no run is found, although the
  // intended window is open.  The dates are real ones; or at least To is one that the year has.
  lemma OpenWindowMissed(s: Schedule, ref: int)
    requires WellFormed(s) && Wraps(s)
    ensures var rd := DateFromTime(ref);
            After(rd, InYear(s.from.value, rd.year))
            && (ValidDate(InYear(s.to.value, rd.year)) || (ValidDate(s.to.value) && ValidDate(s.from.value))) ==>
              && NextRun(s, ref) == None
              && After(rd, InYear(s.from.value, OpeningYear(s, ref)))
              && Before(rd, InYear(s.to.value, OpeningYear(s, ref) + 1))
  {
    hide DayNumber, DateOf, Candidates, Duration, NextRun, ValidDate;
    var rd := DateFromTime(ref);
    var to := InYear(s.to.value, rd.year);
    if After(rd, InYear(s.from.value, rd.year))
       && (ValidDate(to) || (ValidDate(s.to.value) && ValidDate(s.from.value))) {
      WrapResolves(s, ref);
      DateOfDayOf(ref);
      ToIsPast(s, rd);
      DayBounds(ref);
      assert WindowOf(s, ref).to.value == to;
      NextRunWithin(s, ref);
    }
  }

  // Otherwise the window is the one the reference lies in, or the next to open.
  lemma WindowContainsOrNext(s: Schedule, ref: int)
    requires Wraps(s)
    ensures var w := WindowOf(s, ref); var rd := DateFromTime(ref);
            !After(rd, InYear(s.from.value, rd.year)) ==>
              && w.from.Some? && w.to.Some?
              && Before(rd, w.to.value)
              && (Before(rd, InYear(s.to.value, rd.year)) ==> After(rd, w.from.value))
              && (!Before(rd, InYear(s.to.value, rd.year)) ==>
                    !After(rd, w.from.value) && !Before(rd, InYear(s.to.value, w.from.value.year)))
  {
    hide DayNumber, DateOf;
    WrapResolves(s, ref);
  }

  // ToTime and DateFromTime are inverse on valid dates.
  lemma ToTimeRoundTrip(d: Date)
    requires ValidDate(d)
    ensures DateFromTime(ToTime(d)) == d
  {
    hide DayNumber, DateOf;
    InstantOf(DayNumber(d), 0);
    DateOfDay(d);
  }

  lemma RealDates()
    ensures ValidDate(Date(2016, 12, 20)) && ValidDate(Date(2016, 1, 15))
  {
  }

  // 15 December to 15 January, asked on 20 December 2016.
  lemma OpenWindowMissedHappens(times: seq<TimeOfDay>, weekdays: seq<int>)
    requires WellFormed(Schedule(times, weekdays, None, None))
    ensures var s := Schedule(times, weekdays, Some(Date(0, 12, 15)), Some(Date(0, 1, 15)));
            NextRun(s, ToTime(Date(2016, 12, 20))) == None
  {
    hide Candidates, Duration, DayNumber, DateOf, ToTime, ValidDate, WindowOf, NextRun;
    var s := Schedule(times, weekdays, Some(Date(0, 12, 15)), Some(Date(0, 1, 15)));
    var d := Date(2016, 12, 20);
    RealDates();
    ToTimeRoundTrip(d);
    OpenWindowMissed(s, ToTime(d));
  }

  // ---- Dates written with their year ----

  // The year a date stands for: its own, or that of the reference date if it is written without one.
  function YearMeant(d: Date, ref: int): int {
    if d.year != 0 then d.year else DateFromTime(ref).year
  }

  function DateMeant(d: Date, ref: int): Date {
    InYear(d, YearMeant(d, ref))
  }

  // From comes after To once both have a year, and the reference date is, or is not, in the gap between them.
  predicate InGap(s: Schedule, ref: int) {
    && s.from.Some? && s.to.Some?
    && var from, to, rd := DateMeant(s.from.value, ref), DateMeant(s.to.value, ref), DateFromTime(ref);
       After(from, to) && !Before(rd, to) && !After(rd, from)
  }

  predicate OutsideGap(s: Schedule, ref: int) {
    && s.from.Some? && s.to.Some?
    && var from, to, rd := DateMeant(s.from.value, ref), DateMeant(s.to.value, ref), DateFromTime(ref);
       After(from, to) && (Before(rd, to) || After(rd, from))
  }

  // Days are in the order of their dates, as RealDatesOrdered has it.
  ghost predicate Ordered(s: Schedule, ref: int) {
    s.from.Some? && s.to.Some? ==>
      var from, to := DateMeant(s.from.value, ref), DateMeant(s.to.value, ref);
      After(from, to) ==> DayNumber(from) > DayNumber(to)
  }

  // A To written with its year is kept, and no run comes after it, if and only if the reference date is not
  // in the gap; else every run does.
  lemma WrittenToIff(s: Schedule, ref: int)
    requires WellFormed(s) && s.to.Some? && s.to.value.year != 0 && Ordered(s, ref)
    ensures WindowOf(s, ref).to == s.to <==> !InGap(s, ref)
    ensures var r := NextRun(s, ref); r.Some? ==> (r.value <= ToTime(s.to.value) <==> !InGap(s, ref))
  {
    hide DayNumber, DateOf, NextRun, DateFromTime;
    NextRunWithin(s, ref);
  }

  // Likewise for From: if the reference date lies outside the gap, every run comes before it.
  lemma WrittenFromIff(s: Schedule, ref: int)
    requires WellFormed(s) && s.from.Some? && s.from.value.year != 0 && Ordered(s, ref)
    ensures WindowOf(s, ref).from == s.from <==> !OutsideGap(s, ref)
    ensures var r := NextRun(s, ref); r.Some? ==> (r.value >= ToTime(s.from.value) <==> !OutsideGap(s, ref))
  {
    hide DayNumber, DateOf, NextRun, DateFromTime;
    NextRunWithin(s, ref);
  }

  // The first scheduled time on a weekday that the reference's own day falls on.
  lemma RunsToday(s: Schedule, ref: int)
    requires |s.times| == 1 && |s.weekdays| == 1 && WellFormed(s)
    requires var w := WindowOf(s, ref); var n := DayOf(w.ref);
             && s.weekdays[0] == WeekdayOf(n) && w.ref == Midnight(n)
             && Accepted(w, Midnight(n) + Duration(s.times[0]))
    ensures NextRun(s, ref) == Some(Midnight(DayOf(WindowOf(s, ref).ref)) + Duration(s.times[0]))
  {
    hide WindowOf, Duration, CandidateAt, WeekdayOf, Accepted;
    var w := WindowOf(s, ref);
    CandidateIs(s, w, 0, 0);
    FirstDayIsFirst(w.ref, s.weekdays[0], DayOf(w.ref));
    CandidateAccepted(s, w, 0, 0);
    var r := NextRun(s, ref);
    var i, j := CandidateOrigin(s, w, r.value);
  }

  lemma FifthOfJanuary()
    ensures DayNumber(Date(2016, 1, 5)) == 736333
  {
    hide DayNumber;
    DayInMonth(Date(2016, 1, 5));
  }

  lemma FirstOfDecember()
    ensures DayNumber(Date(2016, 12, 1)) == 736664
  {
    hide DayNumber;
    DayInMonth(Date(2016, 12, 1));
  }

  lemma WinterDates()
    ensures ValidDate(Date(2016, 1, 5)) && ValidDate(Date(2016, 1, 15)) && ValidDate(Date(2016, 2, 1))
    ensures ValidDate(Date(2016, 12, 1)) && ValidDate(Date(2017, 1, 15)) && ValidDate(Date(2015, 12, 1))
  {
  }

  // From 1 December to 15 January 2016, Thursdays at 8:00, asked on 1 February 2016: the next run is on
  // 1 December 2016.
  lemma WrittenToMissed()
    ensures var s := Schedule([TimeOfDay(8, 0, 0, 0)], [4], Some(Date(0, 12, 1)), Some(Date(2016, 1, 15)));
            NextRun(s, ToTime(Date(2016, 2, 1))) == Some(ToTime(Date(2016, 12, 1)) + 8 * HOUR)
  {
    hide DayNumber, DateOf, ValidDate, NextRun, DateFromTime;
    var s := Schedule([TimeOfDay(8, 0, 0, 0)], [4], Some(Date(0, 12, 1)), Some(Date(2016, 1, 15)));
    WinterDates();
    FirstOfDecember();
    ToTimeRoundTrip(Date(2016, 2, 1));
    AfterIsLater(Date(2016, 12, 1), Date(2016, 2, 1));
    AfterIsLater(Date(2017, 1, 15), Date(2016, 12, 1));
    InstantOf(736664, 0);
    RunsToday(s, ToTime(Date(2016, 2, 1)));
  }

  // From 1 December 2016 to 15 January, Tuesdays at 8:00, asked on 5 January 2016: the next run is that day.
  lemma WrittenFromMissed()
    ensures var s := Schedule([TimeOfDay(8, 0, 0, 0)], [2], Some(Date(2016, 12, 1)), Some(Date(0, 1, 15)));
            NextRun(s, ToTime(Date(2016, 1, 5))) == Some(ToTime(Date(2016, 1, 5)) + 8 * HOUR)
  {
    hide DayNumber, DateOf, ValidDate, NextRun, DateFromTime;
    var s := Schedule([TimeOfDay(8, 0, 0, 0)], [2], Some(Date(2016, 12, 1)), Some(Date(0, 1, 15)));
    WinterDates();
    FifthOfJanuary();
    ToTimeRoundTrip(Date(2016, 1, 5));
    AfterIsLater(Date(2016, 1, 5), Date(2015, 12, 1));
    AfterIsLater(Date(2016, 1, 15), Date(2016, 1, 5));
    InstantOf(736333, 0);
    RunsToday(s, ToTime(Date(2016, 1, 5)));
  }

  // ---- The window, for every schedule ----

  // Each bound keeps its month and day and gets the year it stands for, but for the year by which the
  // reference date's being in the gap moves To on, and its being outside moves From back.  The search starts
  // at the midnight of From, if that is still to come.
  lemma WindowIs(s: Schedule, ref: int)
    ensures var w := WindowOf(s, ref);
            && (w.from.Some? <==> s.from.Some?) && (w.to.Some? <==> s.to.Some?)
            && (s.to.Some? ==>
                  var to := s.to.value;
                  w.to.value == Date(YearMeant(to, ref) + if InGap(s, ref) then 1 else 0, to.month, to.day))
            && (s.from.Some? ==>
                  var from := s.from.value;
                  w.from.value
                  == Date(YearMeant(from, ref) - if OutsideGap(s, ref) then 1 else 0, from.month, from.day))
            && ref <= w.ref && (s.from.Some? ==> ToTime(w.from.value) <= w.ref)
            && (w.ref == ref || (s.from.Some? && w.ref == ToTime(w.from.value)))
  {
    hide DateFromTime, ToTime;
  }

  lemma SpringDates()
    ensures ValidDate(Date(2016, 5, 1)) && ValidDate(Date(2016, 12, 25))
  {
  }

  lemma FirstOfMay()
    ensures DayNumber(Date(2016, 5, 1)) == 736450
  {
    hide DayNumber;
    DayInMonth(Date(2016, 5, 1));
  }

  // A To alone: Sundays at 8:00 until 25 December, asked on 1 May 2016, a Sunday: the next run is that day.
  lemma ToAloneIsResolved()
    ensures var s := Schedule([TimeOfDay(8, 0, 0, 0)], [0], None, Some(Date(0, 12, 25)));
            NextRun(s, ToTime(Date(2016, 5, 1))) == Some(ToTime(Date(2016, 5, 1)) + 8 * HOUR)
  {
    hide DayNumber, DateOf, ValidDate, NextRun, DateFromTime;
    var s := Schedule([TimeOfDay(8, 0, 0, 0)], [0], None, Some(Date(0, 12, 25)));
    SpringDates();
    FirstOfMay();
    ToTimeRoundTrip(Date(2016, 5, 1));
    AfterIsLater(Date(2016, 12, 25), Date(2016, 5, 1));
    InstantOf(736450, 0);
    RunsToday(s, ToTime(Date(2016, 5, 1)));
  }

  // A run at the very midnight of To is taken.
  lemma MidnightOfToIsTaken(weekdays: seq<int>, ref: int)
    requires weekdays == [WeekdayOf(DayOf(ref))] && ref == Midnight(DayOf(ref))
    ensures var s := Schedule([TimeOfDay(0, 0, 0, 0)], weekdays, None, Some(DateFromTime(ref)));
            NextRun(s, ref) == Some(ref)
  {
    hide WeekdayOf, DayNumber, DateOf;
    var s := Schedule([TimeOfDay(0, 0, 0, 0)], weekdays, None, Some(DateFromTime(ref)));
    DateOfDayOf(ref);
    RunsToday(s, ref);
  }
}
