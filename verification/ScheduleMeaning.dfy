// What a written phrase says, in terms of clocks and calendars, and that the parsed schedule says the same.

module ScheduleMeaning {
  import opened Tokens
  import opened Grammar
  import opened Parser
  import opened Schedules
  import opened ScheduleTheorems

  // ---- The hour ----

  // The hours that a clock with am and pm has, 0 standing for 12; or any hour of the day.
  predicate OnClock(hour: nat, half: Half) {
    if half == Plain then hour < 24 else hour <= 12
  }

  // Of the two hours of the day at which such a clock shows this hour, the one before noon is am, and the one
  // from noon on is pm.
  predicate ShowsHour(hour: nat, half: Half, h: int) {
    match half
    case Plain => h == hour
    case Morning => 0 <= h < 12 && (h == hour || (h == 0 && hour == 12))
    case Evening => 12 <= h < 24 && (h == hour + 12 || (h == 12 && hour == 12))
  }

  lemma HourIsShown(hour: nat, half: Half, h: int)
    ensures 0 <= HourOf(hour, half) < 24
    ensures OnClock(hour, half) ==> (ShowsHour(hour, half, h) <==> h == HourOf(hour, half))
    ensures half == Plain ==> HourOf(hour, half) == hour % 24
    ensures half != Plain && 1 <= hour <= 12 ==>
              HourOf(hour, half) % 12 == hour % 12 && (HourOf(hour, half) < 12 <==> half == Morning)
    ensures half != Plain && hour > 12 ==> HourOf(hour, half) == (if half == Morning then hour else hour + 12) % 24
  {
  }

  // ---- Weekdays ----

  // The days of the week in the order in which they are numbered, Sunday being 0.
  const WEEK: seq<TokenType> := [SUN, MON, TUE, WED, THUR, FRI, SAT]

  lemma AllDaysOfOne(d: Days)
    ensures AllDays([d]) == match d case Single(a) => [a] case Through(a, b) => Cycle(a, b)
  {
    assert AllDays([d]) == AllDays([]) + DaysOf(d);
  }

  lemma WeekIsNumbered(k: nat)
    requires k < 7
    ensures ParseDays([Word(WEEK[k])]) == Got(Single(k), []) && WriteDays(Single(k)) == [Word(WEEK[k])]
    ensures AllDays([Single(k)]) == [k]
  {
    AllDaysOfOne(Single(k));
  }

  // A range goes on from Saturday to Sunday.
  predicate Covers(d: Days, w: int) {
    match d
    case Single(a) => w == a
    case Through(a, b) => if a <= b then a <= w <= b else a <= w || w <= b
  }

  lemma BackToDay(a: int, w: int)
    requires IsWeekday(a) && IsWeekday(w)
    ensures (a + (w - a) % 7) % 7 == w
  {
  }

  lemma DistanceIs(a: int, j: nat, w: int)
    requires IsWeekday(a) && j < 7 && (a + j) % 7 == w
    ensures (w - a) % 7 == j
  {
  }

  lemma CyclicOrder(a: int, b: int, w: int)
    requires IsWeekday(a) && IsWeekday(b) && IsWeekday(w)
    ensures (w - a) % 7 <= (b - a) % 7 <==> Covers(Through(a, b), w)
  {
  }

  lemma CycleCovers(a: int, b: int, w: int)
    requires IsWeekday(a) && IsWeekday(b) && IsWeekday(w)
    ensures w in Cycle(a, b) <==> Covers(Through(a, b), w)
  {
    hide Cycle;
    var k := (w - a) % 7;
    assert (a + k) % 7 == w by { BackToDay(a, w); }
    if k <= (b - a) % 7 { assert Cycle(a, b)[k] == w; }
    if w in Cycle(a, b) {
      var j :| 0 <= j < |Cycle(a, b)| && Cycle(a, b)[j] == w;
      assert (a + j) % 7 == w;
      DistanceIs(a, j, w);
    }
    CyclicOrder(a, b, w);
  }

  lemma DaysCover(d: Days, w: int)
    requires GoodDays(d) && IsWeekday(w)
    ensures w in DaysOf(d) <==> Covers(d, w)
  {
    hide Cycle;
    if d.Through? { CycleCovers(d.first, d.last, w); }
  }

  lemma {:induction false} AllDaysCover(ds: seq<Days>, w: int)
    requires (forall d :: d in ds ==> GoodDays(d)) && IsWeekday(w)
    ensures w in AllDays(ds) <==> exists d :: d in ds && Covers(d, w)
  {
    hide Covers, Cycle;
    if ds != [] {
      var n := |ds| - 1;
      AllDaysCover(ds[..n], w);
      assert ds == ds[..n] + [ds[n]];
      DaysCover(ds[n], w);
      assert w in AllDays(ds) <==> w in AllDays(ds[..n]) || w in DaysOf(ds[n]);
    }
  }

  // The days of a list are those of its ranges, one after the other, each in order.
  lemma {:induction false} AllDaysInOrder(ds: seq<Days>, es: seq<Days>)
    ensures AllDays(ds + es) == AllDays(ds) + AllDays(es)
  {
    hide DaysOf;
    if es == [] {
      assert ds + es == ds;
    } else {
      var n := |es| - 1;
      var all := ds + es;
      assert all[..|all| - 1] == ds + es[..n] && all[|all| - 1] == es[n];
      AllDaysInOrder(ds, es[..n]);
    }
  }

  // ---- Times of day ----

  predicate ShowsRest(d: Digits, m: int, s: int) {
    match d
    case H(_) => m == 0 && s == 0
    case HM(_, minute) => m == minute && s == 0
    case HMS(_, minute, second) => m == minute && s == second
  }

  // A wall clock shows c exactly at instant t.
  predicate Shows(c: Clock, t: int) {
    var intoHour := t % C.DAY % C.HOUR;
    var intoMinute := intoHour % C.MINUTE;
    && ShowsHour(c.digits.hour, c.half, t % C.DAY / C.HOUR)
    && ShowsRest(c.digits, intoHour / C.MINUTE, intoMinute / C.SECOND)
    && intoMinute % C.SECOND == 0
  }

  // A time that a wall clock can show.
  predicate Ordinary(c: Clock) {
    OnClock(c.digits.hour, c.half)
    && match c.digits
       case H(_) => true
       case HM(_, minute) => minute < 60
       case HMS(_, minute, second) => minute < 60 && second < 60
  }

  lemma Fields(d: int)
    requires 0 <= d < C.DAY
    ensures var x := d % C.HOUR; var y := x % C.MINUTE;
            && 0 <= d / C.HOUR < 24 && 0 <= x / C.MINUTE < 60 && 0 <= y / C.SECOND < 60
            && d == d / C.HOUR * C.HOUR + x / C.MINUTE * C.MINUTE + y / C.SECOND * C.SECOND + y % C.SECOND
  {
  }

  lemma HourAndRest(h: int, x: int)
    requires 0 <= x < C.HOUR
    ensures (h * C.HOUR + x) / C.HOUR == h && (h * C.HOUR + x) % C.HOUR == x
  {
  }

  lemma MinuteAndRest(m: int, y: int)
    requires 0 <= y < C.MINUTE
    ensures (m * C.MINUTE + y) / C.MINUTE == m && (m * C.MINUTE + y) % C.MINUTE == y
  {
  }

  lemma FieldsOf(h: int, m: int, s: int)
    requires 0 <= h < 24 && 0 <= m < 60 && 0 <= s < 60
    ensures var d := h * C.HOUR + m * C.MINUTE + s * C.SECOND; var x := d % C.HOUR; var y := x % C.MINUTE;
            d / C.HOUR == h && x / C.MINUTE == m && y / C.SECOND == s && y % C.SECOND == 0
  {
    HourAndRest(h, m * C.MINUTE + s * C.SECOND);
    MinuteAndRest(m, s * C.SECOND);
  }

  lemma TimeIsShown(c: Clock, t: int)
    requires Ordinary(c)
    ensures Shows(c, t) <==> t % C.DAY == Duration(TimeOf(c))
  {
    hide ShowsHour, OnClock, HourOf;
    var d := t % C.DAY;
    var h := HourOf(c.digits.hour, c.half);
    HourIsShown(c.digits.hour, c.half, d / C.HOUR);
    HourIsShown(c.digits.hour, c.half, h);
    Fields(d);
    FieldsOf(h, MinuteOf(c.digits), SecondOf(c.digits));
  }

  lemma TimesShown(p: Phrase, s: Schedule, t: int)
    requires s.times == TimesOf(p.times)
    requires forall c :: c in p.times ==> (Shows(c, t) <==> t % C.DAY == Duration(TimeOf(c)))
    ensures (exists j :: 0 <= j < |s.times| && Duration(s.times[j]) == t % C.DAY)
            <==> exists c :: c in p.times && Shows(c, t)
  {
    hide Shows, Duration, TimeOf;
    if j :| 0 <= j < |s.times| && Duration(s.times[j]) == t % C.DAY {
      assert p.times[j] in p.times;
    }
    if c :| c in p.times && Shows(c, t) {
      var j :| 0 <= j < |p.times| && p.times[j] == c;
      assert s.times[j] == TimeOf(c);
    }
  }

  // A parsed schedule wants to run exactly when the weekday is covered by one of the written ranges, if any
  // are written, and the clock shows one of the written times.
  lemma ParsedRuns(p: Phrase, nowYear: nat, t: int)
    requires Good(p) && forall c :: c in p.times ==> Ordinary(c)
    ensures ScheduledAt(ScheduleOf(p, nowYear), t)
            <==> && (p.days.None? || exists d :: d in p.days.value && Covers(d, C.WeekdayOf(C.DayOf(t))))
                 && (exists c :: c in p.times && Shows(c, t))
  {
    hide AllDays, Covers, Shows, Duration, TimeOf, Ordinary, C.WeekdayOf;
    var s, w := ScheduleOf(p, nowYear), C.WeekdayOf(C.DayOf(t));
    if p.days.Some? { AllDaysCover(p.days.value, w); }
    forall c | c in p.times ensures Shows(c, t) <==> t % C.DAY == Duration(TimeOf(c)) {
      TimeIsShown(c, t);
    }
    TimesShown(p, s, t);
  }

  // ---- The window ----

  // A year of two digits is the one of the present century that ends in them; a longer one is itself; none
  // is any year.
  predicate DateSays(d: Day, nowYear: nat, date: C.Date) {
    && date.month == d.month && date.day == d.day
    && match d.year
       case None => date.year == 0
       case Some(y) => if y >= 100 then date.year == y
                       else date.year % 100 == y && date.year / 100 == nowYear / 100
  }

  lemma DateIsSaid(d: Day, nowYear: nat)
    ensures DateSays(d, nowYear, Parser.DateOf(d, nowYear))
  {
    if d.year.Some? && d.year.value < 100 {
      var c := nowYear / 100;
      assert (d.year.value + c * 100) / 100 == c;
    }
  }

  lemma ParsedWindow(p: Phrase, nowYear: nat)
    ensures var s := ScheduleOf(p, nowYear);
            && (s.from.Some? <==> p.from.Some?) && (s.to.Some? <==> p.to.Some?)
            && (p.from.Some? ==> DateSays(p.from.value, nowYear, s.from.value))
            && (p.to.Some? ==> DateSays(p.to.value, nowYear, s.to.value))
  {
    if p.from.Some? { DateIsSaid(p.from.value, nowYear); }
    if p.to.Some? { DateIsSaid(p.to.value, nowYear); }
  }
}
