// The language of schedule texts: a grammar, given by how its phrases are written, and the recursive-descent
// parser as functions on symbols.

module Grammar {
  import opened Wrappers
  import opened Tokens

  // A token without its position; a number stands for an INT token.
  datatype Sym = Num(n: nat) | Word(ty: TokenType)

  // ---- Phrases ----

  datatype Half = Plain | Morning | Evening

  datatype Digits = H(hour: nat) | HM(hour: nat, minute: nat) | HMS(hour: nat, minute: nat, second: nat)

  datatype Clock = Clock(digits: Digits, half: Half)

  // 0 is Sunday.
  datatype Days = Single(day: int) | Through(first: int, last: int)

  // The first slash of a date may be missing.
  datatype Day = Day(month: nat, slash: bool, day: nat, year: Option<nat>)

  datatype Phrase = Phrase(times: seq<Clock>, days: Option<seq<Days>>, from: Option<Day>, to: Option<Day>)

  predicate IsWeekday(d: int) {
    0 <= d < 7
  }

  predicate GoodDays(d: Days) {
    match d
    case Single(a) => IsWeekday(a)
    case Through(a, b) => IsWeekday(a) && IsWeekday(b)
  }

  predicate Good(p: Phrase) {
    p.times != [] && (p.days.Some? ==> p.days.value != [] && forall d :: d in p.days.value ==> GoodDays(d))
  }

  // ---- How phrases are written ----

  function WriteHalf(h: Half): seq<Sym> {
    match h
    case Plain => []
    case Morning => [Word(AM)]
    case Evening => [Word(PM)]
  }

  function WriteDigits(d: Digits): seq<Sym> {
    match d
    case H(h) => [Num(h)]
    case HM(h, m) => [Num(h), Word(COLON), Num(m)]
    case HMS(h, m, s) => [Num(h), Word(COLON), Num(m), Word(COLON), Num(s)]
  }

  function WriteClock(c: Clock): seq<Sym> {
    WriteDigits(c.digits) + WriteHalf(c.half)
  }

  function WriteTimes(cs: seq<Clock>): seq<Sym>
    requires cs != []
  {
    if |cs| == 1 then WriteClock(cs[0]) else WriteClock(cs[0]) + ([Word(AND)] + WriteTimes(cs[1..]))
  }

  function WeekdayType(d: int): TokenType {
    match d
    case 0 => SUN
    case 1 => MON
    case 2 => TUE
    case 3 => WED
    case 4 => THUR
    case 5 => FRI
    case _ => SAT
  }

  function WriteDays(d: Days): seq<Sym> {
    match d
    case Single(a) => [Word(WeekdayType(a))]
    case Through(a, b) => [Word(WeekdayType(a)), Word(THROUGH), Word(WeekdayType(b))]
  }

  function WriteRanges(ds: seq<Days>): seq<Sym>
    requires ds != []
  {
    if |ds| == 1 then WriteDays(ds[0]) else WriteDays(ds[0]) + ([Word(AND)] + WriteRanges(ds[1..]))
  }

  function WriteYear(year: Option<nat>): seq<Sym> {
    match year
    case None => []
    case Some(y) => [Word(SLASH), Num(y)]
  }

  function WriteDay(d: Day): seq<Sym> {
    [Num(d.month)] + ((if d.slash then [Word(SLASH)] else []) + ([Num(d.day)] + WriteYear(d.year)))
  }

  function WriteOn(days: Option<seq<Days>>): seq<Sym>
    requires days.Some? ==> days.value != []
  {
    match days
    case None => []
    case Some(ds) => [Word(ON)] + WriteRanges(ds)
  }

  function WriteLimit(ty: TokenType, d: Option<Day>): seq<Sym> {
    match d
    case None => []
    case Some(day) => [Word(ty)] + WriteDay(day)
  }

  function Write(p: Phrase): seq<Sym>
    requires Good(p)
  {
    [Word(AT)] + (WriteTimes(p.times) + (WriteOn(p.days) + (WriteLimit(FROM, p.from) + WriteLimit(TO, p.to))))
  }

  // ---- The parser ----

  // What was parsed and what is left, or the symbols from where the parser stopped.
  datatype Parsed<+T> = Fail(at: seq<Sym>) | Got(value: T, rest: seq<Sym>)

  predicate Is(s: seq<Sym>, ty: TokenType) {
    s != [] && s[0] == Word(ty)
  }

  // AND is taken only when something other than AT follows it.
  predicate More(s: seq<Sym>) {
    Is(s, AND) && |s| > 1 && s[1] != Word(AT)
  }

  function ParseNum(s: seq<Sym>): Parsed<nat> {
    if s != [] && s[0].Num? then Got(s[0].n, s[1..]) else Fail(s)
  }

  function ParseHalf(s: seq<Sym>): (Half, seq<Sym>) {
    if Is(s, AM) then (Morning, s[1..]) else if Is(s, PM) then (Evening, s[1..]) else (Plain, s)
  }

  function ParseDigits(s: seq<Sym>): (r: Parsed<Digits>)
    ensures r.Got? ==> |r.rest| < |s|
  {
    match ParseNum(s)
    case Fail(at) => Fail(at)
    case Got(h, a) =>
      if !Is(a, COLON) then Got(H(h), a)
      else
        match ParseNum(a[1..])
        case Fail(at) => Fail(at)
        case Got(m, b) =>
          if !Is(b, COLON) then Got(HM(h, m), b)
          else
            match ParseNum(b[1..])
            case Fail(at) => Fail(at)
            case Got(sec, c) => Got(HMS(h, m, sec), c)
  }

  function ParseClock(s: seq<Sym>): (r: Parsed<Clock>)
    ensures r.Got? ==> |r.rest| < |s|
  {
    match ParseDigits(s)
    case Fail(at) => Fail(at)
    case Got(d, a) => var (half, rest) := ParseHalf(a); Got(Clock(d, half), rest)
  }

  function ParseTimes(s: seq<Sym>): (r: Parsed<seq<Clock>>)
    ensures r.Got? ==> r.value != [] && |r.rest| < |s|
    decreases |s|
  {
    match ParseClock(s)
    case Fail(at) => Fail(at)
    case Got(c, a) =>
      if !More(a) then Got([c], a)
      else
        match ParseTimes(a[1..])
        case Fail(at) => Fail(at)
        case Got(cs, rest) => Got([c] + cs, rest)
  }

  function WeekdayOfType(ty: TokenType): Option<int> {
    match ty
    case SUN => Some(0)
    case MON => Some(1)
    case TUE => Some(2)
    case WED => Some(3)
    case THUR => Some(4)
    case FRI => Some(5)
    case SAT => Some(6)
    case _ => None
  }

  function ParseWeekday(s: seq<Sym>): Parsed<int> {
    if s != [] && s[0].Word? && WeekdayOfType(s[0].ty).Some? then Got(WeekdayOfType(s[0].ty).value, s[1..])
    else Fail(s)
  }

  function ParseDays(s: seq<Sym>): (r: Parsed<Days>)
    ensures r.Got? ==> |r.rest| < |s|
  {
    match ParseWeekday(s)
    case Fail(at) => Fail(at)
    case Got(a, rest) =>
      if !Is(rest, THROUGH) then Got(Single(a), rest)
      else
        match ParseWeekday(rest[1..])
        case Fail(at) => Fail(at)
        case Got(b, rest') => Got(Through(a, b), rest')
  }

  function ParseRanges(s: seq<Sym>): (r: Parsed<seq<Days>>)
    ensures r.Got? ==> r.value != [] && |r.rest| < |s|
    decreases |s|
  {
    match ParseDays(s)
    case Fail(at) => Fail(at)
    case Got(d, a) =>
      if !More(a) then Got([d], a)
      else
        match ParseRanges(a[1..])
        case Fail(at) => Fail(at)
        case Got(ds, rest) => Got([d] + ds, rest)
  }

  function SkipSlash(s: seq<Sym>): seq<Sym> {
    if Is(s, SLASH) then s[1..] else s
  }

  function ParseYear(s: seq<Sym>): Parsed<Option<nat>> {
    if !Is(s, SLASH) then Got(None, s)
    else
      match ParseNum(s[1..])
      case Fail(at) => Fail(at)
      case Got(year, rest) => Got(Some(year), rest)
  }

  // The error of a missing first slash is overwritten, so the slash is in effect optional.
  function ParseDay(s: seq<Sym>): Parsed<Day> {
    match ParseNum(s)
    case Fail(at) => Fail(at)
    case Got(month, a) =>
      match ParseNum(SkipSlash(a))
      case Fail(at) => Fail(at)
      case Got(day, b) =>
        match ParseYear(b)
        case Fail(at) => Fail(at)
        case Got(year, rest) => Got(Day(month, Is(a, SLASH), day, year), rest)
  }

  function ParseOn(s: seq<Sym>): Parsed<Option<seq<Days>>> {
    if !Is(s, ON) then Got(None, s)
    else
      match ParseRanges(s[1..])
      case Fail(at) => Fail(at)
      case Got(ds, rest) => Got(Some(ds), rest)
  }

  function ParseLimit(s: seq<Sym>, ty: TokenType): Parsed<Option<Day>> {
    if !Is(s, ty) then Got(None, s)
    else
      match ParseDay(s[1..])
      case Fail(at) => Fail(at)
      case Got(d, rest) => Got(Some(d), rest)
  }

  function Parse(s: seq<Sym>): Parsed<Phrase> {
    if !Is(s, AT) then Fail(s)
    else
      match ParseTimes(s[1..])
      case Fail(at) => Fail(at)
      case Got(times, a) =>
        match ParseOn(a)
        case Fail(at) => Fail(at)
        case Got(days, b) =>
          match ParseLimit(b, FROM)
          case Fail(at) => Fail(at)
          case Got(from, c) =>
            match ParseLimit(c, TO)
            case Fail(at) => Fail(at)
            case Got(to, rest) => Got(Phrase(times, days, from, to), rest)
  }

  // ---- Soundness: what is parsed is what was written ----

  lemma NumSound(s: seq<Sym>)
    ensures var r := ParseNum(s); r.Got? ==> s == [Num(r.value)] + r.rest
  {
  }

  lemma IsFirst(s: seq<Sym>, ty: TokenType)
    requires Is(s, ty)
    ensures s == [Word(ty)] + s[1..]
  {
  }

  lemma HalfSound(s: seq<Sym>)
    ensures var (h, rest) := ParseHalf(s); s == WriteHalf(h) + rest
  {
  }

  lemma DigitsSound(s: seq<Sym>)
    ensures var r := ParseDigits(s); r.Got? ==> s == WriteDigits(r.value) + r.rest
  {
    NumSound(s);
    if ParseNum(s).Got? {
      var a := ParseNum(s).rest;
      if Is(a, COLON) && ParseNum(a[1..]).Got? {
        NumSound(a[1..]);
        var b := ParseNum(a[1..]).rest;
        if Is(b, COLON) && ParseNum(b[1..]).Got? {
          NumSound(b[1..]);
        }
      }
    }
  }

  lemma ClockSound(s: seq<Sym>)
    ensures var r := ParseClock(s); r.Got? ==> s == WriteClock(r.value) + r.rest
  {
    DigitsSound(s);
    if ParseDigits(s).Got? {
      HalfSound(ParseDigits(s).rest);
    }
  }

  lemma {:induction false} TimesSound(s: seq<Sym>)
    ensures var r := ParseTimes(s); r.Got? ==> s == WriteTimes(r.value) + r.rest
    decreases |s|
  {
    hide ParseClock, WriteClock;
    ClockSound(s);
    if ParseClock(s).Got? {
      var c, a := ParseClock(s).value, ParseClock(s).rest;
      if More(a) {
        IsFirst(a, AND);
        TimesSound(a[1..]);
        var r := ParseTimes(a[1..]);
        if r.Got? {
          assert ([c] + r.value)[1..] == r.value;
          assert s == WriteClock(c) + ([Word(AND)] + WriteTimes(r.value)) + r.rest;
        }
      }
    }
  }

  lemma DaysSound(s: seq<Sym>)
    ensures var r := ParseDays(s); r.Got? ==> GoodDays(r.value) && s == WriteDays(r.value) + r.rest
  {
    if ParseWeekday(s).Got? {
      var a := ParseWeekday(s).rest;
      assert s == [s[0]] + a;
      if Is(a, THROUGH) && ParseWeekday(a[1..]).Got? {
        IsFirst(a, THROUGH);
        assert a[1..] == [a[1]] + ParseWeekday(a[1..]).rest;
      }
    }
  }

  lemma {:induction false} RangesSound(s: seq<Sym>)
    ensures var r := ParseRanges(s);
            r.Got? ==> s == WriteRanges(r.value) + r.rest && forall d :: d in r.value ==> GoodDays(d)
    decreases |s|
  {
    hide ParseDays, WriteDays, GoodDays;
    DaysSound(s);
    if ParseDays(s).Got? {
      var d, a := ParseDays(s).value, ParseDays(s).rest;
      if More(a) {
        IsFirst(a, AND);
        RangesSound(a[1..]);
        var r := ParseRanges(a[1..]);
        if r.Got? {
          assert ([d] + r.value)[1..] == r.value;
          assert s == WriteDays(d) + ([Word(AND)] + WriteRanges(r.value)) + r.rest;
        }
      }
    }
  }

  lemma YearSound(s: seq<Sym>)
    ensures var r := ParseYear(s); r.Got? ==> s == WriteYear(r.value) + r.rest
  {
    if Is(s, SLASH) {
      IsFirst(s, SLASH);
      NumSound(s[1..]);
    }
  }

  lemma DaySound(s: seq<Sym>)
    ensures var r := ParseDay(s); r.Got? ==> s == WriteDay(r.value) + r.rest
  {
    hide ParseNum, ParseYear, WriteYear;
    NumSound(s);
    if ParseNum(s).Got? {
      var a := ParseNum(s).rest;
      if Is(a, SLASH) { IsFirst(a, SLASH); }
      NumSound(SkipSlash(a));
      if ParseNum(SkipSlash(a)).Got? {
        YearSound(ParseNum(SkipSlash(a)).rest);
      }
    }
  }

  lemma LimitSound(s: seq<Sym>, ty: TokenType)
    ensures var r := ParseLimit(s, ty); r.Got? ==> s == WriteLimit(ty, r.value) + r.rest
  {
    hide ParseDay, WriteDay;
    if Is(s, ty) {
      IsFirst(s, ty);
      DaySound(s[1..]);
    }
  }

  lemma OnSound(s: seq<Sym>)
    ensures var r := ParseOn(s);
            r.Got? ==> (r.value.Some? ==> r.value.value != [] && forall d :: d in r.value.value ==> GoodDays(d))
                       && s == WriteOn(r.value) + r.rest
  {
    if Is(s, ON) {
      IsFirst(s, ON);
      RangesSound(s[1..]);
    }
  }

  lemma ParseSound(s: seq<Sym>)
    ensures var r := Parse(s); r.Got? ==> Good(r.value) && s == Write(r.value) + r.rest
  {
    hide WriteTimes, WriteOn, WriteLimit, ParseTimes, ParseOn, ParseLimit;
    var r := Parse(s);
    if r.Got? {
      IsFirst(s, AT);
      TimesSound(s[1..]);
      var a := ParseTimes(s[1..]).rest;
      OnSound(a);
      var b := ParseOn(a).rest;
      LimitSound(b, FROM);
      LimitSound(ParseLimit(b, FROM).rest, TO);
    }
  }

  // ---- Completeness: what was written is parsed, and as nothing else ----

  // Nothing that a phrase ending here would still take.
  predicate Stop(s: seq<Sym>) {
    !Is(s, COLON) && !Is(s, AM) && !Is(s, PM) && !Is(s, THROUGH) && !Is(s, SLASH) && !More(s)
  }

  lemma HalfComplete(h: Half, rest: seq<Sym>)
    requires !Is(rest, AM) && !Is(rest, PM)
    ensures ParseHalf(WriteHalf(h) + rest) == (h, rest)
  {
    assert h == Plain ==> WriteHalf(h) + rest == rest;
    assert h != Plain ==> (WriteHalf(h) + rest)[1..] == rest;
  }

  lemma DigitsComplete(d: Digits, t: seq<Sym>)
    requires !Is(t, COLON)
    ensures ParseDigits(WriteDigits(d) + t) == Got(d, t)
  {
    var s := WriteDigits(d) + t;
    match d
    case H(h) => assert s[1..] == t;
    case HM(h, m) =>
      assert s[1..] == [Word(COLON), Num(m)] + t;
      assert s[1..][1..] == [Num(m)] + t;
      assert ([Num(m)] + t)[1..] == t;
    case HMS(h, m, sec) =>
      assert s[1..] == [Word(COLON), Num(m), Word(COLON), Num(sec)] + t;
      assert s[1..][1..] == [Num(m), Word(COLON), Num(sec)] + t;
      assert s[1..][1..][1..] == [Word(COLON), Num(sec)] + t;
      assert s[1..][1..][1..][1..] == [Num(sec)] + t;
      assert ([Num(sec)] + t)[1..] == t;
  }

  lemma ClockComplete(c: Clock, rest: seq<Sym>)
    requires !Is(rest, COLON) && !Is(rest, AM) && !Is(rest, PM)
    ensures ParseClock(WriteClock(c) + rest) == Got(c, rest)
  {
    var t := WriteHalf(c.half) + rest;
    assert !Is(t, COLON);
    assert WriteClock(c) + rest == WriteDigits(c.digits) + t;
    DigitsComplete(c.digits, t);
    HalfComplete(c.half, rest);
  }

  lemma TimesStart(cs: seq<Clock>, rest: seq<Sym>)
    requires cs != []
    ensures WriteTimes(cs) + rest != [] && (WriteTimes(cs) + rest)[0].Num?
  {
    assert WriteClock(cs[0]) != [] && WriteClock(cs[0])[0].Num?;
  }

  lemma {:induction false} TimesComplete(cs: seq<Clock>, rest: seq<Sym>)
    requires cs != [] && Stop(rest)
    ensures ParseTimes(WriteTimes(cs) + rest) == Got(cs, rest)
    decreases |cs|
  {
    hide ParseClock, WriteClock;
    var s := WriteTimes(cs) + rest;
    if |cs| == 1 {
      ClockComplete(cs[0], rest);
      assert cs == [cs[0]];
    } else {
      var u := WriteTimes(cs[1..]) + rest;
      assert s == WriteClock(cs[0]) + ([Word(AND)] + u);
      TimesStart(cs[1..], rest);
      ClockComplete(cs[0], [Word(AND)] + u);
      assert ([Word(AND)] + u)[1..] == u;
      TimesComplete(cs[1..], rest);
      assert [cs[0]] + cs[1..] == cs;
    }
  }

  lemma WeekdayTypes(d: int)
    requires IsWeekday(d)
    ensures WeekdayOfType(WeekdayType(d)) == Some(d) && WeekdayType(d) != AT
  {
  }

  lemma DaysComplete(d: Days, rest: seq<Sym>)
    requires GoodDays(d) && !Is(rest, THROUGH)
    ensures ParseDays(WriteDays(d) + rest) == Got(d, rest)
  {
    hide WeekdayType, WeekdayOfType;
    var s := WriteDays(d) + rest;
    match d
    case Single(a) =>
      WeekdayTypes(a);
      assert s[1..] == rest;
    case Through(a, b) =>
      WeekdayTypes(a);
      WeekdayTypes(b);
      assert s[1..] == [Word(THROUGH), Word(WeekdayType(b))] + rest;
      assert s[1..][1..] == [Word(WeekdayType(b))] + rest;
      assert s[1..][1..][1..] == rest;
  }

  lemma RangesStart(ds: seq<Days>, rest: seq<Sym>)
    requires ds != []
    ensures WriteRanges(ds) + rest != [] && (WriteRanges(ds) + rest)[0] != Word(AT)
  {
    assert WriteDays(ds[0]) != [] && WriteDays(ds[0])[0] != Word(AT);
  }

  lemma {:induction false} RangesComplete(ds: seq<Days>, rest: seq<Sym>)
    requires ds != [] && (forall d :: d in ds ==> GoodDays(d)) && Stop(rest)
    ensures ParseRanges(WriteRanges(ds) + rest) == Got(ds, rest)
    decreases |ds|
  {
    hide ParseDays, WriteDays;
    var s := WriteRanges(ds) + rest;
    if |ds| == 1 {
      DaysComplete(ds[0], rest);
      assert ds == [ds[0]];
    } else {
      var u := WriteRanges(ds[1..]) + rest;
      assert s == WriteDays(ds[0]) + ([Word(AND)] + u);
      RangesStart(ds[1..], rest);
      DaysComplete(ds[0], [Word(AND)] + u);
      assert ([Word(AND)] + u)[1..] == u;
      RangesComplete(ds[1..], rest);
      assert [ds[0]] + ds[1..] == ds;
    }
  }

  lemma NumComplete(n: nat, rest: seq<Sym>)
    ensures ParseNum([Num(n)] + rest) == Got(n, rest)
  {
  }

  lemma YearComplete(year: Option<nat>, rest: seq<Sym>)
    requires !Is(rest, SLASH)
    ensures ParseYear(WriteYear(year) + rest) == Got(year, rest)
  {
    match year
    case None => assert [] + rest == rest;
    case Some(y) =>
      assert (WriteYear(year) + rest)[1..] == [Num(y)] + rest;
      NumComplete(y, rest);
  }

  lemma DayComplete(d: Day, rest: seq<Sym>)
    requires !Is(rest, SLASH)
    ensures ParseDay(WriteDay(d) + rest) == Got(d, rest)
  {
    hide ParseNum;
    hide ParseYear, WriteYear;
    var b := WriteYear(d.year) + rest;
    var a := (if d.slash then [Word(SLASH)] else []) + ([Num(d.day)] + b);
    assert WriteDay(d) + rest == [Num(d.month)] + a;
    NumComplete(d.month, a);
    assert SkipSlash(a) == [Num(d.day)] + b && Is(a, SLASH) == d.slash;
    NumComplete(d.day, b);
    YearComplete(d.year, rest);
  }

  lemma LimitComplete(ty: TokenType, d: Option<Day>, rest: seq<Sym>)
    requires Stop(rest) && (d.None? ==> !Is(rest, ty))
    requires ty != AND && ty != COLON && ty != AM && ty != PM && ty != THROUGH && ty != SLASH
    ensures ParseLimit(WriteLimit(ty, d) + rest, ty) == Got(d, rest)
    ensures Stop(WriteLimit(ty, d) + rest)
    ensures forall k :: k != ty && !Is(rest, k) ==> !Is(WriteLimit(ty, d) + rest, k)
  {
    hide ParseDay, WriteDay;
    var s := WriteLimit(ty, d) + rest;
    match d
    case None => assert s == rest;
    case Some(day) =>
      assert s == [Word(ty)] + (WriteDay(day) + rest);
      assert s[1..] == WriteDay(day) + rest;
      DayComplete(day, rest);
  }

  lemma OnComplete(days: Option<seq<Days>>, rest: seq<Sym>)
    requires days.Some? ==> days.value != [] && forall d :: d in days.value ==> GoodDays(d)
    requires Stop(rest) && !Is(rest, ON)
    ensures ParseOn(WriteOn(days) + rest) == Got(days, rest)
    ensures Stop(WriteOn(days) + rest)
  {
    hide ParseRanges, WriteRanges;
    var s := WriteOn(days) + rest;
    match days
    case None => assert s == rest;
    case Some(ds) =>
      assert s == [Word(ON)] + (WriteRanges(ds) + rest);
      assert s[1..] == WriteRanges(ds) + rest;
      RangesComplete(ds, rest);
  }

  lemma ParseComplete(p: Phrase, rest: seq<Sym>)
    requires Good(p) && Stop(rest) && !Is(rest, ON) && !Is(rest, FROM) && !Is(rest, TO)
    ensures Parse(Write(p) + rest) == Got(p, rest)
  {
    hide ParseTimes, ParseOn, ParseLimit, WriteTimes, WriteOn, WriteLimit;
    var c := WriteLimit(TO, p.to) + rest;
    var b := WriteLimit(FROM, p.from) + c;
    var a := WriteOn(p.days) + b;
    LimitComplete(TO, p.to, rest);
    LimitComplete(FROM, p.from, c);
    OnComplete(p.days, b);
    TimesComplete(p.times, a);
    var s := Write(p) + rest;
    assert s == [Word(AT)] + (WriteTimes(p.times) + a);
    assert s[1..] == WriteTimes(p.times) + a;
  }

  // ---- The language ----

  // A symbol list is accepted if the parser takes all of it but the final EOF.
  predicate Accepted(s: seq<Sym>) {
    Parse(s).Got? && Parse(s).rest == [Word(EOF)]
  }

  // Accepted lists are exactly the written phrases, and each is written in one way only: as the phrase the
  // parser returns.
  lemma AcceptedIff(s: seq<Sym>, p: Phrase)
    ensures Accepted(s) && Parse(s).value == p <==> Good(p) && s == Write(p) + [Word(EOF)]
  {
    hide Parse, Write;
    ParseSound(s);
    if Good(p) {
      ParseComplete(p, [Word(EOF)]);
    }
  }

  // ---- The slash of a date ----

  // What the grammar intends: in every date a slash between month and day.
  predicate AllSlashes(p: Phrase) {
    (p.from.Some? ==> p.from.value.slash) && (p.to.Some? ==> p.to.value.slash)
  }

  ghost predicate Intended(s: seq<Sym>) {
    exists p :: Good(p) && AllSlashes(p) && s == Write(p) + [Word(EOF)]
  }

  // No number directly follows another.
  predicate NumsApart(s: seq<Sym>) {
    forall i :: 0 <= i < |s| - 1 ==> s[i].Word? || s[i + 1].Word?
  }

  predicate Headed(s: seq<Sym>) {
    s == [] || s[0].Word?
  }

  lemma ApartConcat(a: seq<Sym>, b: seq<Sym>)
    requires Headed(b) || (a != [] && a[|a| - 1].Word?)
    ensures NumsApart(a + b) <==> NumsApart(a) && NumsApart(b)
  {
    var s := a + b;
    if NumsApart(s) {
      forall i | 0 <= i < |a| - 1 ensures a[i].Word? || a[i + 1].Word? {
        assert s[i].Word? || s[i + 1].Word?;
      }
      forall i | 0 <= i < |b| - 1 ensures b[i].Word? || b[i + 1].Word? {
        assert s[|a| + i].Word? || s[|a| + i + 1].Word?;
      }
    }
  }

  lemma {:induction false} TimesApart(cs: seq<Clock>)
    requires cs != []
    ensures NumsApart(WriteTimes(cs))
  {
    assert NumsApart(WriteClock(cs[0]));
    if |cs| > 1 {
      TimesApart(cs[1..]);
      ApartConcat([Word(AND)], WriteTimes(cs[1..]));
      ApartConcat(WriteClock(cs[0]), [Word(AND)] + WriteTimes(cs[1..]));
    }
  }

  lemma {:induction false} RangesApart(ds: seq<Days>)
    requires ds != []
    ensures NumsApart(WriteRanges(ds)) && Headed(WriteRanges(ds))
  {
    if |ds| > 1 {
      RangesApart(ds[1..]);
      ApartConcat([Word(AND)], WriteRanges(ds[1..]));
      ApartConcat(WriteDays(ds[0]), [Word(AND)] + WriteRanges(ds[1..]));
    }
  }

  lemma OnApart(days: Option<seq<Days>>)
    requires days.Some? ==> days.value != []
    ensures NumsApart(WriteOn(days)) && Headed(WriteOn(days))
  {
    if days.Some? {
      RangesApart(days.value);
      ApartConcat([Word(ON)], WriteRanges(days.value));
    }
  }

  lemma DayApart(d: Day)
    ensures NumsApart(WriteDay(d)) <==> d.slash
  {
    var w := WriteDay(d);
    if !d.slash { assert w[0].Num? && w[1].Num?; }
  }

  lemma LimitApart(ty: TokenType, d: Option<Day>)
    ensures NumsApart(WriteLimit(ty, d)) <==> (d.Some? ==> d.value.slash)
    ensures Headed(WriteLimit(ty, d))
  {
    if d.Some? {
      DayApart(d.value);
      ApartConcat([Word(ty)], WriteDay(d.value));
    }
  }

  lemma LoneWord(ty: TokenType)
    ensures NumsApart([Word(ty)])
  {
  }

  lemma PhraseApart(p: Phrase)
    requires Good(p)
    ensures NumsApart(Write(p)) <==> AllSlashes(p)
  {
    hide NumsApart, WriteTimes, WriteOn, WriteLimit;
    var limits := WriteLimit(FROM, p.from) + WriteLimit(TO, p.to);
    TimesApart(p.times);
    OnApart(p.days);
    LimitApart(FROM, p.from);
    LimitApart(TO, p.to);
    ApartConcat(WriteLimit(FROM, p.from), WriteLimit(TO, p.to));
    ApartConcat(WriteOn(p.days), limits);
    ApartConcat(WriteTimes(p.times), WriteOn(p.days) + limits);
    LoneWord(AT);
    ApartConcat([Word(AT)], WriteTimes(p.times) + (WriteOn(p.days) + limits));
  }

  // Of the accepted lists, those the grammar intends are the ones in which no number follows another.
  lemma IntendedIff(s: seq<Sym>)
    ensures Intended(s) <==> Accepted(s) && NumsApart(s)
  {
    hide Parse, Write, NumsApart;
    if Intended(s) {
      var p :| Good(p) && AllSlashes(p) && s == Write(p) + [Word(EOF)];
      AcceptedIff(s, p);
      PhraseApart(p);
      ApartConcat(Write(p), [Word(EOF)]);
      LoneWord(EOF);
    } else if Accepted(s) && NumsApart(s) {
      var p := Parse(s).value;
      AcceptedIff(s, p);
      PhraseApart(p);
      ApartConcat(Write(p), [Word(EOF)]);
    }
  }

  // "at 12 from 5 16" is accepted all the same, as from the 16th of May.
  lemma SlashMissed()
    ensures var s := [Word(AT), Num(12), Word(FROM), Num(5), Num(16), Word(EOF)];
            && !Intended(s) && Accepted(s)
            && Parse(s).value.from == Some(Day(5, false, 16, None))
  {
    var p := Phrase([Clock(H(12), Plain)], None, Some(Day(5, false, 16, None)), None);
    var s := Write(p) + [Word(EOF)];
    assert s == [Word(AT), Num(12), Word(FROM), Num(5), Num(16), Word(EOF)];
    AcceptedIff(s, p);
    assert !NumsApart(s) by { assert s[3].Num? && s[4].Num?; }
    IntendedIff(s);
  }

  // ---- AND and AT ----

  // Every AND has something other than AT after it.
  predicate AndsGoOn(s: seq<Sym>) {
    forall i :: 0 <= i < |s| && s[i] == Word(AND) ==> i + 1 < |s| && s[i + 1] != Word(AT)
  }

  lemma AndsConcat(a: seq<Sym>, b: seq<Sym>)
    requires AndsGoOn(a) && AndsGoOn(b)
    ensures AndsGoOn(a + b)
  {
  }

  lemma {:induction false} TimesGoOn(cs: seq<Clock>)
    requires cs != []
    ensures AndsGoOn(WriteTimes(cs)) && WriteTimes(cs) != [] && WriteTimes(cs)[0].Num?
  {
    assert AndsGoOn(WriteClock(cs[0]));
    if |cs| > 1 {
      TimesGoOn(cs[1..]);
      assert AndsGoOn([Word(AND)] + WriteTimes(cs[1..]));
      AndsConcat(WriteClock(cs[0]), [Word(AND)] + WriteTimes(cs[1..]));
    }
  }

  lemma {:induction false} RangesGoOn(ds: seq<Days>)
    requires ds != []
    ensures AndsGoOn(WriteRanges(ds)) && WriteRanges(ds) != [] && WriteRanges(ds)[0] != Word(AT)
  {
    assert AndsGoOn(WriteDays(ds[0]));
    if |ds| > 1 {
      RangesGoOn(ds[1..]);
      assert AndsGoOn([Word(AND)] + WriteRanges(ds[1..]));
      AndsConcat(WriteDays(ds[0]), [Word(AND)] + WriteRanges(ds[1..]));
    }
  }

  lemma LimitGoesOn(ty: TokenType, d: Option<Day>)
    requires ty != AND
    ensures AndsGoOn(WriteLimit(ty, d))
  {
  }

  lemma OnGoesOn(days: Option<seq<Days>>)
    requires days.Some? ==> days.value != []
    ensures AndsGoOn(WriteOn(days))
  {
    if days.Some? {
      RangesGoOn(days.value);
      AndsConcat([Word(ON)], WriteRanges(days.value));
    }
  }

  lemma LoneAt()
    ensures AndsGoOn([Word(AT)])
  {
  }

  lemma PhraseGoesOn(p: Phrase)
    requires Good(p)
    ensures AndsGoOn(Write(p))
  {
    hide AndsGoOn, WriteTimes, WriteOn, WriteLimit;
    TimesGoOn(p.times);
    OnGoesOn(p.days);
    LimitGoesOn(FROM, p.from);
    LimitGoesOn(TO, p.to);
    AndsConcat(WriteLimit(FROM, p.from), WriteLimit(TO, p.to));
    AndsConcat(WriteOn(p.days), WriteLimit(FROM, p.from) + WriteLimit(TO, p.to));
    AndsConcat(WriteTimes(p.times), WriteOn(p.days) + (WriteLimit(FROM, p.from) + WriteLimit(TO, p.to)));
    assert AndsGoOn([Word(AT)]) by { LoneAt(); }
    AndsConcat([Word(AT)], WriteTimes(p.times) + (WriteOn(p.days) + (WriteLimit(FROM, p.from) + WriteLimit(TO, p.to))));
  }

  // The parser never takes an AND that is followed by AT, even when it leaves symbols over.
  lemma AndAtNeverTaken(s: seq<Sym>, i: nat)
    ensures Parse(s).Got? && i < |s| - |Parse(s).rest| && s[i] == Word(AND) ==>
              i + 1 < |s| && s[i + 1] != Word(AT)
  {
    hide Parse, Write;
    if Parse(s).Got? && i < |s| - |Parse(s).rest| {
      ParseSound(s);
      PhraseGoesOn(Parse(s).value);
      assert Write(Parse(s).value)[i] == s[i];
    }
  }
}
