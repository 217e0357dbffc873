// ScheduleParser: the recursive-descent parser, advancing nextTok over the token list.

module Parser {
  import opened Wrappers
  import opened Tokens
  import opened Grammar
  import C = Calendar
  import S = Schedules
  import T = ScheduleTheorems

  // ---- What phrases mean ----

  const EVERY_DAY: seq<int> := [0, 1, 2, 3, 4, 5, 6]

  function HourOf(hour: nat, half: Half): int {
    (match half
     case Plain => hour
     case Morning => if hour == 12 then 0 else hour
     case Evening => if hour != 12 then hour + 12 else hour) % 24
  }

  function MinuteOf(d: Digits): nat {
    match d case H(_) => 0 case HM(_, m) => m case HMS(_, m, _) => m
  }

  function SecondOf(d: Digits): nat {
    match d case H(_) => 0 case HM(_, _) => 0 case HMS(_, _, s) => s
  }

  function TimeOf(c: Clock): S.TimeOfDay {
    S.TimeOfDay(HourOf(c.digits.hour, c.half), MinuteOf(c.digits), SecondOf(c.digits), 0)
  }

  function TimesOf(cs: seq<Clock>): (ts: seq<S.TimeOfDay>)
    ensures |ts| == |cs| && forall i :: 0 <= i < |cs| ==> ts[i] == TimeOf(cs[i])
  {
    seq(|cs|, i requires 0 <= i < |cs| => TimeOf(cs[i]))
  }

  // From a to b, going on from Saturday to Sunday.
  function Cycle(a: int, b: int): (days: seq<int>)
    ensures |days| == (b - a) % 7 + 1 && forall k :: 0 <= k < |days| ==> days[k] == (a + k) % 7
  {
    seq((b - a) % 7 + 1, k requires 0 <= k => (a + k) % 7)
  }

  function DaysOf(d: Days): seq<int> {
    match d
    case Single(a) => [a]
    case Through(a, b) => Cycle(a, b)
  }

  function AllDays(ds: seq<Days>): seq<int> {
    if ds == [] then [] else AllDays(ds[..|ds| - 1]) + DaysOf(ds[|ds| - 1])
  }

  function WeekdaysOf(days: Option<seq<Days>>): seq<int> {
    match days case None => EVERY_DAY case Some(ds) => AllDays(ds)
  }

  // A year below 100 is in the present century.
  function YearOf(year: Option<nat>, nowYear: nat): nat {
    match year
    case None => 0
    case Some(y) => if y < 100 then y + nowYear / 100 * 100 else y
  }

  function DateOf(d: Day, nowYear: nat): C.Date {
    C.Date(YearOf(d.year, nowYear), d.month, d.day)
  }

  function LimitOf(d: Option<Day>, nowYear: nat): Option<C.Date> {
    match d case None => None case Some(day) => Some(DateOf(day, nowYear))
  }

  function ScheduleOf(p: Phrase, nowYear: nat): S.Schedule {
    S.Schedule(TimesOf(p.times), WeekdaysOf(p.days), LimitOf(p.from, nowYear), LimitOf(p.to, nowYear))
  }

  lemma ApartModSeven(a: int, j: nat, k: nat)
    requires j < k < 7
    ensures (a + j) % 7 != (a + k) % 7
  {
  }

  lemma CycleEnds(a: int, b: int, k: nat)
    requires IsWeekday(a) && IsWeekday(b) && k <= (b - a) % 7
    ensures (a + k) % 7 == b <==> k == (b - a) % 7
    ensures k > 0 ==> (a + k) % 7 == (if (a + k - 1) % 7 == 6 then 0 else (a + k - 1) % 7 + 1)
  {
  }

  // A weekday range goes from its first day to its last without repeating a day.
  lemma CycleHasNoRepeats(a: int, b: int, j: nat, k: nat)
    requires IsWeekday(a) && IsWeekday(b) && j < k < |Cycle(a, b)|
    ensures Cycle(a, b)[j] != Cycle(a, b)[k]
    ensures Cycle(a, b)[0] == a && Cycle(a, b)[|Cycle(a, b)| - 1] == b && |Cycle(a, b)| <= 7
  {
    hide Cycle;
    CycleEnds(a, b, (b - a) % 7);
    ApartModSeven(a, j, k);
  }

  // ---- Tokens as symbols ----

  function DigitValue(c: char): nat {
    if Digit(c) then (c as int) - ('0' as int) else 0
  }

  function Number(s: string): nat {
    if s == "" then 0 else 10 * Number(s[..|s| - 1]) + DigitValue(s[|s| - 1])
  }

  function TextOf(t: Token): string {
    if t.start <= t.end <= |t.input| then t.input[t.start..t.end] else ""
  }

  function SymOf(t: Token): Sym {
    if t.ty == INT then Num(Number(TextOf(t))) else Word(t.ty)
  }

  function Syms(ts: seq<Token>): (s: seq<Sym>)
    ensures |s| == |ts| && forall i :: 0 <= i < |ts| ==> s[i] == SymOf(ts[i])
  {
    seq(|ts|, i requires 0 <= i < |ts| => SymOf(ts[i]))
  }

  // What the parser relies on: EOF ends the list and occurs nowhere else, and spans lie within the text.
  predicate Terminated(input: string, ts: seq<Token>) {
    && ts != []
    && (forall i :: 0 <= i < |ts| ==> (ts[i].ty == EOF <==> i == |ts| - 1))
    && (forall i :: 0 <= i < |ts| ==> ts[i].start <= ts[i].end <= |input| && ts[i].input == input)
  }

  lemma {:induction false} ReadsTerminated(input: string, pos: nat, ts: seq<Token>)
    requires Reads(input, pos, ts)
    ensures Terminated(input, ts)
    decreases |ts|
  {
    if |ts| > 1 {
      ReadsTerminated(input, ts[0].end, ts[1..]);
      assert forall i :: 0 < i < |ts| ==> ts[i] == ts[1..][i - 1];
    }
  }

  // ---- The parser ----

  lemma WeekdayCases(s: seq<Sym>)
    ensures Grammar.ParseWeekday(s) == if Is(s, MON) then Got(1, s[1..])
                                       else if Is(s, TUE) then Got(2, s[1..])
                                       else if Is(s, WED) then Got(3, s[1..])
                                       else if Is(s, THUR) then Got(4, s[1..])
                                       else if Is(s, FRI) then Got(5, s[1..])
                                       else if Is(s, SAT) then Got(6, s[1..])
                                       else if Is(s, SUN) then Got(0, s[1..])
                                       else Fail(s)
  {
  }

  function Join<T>(xs: seq<T>, r: Parsed<seq<T>>): Parsed<seq<T>> {
    match r case Fail(at) => Fail(at) case Got(ys, rest) => Got(xs + ys, rest)
  }

  lemma JoinNothing<T>(r: Parsed<seq<T>>)
    ensures Join([], r) == r
  {
    if r.Got? { assert [] + r.value == r.value; }
  }

  lemma JoinMore<T>(xs: seq<T>, x: T, r: Parsed<seq<T>>)
    ensures Join(xs, Join([x], r)) == Join(xs + [x], r)
  {
    if r.Got? { assert xs + ([x] + r.value) == (xs + [x]) + r.value; }
  }

  // The span of the token with which the last n tokens begin.
  function SpanOf(ts: seq<Token>, n: nat): ParseError {
    if 0 < n <= |ts| then ParseError(ts[|ts| - n].start, ts[|ts| - n].end) else ParseError(0, 0)
  }

  class ScheduleParser {
    var input: string
    var tokens: seq<Token>
    var nextTok: nat

    constructor ()
    {
      input, tokens, nextTok := "", [], 0;
    }

    predicate Valid()
      reads this
    {
      Terminated(input, tokens) && nextTok < |tokens|
    }

    // The symbols not yet taken.
    function Rest(): seq<Sym>
      reads this
      requires Valid()
    {
      Syms(tokens)[nextTok..]
    }

    // The span of the token that the parser has come to.
    function Here(): (e: ParseError)
      reads this
      requires Valid()
      ensures 0 <= e.start <= e.end <= |input|
    {
      ParseError(tokens[nextTok].start, tokens[nextTok].end)
    }

    // Parses a text.  The tokenizer may range over its patterns in any order.
    method Parse(text: string, order: nat -> seq<TokenType>, nowYear: nat) returns (r: Result<S.Schedule, ParseError>)
      requires forall p :: IsOrder(order(p))
      modifies this
      ensures match Lex(text, 0)
              case Err(e) => r == Err(e)
              case Ok(ts) =>
                match Grammar.Parse(Syms(ts))
                case Fail(at) => r == Err(SpanOf(ts, |at|))
                case Got(p, rest) =>
                  r == if rest == [Word(EOF)] then Ok(ScheduleOf(p, nowYear))
                       else Err(ParseError(SpanOf(ts, |rest|).start, |text|))
      ensures r.Err? ==> 0 <= r.error.start <= r.error.end <= |text|
    {
      hide Lex, Reads, Grammar.Parse, Match, ScheduleOf, IsOrder;
      input := text;
      nextTok := 0;
      var lexed := Tokenize(text, order);
      if lexed.Err? {
        LexFails(text, 0, EOF);
        return Err(lexed.error);
      }
      tokens := lexed.value;
      LexIff(text, tokens);
      ReadsTerminated(text, 0, tokens);
      assert Syms(tokens)[0..] == Syms(tokens);
      var sched := ParseSchedule(nowYear);
      if sched.Err? {
        return Err(sched.error);
      }
      LastIsEOF();
      if tokens[nextTok].ty != EOF {
        return Err(NewParseError(input, tokens[nextTok].start, |input|));
      }
      nextTok := nextTok + 1;
      return Ok(sched.value);
    }

    lemma LastIsEOF()
      requires Valid()
      ensures tokens[nextTok].ty == EOF <==> Rest() == [Word(EOF)]
    {
    }

    method Peek() returns (tok: Token)
      requires Valid()
      ensures tok == tokens[nextTok] && Rest() != [] && SymOf(tok) == Rest()[0]
      ensures tok.start <= tok.end <= |input|
    {
      tok := tokens[nextTok];
    }

    method NextIs(ty: TokenType) returns (b: bool)
      requires Valid()
      ensures b <==> tokens[nextTok].ty == ty
      ensures ty != INT ==> (b <==> Is(Rest(), ty))
    {
      b := tokens[nextTok].ty == ty;
    }

    // Takes the next token if it is of this type.  EOF is taken by Parse alone.
    method Accept(ty: TokenType) returns (tok: Option<Token>)
      requires Valid() && ty != EOF
      modifies this`nextTok
      ensures Valid()
      ensures tok == if tokens[old(nextTok)].ty == ty then Some(tokens[old(nextTok)]) else None
      ensures Rest() == if tok.Some? then old(Rest())[1..] else old(Rest())
      ensures ty != INT ==> (tok.Some? <==> Is(old(Rest()), ty))
    {
      if tokens[nextTok].ty != ty {
        return None;
      }
      tok := Some(tokens[nextTok]);
      nextTok := nextTok + 1;
    }

    method Expect(ty: TokenType) returns (r: Result<Token, ParseError>)
      requires Valid() && ty != EOF
      modifies this`nextTok
      ensures Valid()
      ensures r.Ok? <==> tokens[old(nextTok)].ty == ty
      ensures r.Ok? ==> r.value == tokens[old(nextTok)]
      ensures Rest() == if r.Ok? then old(Rest())[1..] else old(Rest())
      ensures ty != INT ==> (r.Ok? <==> Is(old(Rest()), ty))
      ensures r.Err? ==> r.error == Here()
    {
      var tok := Accept(ty);
      if tok.None? {
        var got := Peek();
        return Err(NewParseError(input, got.start, got.end));
      }
      return Ok(tok.value);
    }

    // AND follows, and not AT after it: the token after an AND always exists.
    method MoreFollows() returns (b: bool)
      requires Valid()
      ensures b <==> More(Rest())
    {
      var and := NextIs(AND);
      b := and && tokens[nextTok + 1].ty != AT;
    }

    method ParseInt() returns (r: Result<nat, ParseError>)
      requires Valid()
      modifies this`nextTok
      ensures Valid()
      ensures match ParseNum(old(Rest()))
              case Fail(at) => r.Err? && Rest() == at
              case Got(n, rest) => r == Ok(n) && Rest() == rest
      ensures r.Err? ==> r.error == Here()
    {
      var tok := Expect(INT);
      if tok.Err? {
        return Err(tok.error);
      }
      return Ok(Number(TextOf(tok.value)));
    }

    method ParseTimeOfDay() returns (r: Result<S.TimeOfDay, ParseError>)
      requires Valid()
      modifies this`nextTok
      ensures Valid()
      ensures match ParseClock(old(Rest()))
              case Fail(at) => r.Err? && Rest() == at
              case Got(c, rest) => r == Ok(TimeOf(c)) && Rest() == rest
      ensures r.Err? ==> r.error == Here()
    {
      hide Valid, Rest, Here, ParseNum, ParseHalf, HourOf;
      var hours, minutes, seconds := 0, 0, 0;
      var i := ParseInt();
      if i.Err? {
        return Err(i.error);
      }
      hours := i.value;
      var colon := Accept(COLON);
      if colon.Some? {
        i := ParseInt();
        if i.Err? {
          return Err(i.error);
        }
        minutes := i.value;
        colon := Accept(COLON);
        if colon.Some? {
          i := ParseInt();
          if i.Err? {
            return Err(i.error);
          }
          seconds := i.value;
        }
      }
      hours := AmPm(hours);
      return Ok(S.TimeOfDay(hours, minutes, seconds, 0));
    }

    method AmPm(hours: nat) returns (h: int)
      requires Valid()
      modifies this`nextTok
      ensures Valid()
      ensures (h, Rest()) == var (half, rest) := ParseHalf(old(Rest())); (HourOf(hours, half), rest)
    {
      hide Valid, Rest, Here;
      h := hours;
      var am := Accept(AM);
      if am.Some? {
        if h == 12 {
          h := 0;
        }
      } else {
        var pm := Accept(PM);
        if pm.Some? {
          if h != 12 {
            h := h + 12;
          }
        }
      }
      h := h % 24;
    }

    method ParseTimesOfDay() returns (r: Result<seq<S.TimeOfDay>, ParseError>)
      requires Valid()
      modifies this`nextTok
      ensures Valid()
      ensures match ParseTimes(old(Rest()))
              case Fail(at) => r.Err? && Rest() == at
              case Got(cs, rest) => r == Ok(TimesOf(cs)) && Rest() == rest
      ensures r.Err? ==> r.error == Here()
    {
      hide Valid, Rest, Here, ParseClock, TimeOf;
      var times := [];
      ghost var cs: seq<Clock> := [];
      ghost var start := Rest();
      JoinNothing(ParseTimes(start));
      while true
        invariant Valid()
        invariant times == TimesOf(cs)
        invariant ParseTimes(start) == Join(cs, ParseTimes(Rest()))
        decreases |Rest()|
      {
        ghost var before := Rest();
        var tim := ParseTimeOfDay();
        if tim.Err? {
          return Err(tim.error);
        }
        ghost var c := ParseClock(before).value;
        times, cs := times + [tim.value], cs + [c];
        assert times == TimesOf(cs);
        var more := MoreFollows();
        if !more {
          break;
        }
        JoinMore(cs[..|cs| - 1], c, ParseTimes(Rest()[1..]));
        var and := Accept(AND);
      }
      return Ok(times);
    }

    method ParseWeekday() returns (r: Result<int, ParseError>)
      requires Valid()
      modifies this`nextTok
      ensures Valid()
      ensures match Grammar.ParseWeekday(old(Rest()))
              case Fail(at) => r.Err? && Rest() == at
              case Got(d, rest) => r == Ok(d) && Rest() == rest && IsWeekday(d)
      ensures r.Err? ==> r.error == Here()
    {
      hide Valid, Rest, SymOf, Is, Grammar.ParseWeekday;
      WeekdayCases(Rest());
      var tok := Accept(MON);
      if tok.Some? { return Ok(1); }
      tok := Accept(TUE);
      if tok.Some? { return Ok(2); }
      tok := Accept(WED);
      if tok.Some? { return Ok(3); }
      tok := Accept(THUR);
      if tok.Some? { return Ok(4); }
      tok := Accept(FRI);
      if tok.Some? { return Ok(5); }
      tok := Accept(SAT);
      if tok.Some? { return Ok(6); }
      tok := Accept(SUN);
      if tok.Some? { return Ok(0); }
      var got := Peek();
      return Err(NewParseError(input, got.start, got.end));
    }

    // The loop from the first day of a range to its last.
    method ExpandRange(weekday: int, throughDay: int) returns (weekdays: seq<int>)
      requires IsWeekday(weekday) && IsWeekday(throughDay)
      ensures weekdays == Cycle(weekday, throughDay)
    {
      weekdays := [];
      var day := weekday;
      ghost var last := (throughDay - weekday) % 7;
      CycleEnds(weekday, throughDay, 0);
      while day != throughDay
        invariant day == (weekday + |weekdays|) % 7 && |weekdays| <= last
        invariant day == throughDay <==> |weekdays| == last
        invariant forall k :: 0 <= k < |weekdays| ==> weekdays[k] == (weekday + k) % 7
        decreases last - |weekdays|
      {
        CycleEnds(weekday, throughDay, |weekdays| + 1);
        weekdays := weekdays + [day];
        day := day + 1;
        if day > 6 {
          day := 0;
        }
      }
      weekdays := weekdays + [throughDay];
    }

    method ParseDayRange() returns (r: Result<seq<int>, ParseError>)
      requires Valid()
      modifies this`nextTok
      ensures Valid()
      ensures match ParseDays(old(Rest()))
              case Fail(at) => r.Err? && Rest() == at
              case Got(d, rest) => r == Ok(DaysOf(d)) && Rest() == rest
      ensures r.Err? ==> r.error == Here()
    {
      hide Valid, Rest, Here, Grammar.ParseWeekday;
      var weekday := ParseWeekday();
      if weekday.Err? {
        return Err(weekday.error);
      }
      var through := Accept(THROUGH);
      if through.None? {
        return Ok([weekday.value]);
      }
      var throughDay := ParseWeekday();
      if throughDay.Err? {
        return Err(throughDay.error);
      }
      var days := ExpandRange(weekday.value, throughDay.value);
      return Ok(days);
    }

    method ParseWeekdays() returns (r: Result<seq<int>, ParseError>)
      requires Valid()
      modifies this`nextTok
      ensures Valid()
      ensures if !Is(old(Rest()), ON) then r.Err?
              else match ParseRanges(old(Rest())[1..])
                   case Fail(at) => r.Err? && Rest() == at
                   case Got(ds, rest) => r == Ok(AllDays(ds)) && Rest() == rest
      ensures r.Err? ==> r.error == Here()
    {
      hide Valid, Rest, Here, ParseDays, DaysOf;
      var on := Expect(ON);
      if on.Err? {
        return Err(on.error);
      }
      var weekdays := [];
      ghost var ds: seq<Days> := [];
      ghost var start := Rest();
      JoinNothing(ParseRanges(start));
      while true
        invariant Valid()
        invariant weekdays == AllDays(ds)
        invariant ParseRanges(start) == Join(ds, ParseRanges(Rest()))
        decreases |Rest()|
      {
        ghost var before := Rest();
        var days := ParseDayRange();
        if days.Err? {
          return Err(days.error);
        }
        ghost var d := ParseDays(before).value;
        assert (ds + [d])[..|ds|] == ds;
        weekdays, ds := weekdays + days.value, ds + [d];
        assert weekdays == AllDays(ds);
        var more := MoreFollows();
        if !more {
          break;
        }
        JoinMore(ds[..|ds| - 1], d, ParseRanges(Rest()[1..]));
        var and := Accept(AND);
      }
      return Ok(weekdays);
    }

    // The error of Expect(SLASH) is overwritten by that of the next ParseInt.
    method ParseDate(nowYear: nat) returns (r: Result<C.Date, ParseError>)
      requires Valid()
      modifies this`nextTok
      ensures Valid()
      ensures match ParseDay(old(Rest()))
              case Fail(at) => r.Err? && Rest() == at
              case Got(d, rest) => r == Ok(DateOf(d, nowYear)) && Rest() == rest
      ensures r.Err? ==> r.error == Here()
    {
      hide Valid, Rest, Here, ParseNum, Number, TextOf, Is;
      var year, month, day := 0, 0, 0;
      var i := ParseInt();
      if i.Err? {
        return Err(i.error);
      }
      month := i.value;
      var ignored := Expect(SLASH);
      i := ParseInt();
      if i.Err? {
        return Err(i.error);
      }
      day := i.value;
      var slash := Accept(SLASH);
      if slash.Some? {
        i := ParseInt();
        if i.Err? {
          return Err(i.error);
        }
        year := i.value;
        if year < 100 {
          year := year + nowYear / 100 * 100;
        }
      }
      return Ok(C.Date(year, month, day));
    }

    method ParseSchedule(nowYear: nat) returns (r: Result<S.Schedule, ParseError>)
      requires Valid()
      modifies this`nextTok
      ensures Valid()
      ensures match Grammar.Parse(old(Rest()))
              case Fail(at) => r.Err? && Rest() == at
              case Got(p, rest) => r == Ok(ScheduleOf(p, nowYear)) && Rest() == rest
      ensures r.Err? ==> r.error == Here()
    {
      hide Valid, Rest, Here, ParseTimes, ParseOn, Grammar.ParseLimit, TimesOf, WeekdaysOf, LimitOf;
      var at := Expect(AT);
      if at.Err? {
        return Err(at.error);
      }
      var times := ParseTimesOfDay();
      if times.Err? {
        return Err(times.error);
      }
      var weekdays := ParseWeekdaysIfOn();
      if weekdays.Err? {
        return Err(weekdays.error);
      }
      var from := ParseDateAfter(FROM, nowYear);
      if from.Err? {
        return Err(from.error);
      }
      var to := ParseDateAfter(TO, nowYear);
      if to.Err? {
        return Err(to.error);
      }
      return Ok(S.Schedule(times.value, weekdays.value, from.value, to.value));
    }

    method ParseWeekdaysIfOn() returns (r: Result<seq<int>, ParseError>)
      requires Valid()
      modifies this`nextTok
      ensures Valid()
      ensures match ParseOn(old(Rest()))
              case Fail(at) => r.Err? && Rest() == at
              case Got(days, rest) => r == Ok(WeekdaysOf(days)) && Rest() == rest
      ensures r.Err? ==> r.error == Here()
    {
      hide Valid, Rest, Here, ParseRanges, AllDays;
      var on := NextIs(ON);
      if !on {
        return Ok(EVERY_DAY);
      }
      r := ParseWeekdays();
    }

    method ParseDateAfter(ty: TokenType, nowYear: nat) returns (r: Result<Option<C.Date>, ParseError>)
      requires Valid() && ty != EOF && ty != INT
      modifies this`nextTok
      ensures Valid()
      ensures match Grammar.ParseLimit(old(Rest()), ty)
              case Fail(at) => r.Err? && Rest() == at
              case Got(d, rest) => r == Ok(LimitOf(d, nowYear)) && Rest() == rest
      ensures r.Err? ==> r.error == Here()
    {
      hide Valid, Rest, Here, ParseDay, DateOf;
      var tok := Accept(ty);
      if tok.None? {
        return Ok(None);
      }
      var d := ParseDate(nowYear);
      if d.Err? {
        return Err(d.error);
      }
      return Ok(Some(d.value));
    }
  }

  // ---- From text to schedule ----

  // A text is parsed as the schedule of a phrase if and only if its tokens are that phrase, written out and
  // followed by EOF; and then it is the only such phrase.
  lemma ParsedIff(text: string, p: Phrase)
    ensures Lex(text, 0).Ok?
            && Accepted(Syms(Lex(text, 0).value)) && Grammar.Parse(Syms(Lex(text, 0).value)).value == p
            <==> exists ts: seq<Token> :: Reads(text, 0, ts) && Good(p) && Syms(ts) == Write(p) + [Word(EOF)]
  {
    hide Reads, Accepted, Grammar.Parse, Good;
    if Lex(text, 0).Ok? {
      LexIff(text, Lex(text, 0).value);
      AcceptedIff(Syms(Lex(text, 0).value), p);
    }
    forall ts: seq<Token> | Reads(text, 0, ts) ensures Lex(text, 0) == Ok(ts) {
      LexIff(text, ts);
    }
  }

  // ---- From schedule to next run ----

  lemma {:induction false} AllDaysAreWeekdays(ds: seq<Days>)
    requires forall d :: d in ds ==> GoodDays(d)
    ensures forall k :: 0 <= k < |AllDays(ds)| ==> IsWeekday(AllDays(ds)[k])
  {
    if ds != [] {
      AllDaysAreWeekdays(ds[..|ds| - 1]);
      assert GoodDays(ds[|ds| - 1]);
    }
  }

  function SecondsOf(c: Clock): nat {
    HourOf(c.digits.hour, c.half) * 3600 + MinuteOf(c.digits) * 60 + SecondOf(c.digits)
  }

  lemma ClockDuration(c: Clock)
    ensures S.Duration(TimeOf(c)) == SecondsOf(c) * C.SECOND
    ensures 0 <= S.Duration(TimeOf(c)) < C.DAY <==> SecondsOf(c) < 86400
  {
    var h := HourOf(c.digits.hour, c.half);
    hide HourOf;
    assert S.Duration(TimeOf(c)) == SecondsOf(c) * C.SECOND;
  }

  // A parsed schedule names real weekdays; its times lie within the day, as the next-run search wants them,
  // if and only if no minutes or seconds were written that carry past midnight.
  lemma ParsedIsWellFormed(p: Phrase, nowYear: nat)
    requires Good(p)
    ensures T.WellFormed(ScheduleOf(p, nowYear)) <==> forall c :: c in p.times ==> SecondsOf(c) < 86400
  {
    hide AllDays, TimeOf, SecondsOf, S.Duration;
    var s := ScheduleOf(p, nowYear);
    if p.days.Some? { AllDaysAreWeekdays(p.days.value); }
    forall c ensures 0 <= S.Duration(TimeOf(c)) < C.DAY <==> SecondsOf(c) < 86400 {
      ClockDuration(c);
    }
    assert forall j :: 0 <= j < |s.times| ==> s.times[j] == TimeOf(p.times[j]);
  }
}
