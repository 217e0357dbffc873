// Schedule texts as people write them: any spelling of each word, in upper or lower case, with any white
// space in between, is read as intended.

module ScheduleTexts {
  import opened Wrappers
  import opened Tokens
  import opened Grammar
  import opened Parser

  // ---- Letters and digits ----

  const CAPITALS := "ABCDEFGHIJKLMNOPQRSTUVWXYZ"
  const SMALLS := "abcdefghijklmnopqrstuvwxyz"
  const DIGITS := "0123456789"
  const BLANKS := " \t\n\r\U{000C}"

  // c is the small letter or sign l, or the capital of l.
  predicate SameLetter(c: char, l: char) {
    c == l || exists k :: 0 <= k < 26 && c == CAPITALS[k] && l == SMALLS[k]
  }

  predicate SameWord(w: string, word: string) {
    |w| == |word| && forall i :: 0 <= i < |w| ==> SameLetter(w[i], word[i])
  }

  function Decimal(n: nat): (s: string)
    ensures |s| > 0
  {
    if n < 10 then [DIGITS[n]] else Decimal(n / 10) + [DIGITS[n % 10]]
  }

  function Zeros(k: nat): (s: string)
    ensures |s| == k && forall i :: 0 <= i < k ==> s[i] == '0'
  {
    seq(k, _ => '0')
  }

  // How a symbol may be spelled.
  ghost predicate Spells(w: string, y: Sym) {
    match y
    case Word(ty) => exists word :: word in Words(ty) && SameWord(w, word)
    case Num(n) => exists k: nat :: w == Zeros(k) + Decimal(n)
  }

  predicate Small(c: char) {
    'a' <= c <= 'z'
  }

  lemma LowerIs(c: char, l: char)
    requires SameLetter(c, l) && !('A' <= l <= 'Z')
    ensures Lower(c) == l
  {
  }

  lemma LowerOnlyLetters(c: char)
    ensures Small(Lower(c)) <==> Small(c) || 'A' <= c <= 'Z'
    ensures !Small(Lower(c)) ==> Lower(c) == c
  {
  }

  // Every word is a sign, or two or more small letters.
  predicate Proper(word: string) {
    |word| > 0 && if |word| == 1 then word[0] in "/:,-" else forall i :: 0 <= i < |word| ==> Small(word[i])
  }

  lemma SignsAreProper(ty: TokenType, word: string)
    requires ty in {SLASH, COLON, AT, AM, PM, ON, AND, THROUGH, FROM, TO} && word in Words(ty)
    ensures Proper(word)
  {
  }

  lemma DaysAreProper(ty: TokenType, word: string)
    requires ty in {MON, TUE, WED, THUR, FRI, SAT, SUN} && word in Words(ty)
    ensures Proper(word)
  {
  }

  lemma WordsAreProper(ty: TokenType, word: string)
    requires word in Words(ty)
    ensures Proper(word)
  {
    hide Proper;
    if ty in {SLASH, COLON, AT, AM, PM, ON, AND, THROUGH, FROM, TO} {
      SignsAreProper(ty, word);
    } else {
      DaysAreProper(ty, word);
    }
  }

  // ---- One word ----

  // Two characters that would run on into one word or one number.
  predicate Sticks(a: char, b: char) {
    (Digit(a) && Digit(b)) || (Small(Lower(a)) && Small(Lower(b)))
  }

  predicate Ends(w: string, rest: string) {
    w != "" && (rest == "" || !Sticks(w[|w| - 1], rest[0]))
  }

  lemma SpellingStarts(w: string, word: string, rest: string)
    requires SameWord(w, word) && Proper(word)
    ensures StartsWith(w + rest, word)
    ensures |w| > 1 ==> forall i :: 0 <= i < |w| ==> Small(Lower(w[i]))
    ensures |w| == 1 ==> !Small(Lower(w[0]))
  {
    forall i | 0 <= i < |w| ensures Lower(w[i]) == word[i] {
      LowerIs(w[i], word[i]);
    }
  }

  lemma HasWords(ty: TokenType, s: string)
    requires Words(ty) != []
    ensures Match(ty, s) == MatchWords(Words(ty), s)
  {
  }

  lemma StartsPast(w: string, rest: string, word: string)
    requires Proper(word) && StartsWith(w + rest, word) && |word| > |w| > 0
    ensures rest != "" && Sticks(w[|w| - 1], rest[0])
  {
    var k := |w|;
    assert (w + rest)[k - 1] == w[k - 1] && (w + rest)[k] == rest[0];
    assert Small(word[k - 1]) && Small(word[k]);
  }

  lemma NoLongerMatch(ty: TokenType, w: string, rest: string)
    requires Words(ty) != [] && Ends(w, rest) && Match(ty, w + rest).Some?
    ensures Match(ty, w + rest).value <= |w|
  {
    hide Words, Proper;
    var words, n := Words(ty), Match(ty, w + rest).value;
    assert Match(ty, w + rest) == MatchWords(words, w + rest) by { HasWords(ty, w + rest); }
    var i :| 0 <= i < |words| && StartsWith(w + rest, words[i]) && |words[i]| == n;
    WordsAreProper(ty, words[i]);
    if n > |w| { StartsPast(w, rest, words[i]); }
  }

  lemma SameLength(w: string, word: string)
    requires SameWord(w, word)
    ensures |w| == |word|
  {
  }

  // A spelling is matched to its end, and no further.
  lemma WordMatches(ty: TokenType, w: string, word: string, rest: string)
    requires word in Words(ty) && SameWord(w, word) && Ends(w, rest)
    ensures Match(ty, w + rest) == Some(|w|)
  {
    hide Words, Sticks, SameWord, Ends, Proper;
    WordsAreProper(ty, word);
    SpellingStarts(w, word, rest);
    SameLength(w, word);
    MatchIsLongest(ty, w + rest, word);
    NoLongerMatch(ty, w, rest);
  }

  // ---- One number ----

  lemma {:induction false} DecimalIsDigits(n: nat)
    ensures forall i :: 0 <= i < |Decimal(n)| ==> Digit(Decimal(n)[i])
  {
    if n >= 10 { DecimalIsDigits(n / 10); }
  }

  lemma {:induction false} NumberOfZeros(k: nat)
    ensures Number(Zeros(k)) == 0
  {
    if k > 0 {
      assert Zeros(k)[..k - 1] == Zeros(k - 1);
      NumberOfZeros(k - 1);
    }
  }

  lemma {:induction false} NumberOfDecimal(k: nat, n: nat)
    ensures Number(Zeros(k) + Decimal(n)) == n
  {
    var s := Zeros(k) + Decimal(n);
    var m := |s| - 1;
    assert DigitValue(s[m]) == n % 10;
    if n < 10 {
      assert s[..m] == Zeros(k);
      NumberOfZeros(k);
    } else {
      assert s[..m] == Zeros(k) + Decimal(n / 10);
      NumberOfDecimal(k, n / 10);
    }
  }

  lemma {:induction false} DigitRun(w: string, rest: string, digits: bool)
    requires forall i :: 0 <= i < |w| ==> if digits then Digit(w[i]) else Space(w[i])
    requires rest == "" || !(if digits then Digit(rest[0]) else Space(rest[0]))
    ensures RunOf(w + rest, digits) == |w|
  {
    if w != "" {
      assert (w + rest)[1..] == w[1..] + rest;
      DigitRun(w[1..], rest, digits);
    } else {
      assert w + rest == rest;
    }
  }

  lemma AllDigits(w: string, k: nat, d: string)
    requires w == Zeros(k) + d && forall i :: 0 <= i < |d| ==> Digit(d[i])
    ensures forall i :: 0 <= i < |w| ==> Digit(w[i])
  {
  }

  lemma LastStops(w: string, rest: string)
    requires Ends(w, rest) && Digit(w[|w| - 1])
    ensures rest == "" || !Digit(rest[0])
  {
  }

  lemma NumberMatches(w: string, n: nat, rest: string)
    requires Spells(w, Num(n)) && Ends(w, rest)
    ensures Match(INT, w + rest) == Some(|w|) && Number(w) == n && Digit(w[0])
  {
    hide Decimal, Number;
    var k: nat :| w == Zeros(k) + Decimal(n);
    DecimalIsDigits(n);
    NumberOfDecimal(k, n);
    AllDigits(w, k, Decimal(n));
    LastStops(w, rest);
    DigitRun(w, rest, true);
  }

  // ---- Whole texts ----

  ghost predicate AllBlank(g: string) {
    forall i :: 0 <= i < |g| ==> g[i] in BLANKS
  }

  // Words with gaps before, between and after them.
  function Spaced(gaps: seq<string>, ws: seq<string>): string
    requires |gaps| == |ws| + 1
  {
    if ws == [] then gaps[0] else gaps[0] + (ws[0] + Spaced(gaps[1..], ws[1..]))
  }

  // Gaps are white space, and there is one wherever two words or two numbers would run together.
  ghost predicate WellSpaced(gaps: seq<string>, ws: seq<string>) {
    && |gaps| == |ws| + 1
    && (forall i :: 0 <= i < |gaps| ==> AllBlank(gaps[i]))
    && (forall i :: 0 < i < |ws| && gaps[i] == "" ==> Ends(ws[i - 1], ws[i]))
  }

  ghost predicate SpelledOut(ws: seq<string>, ys: seq<Sym>) {
    |ws| == |ys| && forall i :: 0 <= i < |ws| ==> Spells(ws[i], ys[i])
  }

  lemma BlankIsSpace(g: string)
    requires AllBlank(g)
    ensures forall i :: 0 <= i < |g| ==> Space(g[i]) && !Digit(g[i]) && !Small(Lower(g[i]))
  {
  }

  lemma ProperBegins(w: string, word: string)
    requires Proper(word) && SameWord(w, word)
    ensures w != "" && !Space(w[0])
  {
    LowerIs(w[0], word[0]);
  }

  lemma NumberBegins(w: string, n: nat)
    requires Spells(w, Num(n))
    ensures w != "" && Digit(w[0])
  {
    hide Decimal;
    var k: nat :| w == Zeros(k) + Decimal(n);
    NumberMatches(w, n, "");
  }

  // A spelled symbol begins with neither white space nor nothing.
  lemma SpellingBegins(w: string, y: Sym)
    requires Spells(w, y)
    ensures w != "" && !Space(w[0])
  {
    hide Proper;
    match y
    case Num(n) => NumberBegins(w, n);
    case Word(ty) =>
      var word :| word in Words(ty) && SameWord(w, word);
      WordsAreProper(ty, word);
      ProperBegins(w, word);
  }

  // One turn of the tokenizer.
  lemma LexStep(text: string, pos: nat, ty: TokenType, n: nat)
    requires pos < |text| && Match(ty, text[pos..]) == Some(n)
    ensures pos < pos + n <= |text|
    ensures Lex(text, pos) == Prepend(if ty == WS then [] else [Token(ty, pos, pos + n, text)], Lex(text, pos + n))
  {
    hide Match, NextToken;
    NextTokenIs(text, pos, ty);
    PrependNothing(Lex(text, pos + n));
  }

  lemma SpaceMatches(g: string, rest: string)
    requires g != "" && AllBlank(g) && (rest == "" || !Space(rest[0]))
    ensures Match(WS, g + rest) == Some(|g|)
  {
    BlankIsSpace(g);
    DigitRun(g, rest, false);
  }

  lemma SkipGap(text: string, pos: nat, g: string, rest: string)
    requires pos <= |text| && text[pos..] == g + rest && AllBlank(g) && (rest == "" || !Space(rest[0]))
    ensures pos + |g| <= |text| && text[pos + |g|..] == rest && Lex(text, pos) == Lex(text, pos + |g|)
  {
    hide Match, Lex, AllBlank;
    assert text[pos + |g|..] == text[pos..][|g|..];
    if g != "" {
      SpaceMatches(g, rest);
      LexStep(text, pos, WS, |g|);
      PrependNothing(Lex(text, pos + |g|));
    }
  }

  function TypeOf(y: Sym): TokenType {
    match y case Num(_) => INT case Word(ty) => ty
  }

  lemma WordIsNoRun(ty: TokenType, word: string)
    requires word in Words(ty)
    ensures ty != WS && ty != INT && ty != EOF
  {
  }

  lemma SpellingMatches(w: string, y: Sym, rest: string)
    requires Spells(w, y) && Ends(w, rest)
    ensures Match(TypeOf(y), w + rest) == Some(|w|)
    ensures TypeOf(y) != WS && (y.Num? ==> Number(w) == y.n) && (y.Word? ==> y.ty != INT)
  {
    hide Match, Words, SameWord, Ends, Number;
    match y
    case Num(n) => NumberMatches(w, n, rest);
    case Word(ty) =>
      var word :| word in Words(ty) && SameWord(w, word);
      WordMatches(ty, w, word, rest);
      WordIsNoRun(ty, word);
  }

  lemma TakeWord(text: string, pos: nat, w: string, y: Sym, rest: string) returns (t: Token)
    requires pos <= |text| && text[pos..] == w + rest && Spells(w, y) && Ends(w, rest)
    ensures t == Token(TypeOf(y), pos, pos + |w|, text)
    ensures pos + |w| <= |text| && text[pos + |w|..] == rest
    ensures SymOf(t) == y && Lex(text, pos) == Prepend([t], Lex(text, pos + |w|))
  {
    hide Match, Lex, Spells, Ends, Number;
    assert text[pos + |w|..] == text[pos..][|w|..];
    SpellingBegins(w, y);
    SpellingMatches(w, y, rest);
    LexStep(text, pos, TypeOf(y), |w|);
    t := Token(TypeOf(y), pos, pos + |w|, text);
    assert text[pos..pos + |w|] == w;
  }

  lemma NextBegins(gaps: seq<string>, ws: seq<string>, ys: seq<Sym>)
    requires WellSpaced(gaps, ws) && SpelledOut(ws, ys) && ws != []
    ensures Ends(ws[0], Spaced(gaps[1..], ws[1..]))
  {
    var rest := Spaced(gaps[1..], ws[1..]);
    SpellingBegins(ws[0], ys[0]);
    BlankIsSpace(gaps[1]);
    if gaps[1] != "" {
      assert rest != "" && rest[0] == gaps[1][0];
    } else if |ws| > 1 {
      SpellingBegins(ws[1], ys[1]);
      assert rest == ws[1] + Spaced(gaps[2..], ws[2..]);
      assert rest[0] == ws[1][0] && Ends(ws[0], ws[1]);
    }
  }

  lemma LexEnd(text: string)
    ensures Lex(text, |text|) == Ok([Token(EOF, |text|, |text|, text)])
    ensures Syms(Lex(text, |text|).value) == [Word(EOF)]
  {
  }

  lemma SymsPrepend(t: Token, r: Result<seq<Token>, ParseError>, ys: seq<Sym>)
    requires r.Ok? && Syms(r.value) == ys
    ensures Prepend([t], r).Ok? && Syms(Prepend([t], r).value) == [SymOf(t)] + ys
  {
  }

  // Any text that spells a list of symbols is read as those symbols.
  lemma {:induction false} TextIsRead(text: string, pos: nat, gaps: seq<string>, ws: seq<string>, ys: seq<Sym>)
    requires WellSpaced(gaps, ws) && SpelledOut(ws, ys)
    requires pos <= |text| && text[pos..] == Spaced(gaps, ws)
    ensures Lex(text, pos).Ok? && Syms(Lex(text, pos).value) == ys + [Word(EOF)]
    decreases |ws|
  {
    hide Spells, Ends, AllBlank, Lex, SymOf, Prepend;
    if ws == [] {
      SkipGap(text, pos, gaps[0], "");
      LexEnd(text);
    } else {
      var rest := Spaced(gaps[1..], ws[1..]);
      SpellingBegins(ws[0], ys[0]);
      SkipGap(text, pos, gaps[0], ws[0] + rest);
      NextBegins(gaps, ws, ys);
      var p := pos + |gaps[0]|;
      var t := TakeWord(text, p, ws[0], ys[0], rest);
      TextIsRead(text, p + |ws[0]|, gaps[1..], ws[1..], ys[1..]);
      SymsPrepend(t, Lex(text, p + |ws[0]|), ys[1..] + [Word(EOF)]);
      assert ys + [Word(EOF)] == [ys[0]] + (ys[1..] + [Word(EOF)]);
    }
  }

  // Every spelling of every word, standing alone, is one token.
  lemma WordIsToken(ty: TokenType, word: string, w: string)
    requires word in Words(ty) && SameWord(w, word)
    ensures Lex(w, 0) == Ok([Token(ty, 0, |w|, w), Token(EOF, |w|, |w|, w)])
  {
    hide SameWord, Words, Proper, Lex;
    assert Spells(w, Word(ty));
    SpellingBegins(w, Word(ty));
    assert w[0..] == w + "";
    LexEnd(w);
    var t := TakeWord(w, 0, w, Word(ty), "");
    var end := Token(EOF, |w|, |w|, w);
    assert [t] + [end] == [t, end];
  }

  // A text that spells a phrase is parsed as that phrase.
  lemma PhraseIsRead(text: string, gaps: seq<string>, ws: seq<string>, p: Phrase)
    requires Good(p) && WellSpaced(gaps, ws) && SpelledOut(ws, Write(p)) && text == Spaced(gaps, ws)
    ensures Lex(text, 0).Ok?
    ensures var s := Syms(Lex(text, 0).value); Accepted(s) && Grammar.Parse(s).value == p
  {
    hide Good, Write, WellSpaced, SpelledOut, Spaced, Lex, Accepted, Grammar.Parse;
    assert text[0..] == text;
    TextIsRead(text, 0, gaps, ws, Write(p));
    AcceptedIff(Syms(Lex(text, 0).value), p);
  }

  // ---- Two texts ----

  lemma Plainly(ty: TokenType, word: string)
    requires word in Words(ty)
    ensures Spells(word, Word(ty))
  {
    assert SameWord(word, word);
  }

  lemma InDigits(w: string, n: nat)
    requires w == Decimal(n)
    ensures Spells(w, Num(n))
  {
    assert w == Zeros(0) + Decimal(n);
  }

  lemma Capital(k: nat)
    requires k < 26
    ensures SameLetter(CAPITALS[k], SMALLS[k])
  {
  }

  lemma InCapitals()
    ensures Spells("At", Word(AT)) && Spells("PM", Word(PM))
  {
    Capital(0);
    Capital(12);
    Capital(15);
    assert SameWord("At", "at") && "at" in Words(AT);
    assert SameWord("PM", "pm") && "pm" in Words(PM);
  }

  const WEEKEND: Phrase := Phrase([Clock(H(12), Evening)], Some([Through(5, 1)]), None, None)
  const WEEKEND_WORDS: seq<string> := ["At", "12", "PM", "on", "fri", "-", "mon"]

  lemma WeekendIsSpelled()
    ensures Good(WEEKEND) && SpelledOut(WEEKEND_WORDS, Write(WEEKEND))
  {
    hide Spells;
    assert Write(WEEKEND) == [Word(AT), Num(12), Word(PM), Word(ON), Word(FRI), Word(THROUGH), Word(MON)];
    InCapitals();
    InDigits("12", 12);
    Plainly(ON, "on");
    Plainly(FRI, "fri");
    Plainly(THROUGH, "-");
    Plainly(MON, "mon");
  }

  const WEEKEND_GAPS: seq<string> := ["", " ", " ", " ", " ", "", "", ""]

  lemma WeekendIsWellSpaced()
    ensures WellSpaced(WEEKEND_GAPS, WEEKEND_WORDS)
  {
  }

  lemma WeekendMeans(nowYear: nat)
    ensures ScheduleOf(WEEKEND, nowYear) == S.Schedule([S.TimeOfDay(12, 0, 0, 0)], [5, 6, 0, 1], None, None)
  {
    assert AllDays([Through(5, 1)]) == AllDays([]) + Cycle(5, 1);
  }

  // "At 12 PM on fri-mon" is noon, from Friday over the weekend to Monday.
  lemma NoonOverTheWeekend(nowYear: nat)
    ensures var r := Lex(Spaced(WEEKEND_GAPS, WEEKEND_WORDS), 0);
            && r.Ok? && Accepted(Syms(r.value))
            && ScheduleOf(Grammar.Parse(Syms(r.value)).value, nowYear)
               == S.Schedule([S.TimeOfDay(12, 0, 0, 0)], [5, 6, 0, 1], None, None)
  {
    hide Good, SpelledOut, WellSpaced, Spaced, Write, Lex, Accepted, Grammar.Parse, ScheduleOf;
    WeekendIsSpelled();
    WeekendIsWellSpaced();
    WeekendMeans(nowYear);
    PhraseIsRead(Spaced(WEEKEND_GAPS, WEEKEND_WORDS), WEEKEND_GAPS, WEEKEND_WORDS, WEEKEND);
  }

  const WINTER: Phrase :=
    Phrase([Clock(H(8), Plain)], None, Some(Day(12, true, 1, None)), Some(Day(1, true, 15, Some(17))))
  const WINTER_WORDS: seq<string> := ["at", "8", "from", "12", "/", "1", "to", "1", "/", "15", "/", "17"]
  const WINTER_GAPS: seq<string> := ["", " ", " ", " ", "", "", " ", " ", "", "", "", "", ""]

  lemma WinterIsWritten()
    ensures Good(WINTER)
    ensures Write(WINTER) == [Word(AT), Num(8), Word(FROM), Num(12), Word(SLASH), Num(1),
                              Word(TO), Num(1), Word(SLASH), Num(15), Word(SLASH), Num(17)]
  {
  }

  lemma WinterNumbers()
    ensures Spells("8", Num(8)) && Spells("12", Num(12)) && Spells("1", Num(1))
    ensures Spells("15", Num(15)) && Spells("17", Num(17))
  {
    hide Spells;
    InDigits("8", 8);
    InDigits("12", 12);
    InDigits("1", 1);
    InDigits("15", 15);
    InDigits("17", 17);
  }

  lemma WinterIsSpelled()
    ensures SpelledOut(WINTER_WORDS, Write(WINTER))
  {
    hide Spells, Write;
    WinterIsWritten();
    WinterNumbers();
    Plainly(AT, "at");
    Plainly(FROM, "from");
    Plainly(SLASH, "/");
    Plainly(TO, "to");
  }

  lemma WinterIsWellSpaced()
    ensures WellSpaced(WINTER_GAPS, WINTER_WORDS)
  {
  }

  lemma WinterMeans()
    ensures ScheduleOf(WINTER, 2016) == S.Schedule([S.TimeOfDay(8, 0, 0, 0)], [0, 1, 2, 3, 4, 5, 6],
                                                   Some(C.Date(0, 12, 1)), Some(C.Date(2017, 1, 15)))
  {
  }

  // "at 8 from 12/1 to 1/15/17" is eight in the morning, every day, from 1 December of any year to 15 January
  // of the 17th year of the century.
  lemma EightInWinter()
    ensures var r := Lex(Spaced(WINTER_GAPS, WINTER_WORDS), 0);
            && r.Ok? && Accepted(Syms(r.value))
            && ScheduleOf(Grammar.Parse(Syms(r.value)).value, 2016)
               == S.Schedule([S.TimeOfDay(8, 0, 0, 0)], [0, 1, 2, 3, 4, 5, 6],
                             Some(C.Date(0, 12, 1)), Some(C.Date(2017, 1, 15)))
  {
    hide Good, SpelledOut, WellSpaced, Spaced, Write, Lex, Accepted, Grammar.Parse, ScheduleOf;
    WinterIsWritten();
    WinterIsSpelled();
    WinterIsWellSpaced();
    WinterMeans();
    PhraseIsRead(Spaced(WINTER_GAPS, WINTER_WORDS), WINTER_GAPS, WINTER_WORDS, WINTER);
  }
}
