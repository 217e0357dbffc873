// The tokenizer of schedule texts.

module Tokens {
  import opened Wrappers

  datatype TokenType =
    | ILLEGAL | EOF | WS | INT | SLASH | COLON
    | AT | AM | PM | ON | AND | THROUGH | FROM | TO
    | MON | TUE | WED | THUR | FRI | SAT | SUN

  datatype Token = Token(ty: TokenType, start: nat, end: nat, input: string)

  datatype ParseError = ParseError(start: int, end: int)

  // newParseError panics on a span outside the input.
  function NewParseError(input: string, start: int, end: int): ParseError
    requires 0 <= start <= end <= |input|
  {
    ParseError(start, end)
  }

  // ---- Patterns, on ASCII text ----

  function Lower(c: char): char {
    if 'A' <= c <= 'Z' then (c as int + 32) as char else c
  }

  predicate Digit(c: char) {
    '0' <= c <= '9'
  }

  predicate Space(c: char) {
    c == ' ' || c == '\t' || c == '\n' || c == '\r' || c == '\U{000C}'
  }

  // The words of a pattern, in the order in which a leftmost-first match prefers them.
  function Words(ty: TokenType): seq<string> {
    match ty
    case SLASH => ["/"]
    case COLON => [":"]
    case AT => ["at"]
    case AM => ["am"]
    case PM => ["pm"]
    case ON => ["on"]
    case AND => ["and", "also", ","]
    case THROUGH => ["through", "thru", "-"]
    case FROM => ["from", "starting"]
    case TO => ["to", "until"]
    case MON => ["monday", "mon"]
    case TUE => ["tuesday", "tue"]
    case WED => ["wednesday", "wed"]
    case THUR => ["thursday", "thur", "thu"]
    case FRI => ["friday", "fri"]
    case SAT => ["saturday", "sat"]
    case SUN => ["sunday", "sun"]
    case _ => []
  }

  predicate StartsWith(s: string, word: string) {
    |word| <= |s| && forall i :: 0 <= i < |word| ==> Lower(s[i]) == word[i]
  }

  // The longest prefix of digits, or of white space.
  function RunOf(s: string, digits: bool): (n: nat)
    ensures n <= |s|
    ensures forall i :: 0 <= i < n ==> if digits then Digit(s[i]) else Space(s[i])
    ensures n < |s| ==> !(if digits then Digit(s[n]) else Space(s[n]))
  {
    if s == "" || !(if digits then Digit(s[0]) else Space(s[0])) then 0 else 1 + RunOf(s[1..], digits)
  }

  function MatchWords(words: seq<string>, s: string): (m: Option<nat>)
    ensures m.Some? ==> exists i :: 0 <= i < |words| && StartsWith(s, words[i]) && |words[i]| == m.value
    ensures m.None? ==> forall i :: 0 <= i < |words| ==> !StartsWith(s, words[i])
  {
    if words == [] then None
    else if StartsWith(s, words[0]) then Some(|words[0]|)
    else MatchWords(words[1..], s)
  }

  // pat.Regex.FindIndex: the length of the match at the start of s.
  function Match(ty: TokenType, s: string): Option<nat> {
    match ty
    case EOF => if s == "" then Some(0) else None
    case WS => if RunOf(s, false) > 0 then Some(RunOf(s, false)) else None
    case INT => if RunOf(s, true) > 0 then Some(RunOf(s, true)) else None
    case _ => MatchWords(Words(ty), s)
  }

  // ---- At most one pattern matches ----

  function At(s: string, i: nat): char {
    if i < |s| then Lower(s[i]) else '\0'
  }

  // The only type whose pattern can match, read off the first three characters.
  function Only(s: string): TokenType {
    var a, b, c := At(s, 0), At(s, 1), At(s, 2);
    if s == "" then EOF
    else if Space(s[0]) then WS
    else if Digit(s[0]) then INT
    else if a == '/' then SLASH
    else if a == ':' then COLON
    else if a == ',' then AND
    else if a == '-' then THROUGH
    else if a == 'a' then (if b == 't' then AT else if b == 'm' then AM else AND)
    else if a == 'p' then PM
    else if a == 'o' then ON
    else if a == 'f' then (if c == 'o' then FROM else FRI)
    else if a == 't' then (if b == 'o' then TO else if b == 'u' then TUE else if c == 'r' then THROUGH else THUR)
    else if a == 'u' then TO
    else if a == 'm' then MON
    else if a == 'w' then WED
    else if a == 's' then (if b == 't' then FROM else if b == 'a' then SAT else SUN)
    else ILLEGAL
  }

  // The first characters of s are those of the word.
  predicate Gives(s: string, word: string) {
    && (|word| > 0 ==> s != "" && At(s, 0) == word[0] && Lower(s[0]) == word[0])
    && (|word| > 1 ==> At(s, 1) == word[1])
    && (|word| > 2 ==> At(s, 2) == word[2])
  }

  lemma WordGives(s: string, word: string)
    requires StartsWith(s, word)
    ensures Gives(s, word)
  {
  }

  lemma SignIsOnly(ty: TokenType, word: string, s: string)
    requires ty in {SLASH, COLON, AT, AM, PM, ON, AND, THROUGH, FROM, TO} && word in Words(ty) && Gives(s, word)
    ensures ty == Only(s) && 0 < |word|
  {
    hide At;
  }

  lemma DayIsOnly(ty: TokenType, word: string, s: string)
    requires ty in {MON, TUE, WED, THUR, FRI, SAT, SUN} && word in Words(ty) && Gives(s, word)
    ensures ty == Only(s) && 0 < |word|
  {
    hide At;
  }

  lemma WordIsOnly(ty: TokenType, word: string, s: string)
    requires word in Words(ty) && StartsWith(s, word)
    ensures ty == Only(s) && 0 < |word| <= |s|
  {
    WordGives(s, word);
    assert |word| <= |s|;
    hide StartsWith, Gives, Only;
    if ty in {SLASH, COLON, AT, AM, PM, ON, AND, THROUGH, FROM, TO} {
      SignIsOnly(ty, word, s);
    } else {
      DayIsOnly(ty, word, s);
    }
  }

  // Whatever matches is the type that Only names, and the text is not empty unless the input is.
  lemma MatchIsOnly(ty: TokenType, s: string)
    requires Match(ty, s).Some?
    ensures ty == Only(s)
    ensures s != "" ==> 0 < Match(ty, s).value <= |s|
  {
    if ty != EOF && ty != WS && ty != INT {
      var words := Words(ty);
      var i :| 0 <= i < |words| && StartsWith(s, words[i]) && |words[i]| == Match(ty, s).value;
      WordIsOnly(ty, words[i], s);
    }
  }

  // ---- A match is the longest word ----

  // No word is the beginning of a later one.
  predicate LongestFirst(words: seq<string>) {
    forall i, j :: 0 <= i < j < |words| ==> !(words[i] <= words[j])
  }

  lemma WordsLongestFirst(ty: TokenType)
    ensures LongestFirst(Words(ty))
  {
    var words := Words(ty);
    forall i, j | 0 <= i < j < |words| ensures !(words[i] <= words[j]) {
      var v, w := words[i], words[j];
      assert |v| > |w| || v[0] != w[0] || v[1] != w[1];
    }
  }

  lemma BothStart(s: string, v: string, w: string)
    requires StartsWith(s, v) && StartsWith(s, w) && |v| <= |w|
    ensures v <= w
  {
  }

  lemma {:induction false} FirstIsLongest(words: seq<string>, s: string, w: string)
    requires LongestFirst(words) && w in words && StartsWith(s, w)
    ensures MatchWords(words, s).Some? && |w| <= MatchWords(words, s).value
  {
    hide StartsWith;
    if StartsWith(s, words[0]) {
      var j :| 0 <= j < |words| && words[j] == w;
      if |w| > |words[0]| { BothStart(s, words[0], w); }
    } else {
      assert words == [words[0]] + words[1..];
      FirstIsLongest(words[1..], s, w);
    }
  }

  lemma MatchIsLongest(ty: TokenType, s: string, w: string)
    requires w in Words(ty) && StartsWith(s, w)
    ensures Match(ty, s).Some? && |w| <= Match(ty, s).value
  {
    WordsLongestFirst(ty);
    FirstIsLongest(Words(ty), s, w);
  }

  // ---- The token list of a text ----

  function NextToken(input: string, pos: nat): Option<Token>
    requires pos < |input|
  {
    var s := input[pos..];
    var ty := Only(s);
    match Match(ty, s)
    case None => None
    case Some(n) => Some(Token(ty, pos, pos + n, input))
  }

  function Lex(input: string, pos: nat): (r: Result<seq<Token>, ParseError>)
    requires pos <= |input|
    decreases |input| - pos
  {
    if pos == |input| then Ok([Token(EOF, pos, pos, input)])
    else
      match NextToken(input, pos)
      case None => Err(ParseError(pos, |input|))
      case Some(t) =>
        MatchIsOnly(t.ty, input[pos..]);
        match Lex(input, t.end)
        case Err(e) => Err(e)
        case Ok(ts) => Ok(if t.ty == WS then ts else [t] + ts)
  }

  // Any order in which Go may range over the map of patterns.
  ghost predicate IsOrder(order: seq<TokenType>) {
    && (forall ty: TokenType :: ty in order <==> ty != ILLEGAL)
    && (forall i, j :: 0 <= i < j < |order| ==> order[i] != order[j])
  }

  function Prepend(ts: seq<Token>, r: Result<seq<Token>, ParseError>): Result<seq<Token>, ParseError> {
    match r
    case Ok(us) => Ok(ts + us)
    case Err(e) => Err(e)
  }

  lemma PrependNothing(r: Result<seq<Token>, ParseError>)
    ensures Prepend([], r) == r
  {
    if r.Ok? { assert [] + r.value == r.value; }
  }

  lemma PrependMore(ts: seq<Token>, t: Token, r: Result<seq<Token>, ParseError>)
    ensures Prepend(ts, Prepend([t], r)) == Prepend(ts + [t], r)
  {
    if r.Ok? { assert ts + ([t] + r.value) == (ts + [t]) + r.value; }
  }

  lemma NoIllegalMatch(s: string)
    ensures Match(ILLEGAL, s) == None
  {
  }

  // The inner loop: at most one match is found, so it does not matter which of them becomes the candidate.
  method FindMatches(input: string, pos: nat, order: seq<TokenType>) returns (matches: seq<Token>)
    requires pos < |input| && IsOrder(order)
    ensures matches == match NextToken(input, pos) case None => [] case Some(t) => [t]
  {
    hide Match, Only;
    var s := input[pos..];
    var only := Only(s);
    matches := [];
    for k := 0 to |order|
      invariant matches == if only in order[..k] && Match(only, s).Some?
                           then [Token(only, pos, pos + Match(only, s).value, input)] else []
    {
      var m := Match(order[k], s);
      if m.Some? {
        MatchIsOnly(order[k], s);
        matches := matches + [Token(order[k], pos, pos + m.value, input)];
      }
    }
    assert order[..|order|] == order;
    NoIllegalMatch(s);
  }

  // Whatever order the map is ranged over in, at each position, the result is Lex(input, 0).
  method Tokenize(input: string, order: nat -> seq<TokenType>) returns (r: Result<seq<Token>, ParseError>)
    requires forall p :: IsOrder(order(p))
    ensures r == Lex(input, 0)
  {
    hide Match, Only;
    var tokens := [];
    var pos := 0;
    assert Lex(input, 0) == Prepend([], Lex(input, 0)) by { PrependNothing(Lex(input, 0)); }
    while pos < |input|
      invariant pos <= |input|
      invariant Lex(input, 0) == Prepend(tokens, Lex(input, pos))
    {
      var matches := FindMatches(input, pos, order(pos));
      if matches == [] {
        return Err(NewParseError(input, pos, |input|));
      }
      var candidate := matches[0];
      MatchIsOnly(candidate.ty, input[pos..]);
      if candidate.ty != WS {
        PrependMore(tokens, candidate, Lex(input, candidate.end));
        tokens := tokens + [candidate];
      }
      pos := candidate.end;
    }
    tokens := tokens + [Token(EOF, pos, pos, input)];
    return Ok(tokens);
  }

  // ---- The token list is the only way to read the text ----

  predicate Blank(input: string, from: nat, to: nat) {
    from <= to <= |input| && forall i :: from <= i < to ==> Space(input[i])
  }

  // ts reads the text from pos on: tokens in order and disjoint, each the match of its pattern, nothing but
  // white space between them, and EOF at the end of the text and nowhere else.
  predicate Reads(input: string, pos: nat, ts: seq<Token>)
    decreases |ts|
  {
    && ts != []
    && ts[0].input == input
    && Blank(input, pos, ts[0].start)
    && if |ts| == 1 then ts[0] == Token(EOF, |input|, |input|, input)
       else
         && ts[0].ty != EOF && ts[0].ty != WS
         && ts[0].start < ts[0].end <= |input|
         && Match(ts[0].ty, input[ts[0].start..]) == Some(ts[0].end - ts[0].start)
         && Reads(input, ts[0].end, ts[1..])
  }

  lemma NotEOF(ty: TokenType, s: string)
    requires Match(ty, s).Some? && s != ""
    ensures ty != EOF
  {
  }

  lemma {:induction false} LexReads(input: string, pos: nat)
    requires pos <= |input| && Lex(input, pos).Ok?
    ensures Reads(input, pos, Lex(input, pos).value)
    decreases |input| - pos
  {
    if pos < |input| {
      hide Only, MatchWords, Words;
      var t := NextToken(input, pos).value;
      MatchIsOnly(t.ty, input[pos..]);
      LexReads(input, t.end);
      var ts := Lex(input, t.end).value;
      if t.ty == WS {
        forall i | pos <= i < t.end ensures Space(input[i]) {
          assert input[i] == input[pos..][i - pos];
        }
      } else {
        assert ([t] + ts)[1..] == ts;
        NotEOF(t.ty, input[pos..]);
      }
    }
  }

  lemma NextTokenIs(input: string, pos: nat, ty: TokenType)
    requires pos < |input| && Match(ty, input[pos..]).Some?
    ensures NextToken(input, pos) == Some(Token(ty, pos, pos + Match(ty, input[pos..]).value, input))
    ensures pos < pos + Match(ty, input[pos..]).value <= |input|
  {
    hide Only, Match;
    MatchIsOnly(ty, input[pos..]);
  }

  lemma TokenIsNotSpace(ty: TokenType, s: string)
    requires Match(ty, s).Some? && s != "" && ty != WS
    ensures !Space(s[0])
  {
    MatchIsOnly(ty, s);
  }

  // The white space before a token is exactly one match of the WS pattern.
  lemma GapIsWhiteSpace(input: string, pos: nat, ts: seq<Token>)
    requires Reads(input, pos, ts) && pos < ts[0].start
    ensures Match(WS, input[pos..]) == Some(ts[0].start - pos)
  {
    hide Only, MatchWords, Words;
    var s := input[pos..];
    var n := ts[0].start - pos;
    var r := RunOf(s, false);
    assert forall i :: 0 <= i < n ==> Space(s[i]);
    assert !(r < n);
    if |ts| > 1 {
      TokenIsNotSpace(ts[0].ty, input[ts[0].start..]);
      assert s[n] == input[ts[0].start..][0];
    }
  }

  lemma {:induction false} ReadsIsLex(input: string, pos: nat, ts: seq<Token>)
    requires Reads(input, pos, ts)
    ensures pos <= |input| && Lex(input, pos) == Ok(ts)
    decreases |input| - pos, |ts|
  {
    hide Only, Match, NextToken;
    var t := ts[0];
    if pos < t.start {
      GapIsWhiteSpace(input, pos, ts);
      NextTokenIs(input, pos, WS);
      ReadsIsLex(input, t.start, ts);
    } else if |ts| > 1 {
      NextTokenIs(input, pos, t.ty);
      ReadsIsLex(input, t.end, ts[1..]);
      assert ts == [t] + ts[1..];
    } else {
      assert ts == [t];
    }
  }

  // A text has the token list ts if and only if ts reads it from start to end; so there is at most one.
  lemma LexIff(input: string, ts: seq<Token>)
    ensures Lex(input, 0) == Ok(ts) <==> Reads(input, 0, ts)
  {
    if Lex(input, 0) == Ok(ts) {
      LexReads(input, 0);
    }
    if Reads(input, 0, ts) {
      ReadsIsLex(input, 0, ts);
    }
  }

  // The tokenizer fails only where no pattern matches, and reports the rest of the text.
  lemma {:induction false} LexFails(input: string, pos: nat, ty: TokenType)
    requires pos <= |input| && Lex(input, pos).Err?
    ensures var e := Lex(input, pos).error;
            pos <= e.start < e.end == |input| && Match(ty, input[e.start..]) == None
    decreases |input| - pos
  {
    if pos < |input| {
      hide Only, MatchWords, Words, Match;
      if Match(ty, input[pos..]).Some? { MatchIsOnly(ty, input[pos..]); }
      if NextToken(input, pos).Some? {
        var t := NextToken(input, pos).value;
        MatchIsOnly(t.ty, input[pos..]);
        LexFails(input, t.end, ty);
      }
    }
  }
}
