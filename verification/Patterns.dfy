// The patterns of the tokenizer as regular expressions, matched the way a leftmost-first matcher does.

module Patterns {
  import opened Wrappers
  import opened Tokens

  datatype Regex =
    | Lit(word: string)
    | Cat(first: Regex, second: Regex)
    | Alt(left: Regex, right: Regex)
    | Opt(body: Regex)

  function Shifted(n: nat, ms: seq<nat>): (ns: seq<nat>)
    ensures |ns| == |ms| && forall i :: 0 <= i < |ms| ==> ns[i] == n + ms[i]
  {
    seq(|ms|, i requires 0 <= i < |ms| => n + ms[i])
  }

  // The lengths at which r matches the beginning of s, ignoring case, in the order in which they are tried:
  // left before right, and with an optional part before without.
  function Tries(r: Regex, s: string): (ns: seq<nat>)
    ensures forall i :: 0 <= i < |ns| ==> ns[i] <= |s|
    decreases r, 0
  {
    match r
    case Lit(word) => if StartsWith(s, word) then [|word|] else []
    case Alt(left, right) => Tries(left, s) + Tries(right, s)
    case Opt(body) => Tries(body, s) + [0]
    case Cat(first, second) => Follow(Tries(first, s), second, s)
  }

  function Follow(ns: seq<nat>, r: Regex, s: string): (ms: seq<nat>)
    requires forall i :: 0 <= i < |ns| ==> ns[i] <= |s|
    ensures forall i :: 0 <= i < |ms| ==> ms[i] <= |s|
    decreases r, 1, |ns|
  {
    if ns == [] then [] else Shifted(ns[0], Tries(r, s[ns[0]..])) + Follow(ns[1..], r, s)
  }

  function FirstOf(ns: seq<nat>): Option<nat> {
    if ns == [] then None else Some(ns[0])
  }

  // The pattern of each token type that is not given by a class of characters.
  function PatternOf(ty: TokenType): Option<Regex> {
    match ty
    case SLASH => Some(Lit("/"))
    case COLON => Some(Lit(":"))
    case AT => Some(Lit("at"))
    case AM => Some(Lit("am"))
    case PM => Some(Lit("pm"))
    case ON => Some(Lit("on"))
    case AND => Some(Alt(Lit("and"), Alt(Lit("also"), Lit(","))))
    case THROUGH => Some(Alt(Lit("through"), Alt(Lit("thru"), Lit("-"))))
    case FROM => Some(Alt(Lit("from"), Lit("starting")))
    case TO => Some(Alt(Lit("to"), Lit("until")))
    case MON => Some(Cat(Lit("mon"), Opt(Lit("day"))))
    case TUE => Some(Cat(Lit("tue"), Opt(Lit("sday"))))
    case WED => Some(Cat(Lit("wed"), Opt(Lit("nesday"))))
    case THUR => Some(Cat(Lit("thu"), Opt(Cat(Lit("r"), Opt(Lit("sday"))))))
    case FRI => Some(Cat(Lit("fri"), Opt(Lit("day"))))
    case SAT => Some(Cat(Lit("sat"), Opt(Lit("urday"))))
    case SUN => Some(Cat(Lit("sun"), Opt(Lit("day"))))
    case _ => None
  }

  // ---- A regular expression without repetition is a list of words ----

  function Prefixed(v: string, ws: seq<string>): (us: seq<string>)
    ensures |us| == |ws| && forall i :: 0 <= i < |ws| ==> us[i] == v + ws[i]
  {
    seq(|ws|, i requires 0 <= i < |ws| => v + ws[i])
  }

  function Product(vs: seq<string>, ws: seq<string>): seq<string> {
    if vs == [] then [] else Prefixed(vs[0], ws) + Product(vs[1..], ws)
  }

  function WordsOf(r: Regex): seq<string> {
    match r
    case Lit(word) => [word]
    case Alt(left, right) => WordsOf(left) + WordsOf(right)
    case Opt(body) => WordsOf(body) + [""]
    case Cat(first, second) => Product(WordsOf(first), WordsOf(second))
  }

  // The lengths of those words that s begins with, in order.
  function Fitting(ws: seq<string>, s: string): (ns: seq<nat>)
    ensures forall i :: 0 <= i < |ns| ==> ns[i] <= |s|
  {
    if ws == [] then []
    else (if StartsWith(s, ws[0]) then [|ws[0]|] else []) + Fitting(ws[1..], s)
  }

  lemma {:induction false} FittingConcat(vs: seq<string>, ws: seq<string>, s: string)
    ensures Fitting(vs + ws, s) == Fitting(vs, s) + Fitting(ws, s)
  {
    hide StartsWith;
    if vs == [] {
      assert vs + ws == ws;
    } else {
      assert (vs + ws)[1..] == vs[1..] + ws;
      FittingConcat(vs[1..], ws, s);
    }
  }

  lemma StartsInParts(s: string, v: string, w: string)
    ensures StartsWith(s, v + w) <==> StartsWith(s, v) && StartsWith(s[|v|..], w)
  {
    if StartsWith(s, v + w) {
      forall i | 0 <= i < |w| ensures Lower(s[|v|..][i]) == w[i] {
        assert (v + w)[|v| + i] == w[i];
      }
      forall i | 0 <= i < |v| ensures Lower(s[i]) == v[i] {
        assert (v + w)[i] == v[i];
      }
    }
  }

  lemma ShiftedConcat(n: nat, a: seq<nat>, b: seq<nat>)
    ensures Shifted(n, a + b) == Shifted(n, a) + Shifted(n, b)
  {
  }

  function FitOne(w: string, s: string): seq<nat> {
    if StartsWith(s, w) then [|w|] else []
  }

  lemma FittingCons(w: string, ws: seq<string>, s: string)
    ensures Fitting([w] + ws, s) == FitOne(w, s) + Fitting(ws, s)
  {
    assert ([w] + ws)[1..] == ws;
  }

  lemma StartsFits(s: string, v: string)
    ensures StartsWith(s, v) ==> |v| <= |s|
  {
  }

  lemma FittingNothing(s: string)
    ensures Fitting([], s) == []
  {
  }

  lemma FitInParts(v: string, w: string, s: string)
    ensures FitOne(v + w, s) == if StartsWith(s, v) then Shifted(|v|, FitOne(w, s[|v|..])) else []
  {
    StartsInParts(s, v, w);
  }

  lemma FittingShifted(v: string, ws: seq<string>, t: string)
    requires ws != []
    ensures Shifted(|v|, Fitting(ws, t)) == Shifted(|v|, FitOne(ws[0], t)) + Shifted(|v|, Fitting(ws[1..], t))
  {
    hide Fitting, FitOne, Shifted;
    assert ws == [ws[0]] + ws[1..];
    FittingCons(ws[0], ws[1..], t);
    ShiftedConcat(|v|, FitOne(ws[0], t), Fitting(ws[1..], t));
  }

  lemma {:induction false} FittingPrefixed(v: string, ws: seq<string>, s: string)
    ensures Fitting(Prefixed(v, ws), s) == if StartsWith(s, v) then Shifted(|v|, Fitting(ws, s[|v|..])) else []
  {
    StartsFits(s, v);
    hide StartsWith, Fitting, FitOne;
    FittingNothing(s);
    if ws == [] {
      assert Prefixed(v, ws) == [];
      if StartsWith(s, v) { FittingNothing(s[|v|..]); }
    } else {
      var rest := Prefixed(v, ws[1..]);
      assert Prefixed(v, ws) == [v + ws[0]] + rest;
      FittingCons(v + ws[0], rest, s);
      FitInParts(v, ws[0], s);
      FittingPrefixed(v, ws[1..], s);
      if StartsWith(s, v) { FittingShifted(v, ws, s[|v|..]); }
    }
  }

  lemma FollowCons(n: nat, ns: seq<nat>, r: Regex, s: string)
    requires n <= |s| && forall i :: 0 <= i < |ns| ==> ns[i] <= |s|
    ensures Follow([n] + ns, r, s) == Shifted(n, Tries(r, s[n..])) + Follow(ns, r, s)
  {
    assert ([n] + ns)[1..] == ns;
  }

  lemma {:induction false} FollowFits(vs: seq<string>, r: Regex, s: string)
    requires forall t: string :: Tries(r, t) == Fitting(WordsOf(r), t)
    ensures Follow(Fitting(vs, s), r, s) == Fitting(Product(vs, WordsOf(r)), s)
  {
    hide StartsWith, Fitting;
    if vs == [] {
      FittingNothing(s);
    } else {
      var v, ws := vs[0], WordsOf(r);
      assert vs == [v] + vs[1..];
      FittingCons(v, vs[1..], s);
      FollowFits(vs[1..], r, s);
      FittingPrefixed(v, ws, s);
      FittingConcat(Prefixed(v, ws), Product(vs[1..], ws), s);
      if StartsWith(s, v) {
        StartsFits(s, v);
        FollowCons(|v|, Fitting(vs[1..], s), r, s);
        var t := s[|v|..];
        assert Tries(r, t) == Fitting(ws, t);
        assert Fitting(vs, s) == [|v|] + Fitting(vs[1..], s);
        assert Follow(Fitting(vs, s), r, s) == Shifted(|v|, Tries(r, t)) + Follow(Fitting(vs[1..], s), r, s);
        assert Fitting(Prefixed(v, ws), s) == Shifted(|v|, Fitting(ws, t));
        assert Product(vs, ws) == Prefixed(v, ws) + Product(vs[1..], ws);
      } else {
        assert Fitting(vs, s) == Fitting(vs[1..], s);
      }
    }
  }

  lemma {:induction false} TriesFit(r: Regex, s: string)
    ensures Tries(r, s) == Fitting(WordsOf(r), s)
  {
    match r
    case Lit(word) =>
    case Alt(left, right) =>
      TriesFit(left, s);
      TriesFit(right, s);
      FittingConcat(WordsOf(left), WordsOf(right), s);
    case Opt(body) =>
      TriesFit(body, s);
      FittingConcat(WordsOf(body), [""], s);
    case Cat(first, second) =>
      TriesFit(first, s);
      forall t: string ensures Tries(second, t) == Fitting(WordsOf(second), t) { TriesFit(second, t); }
      FollowFits(WordsOf(first), second, s);
  }

  lemma {:induction false} FirstFits(ws: seq<string>, s: string)
    ensures MatchWords(ws, s) == FirstOf(Fitting(ws, s))
  {
    hide StartsWith;
    if ws != [] { FirstFits(ws[1..], s); }
  }

  lemma Stem(stem: string, tail: string, whole: string)
    requires whole == stem + tail
    ensures WordsOf(Cat(Lit(stem), Opt(Lit(tail)))) == [whole, stem]
  {
    var ws := WordsOf(Opt(Lit(tail)));
    assert WordsOf(Lit(tail)) == [tail];
    assert ws == [tail] + [""];
    assert WordsOf(Lit(stem)) == [stem];
    assert Product([stem], ws) == Prefixed(stem, ws) + Product([], ws);
    assert stem + "" == stem;
  }

  lemma ThursdayWords()
    ensures WordsOf(PatternOf(THUR).value) == ["thursday", "thur", "thu"]
  {
    var r := Opt(Cat(Lit("r"), Opt(Lit("sday"))));
    Stem("r", "sday", "rsday");
    var ws := ["rsday", "r", ""];
    assert WordsOf(r) == WordsOf(r.body) + [""];
    assert WordsOf(r.body)[0] == "rsday";
    assert WordsOf(r) == ws;
    assert WordsOf(Lit("thu")) == ["thu"];
    assert "thu" + "rsday" == "thursday" && "thu" + "r" == "thur" && "thu" + "" == "thu";
    assert Product(["thu"], ws) == Prefixed("thu", ws) + Product([], ws);
  }

  lemma PatternHasWords(ty: TokenType)
    requires PatternOf(ty).Some?
    ensures WordsOf(PatternOf(ty).value) == Words(ty)
  {
    match ty
    case MON => Stem("mon", "day", "monday");
    case TUE => Stem("tue", "sday", "tuesday");
    case WED => Stem("wed", "nesday", "wednesday");
    case FRI => Stem("fri", "day", "friday");
    case SAT => Stem("sat", "urday", "saturday");
    case SUN => Stem("sun", "day", "sunday");
    case THUR => ThursdayWords();
    case _ =>
  }

  // A token type matches what its regular expression matches.
  lemma MatchIsPattern(ty: TokenType, s: string)
    requires PatternOf(ty).Some?
    ensures Match(ty, s) == FirstOf(Tries(PatternOf(ty).value, s))
  {
    hide StartsWith, WordsOf, Words, Tries, Fitting;
    PatternHasWords(ty);
    TriesFit(PatternOf(ty).value, s);
    FirstFits(Words(ty), s);
  }
}
