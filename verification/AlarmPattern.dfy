/** The pattern \w+\(#(\d+)(,+\d+)?\) by which an alarm text is taken apart
    (falcon-message/util/util.go). */
module AlarmPattern {
  import opened Wrappers
  import opened Regex

  predicate Words(s: string) { s != "" && AllIn(Word, s) }

  predicate Digits(s: string) { s != "" && AllIn(Digit, s) }

  predicate Commas(s: string) { s != "" && forall i :: 0 <= i < |s| ==> s[i] == ',' }

  /** The optional second group. */
  predicate SecondGroup(s: string) {
    s == "" || exists i :: 0 < i < |s| && Commas(s[..i]) && Digits(s[i..])
  }

  function FuncText(name: string, n: string, more: string): string {
    name + "(#" + n + more + ")"
  }

  ghost predicate IsFunc(s: string) {
    exists name, n, more :: FuncOf(s, name, n, more)
  }

  ghost predicate FuncOf(s: string, name: string, n: string, more: string) {
    Words(name) && Digits(n) && SecondGroup(more) && s == FuncText(name, n, more)
  }

  const PATTERN := Cat(Plus(Word), AFTER_NAME)
  const AFTER_NAME := Cat(Lit("(#"), NUMBERS)
  const NUMBERS := Cat(Plus(Digit), CLOSE)
  const CLOSE := Cat(SECOND, Lit(")"))
  const SECOND := Alt(Lit(""), Cat(COMMAS, Plus(Digit)))
  const COMMAS := Cat(Lit(","), Star(Lit(",")))

  lemma {:induction false} StarOfCommas(s: string)
    ensures Matches(Star(Lit(",")), s) <==> s == "" || Commas(s)
    decreases |s|
  {
    if s != "" {
      if Matches(Star(Lit(",")), s) {
        var x, y := StarElim(Lit(","), s);
        StarOfCommas(y);
      }
      if Commas(s) {
        StarOfCommas(s[1..]);
        StarIntro(Lit(","), ",", s[1..]);
        assert s == "," + s[1..];
      }
    }
  }

  lemma CommasIff(s: string)
    ensures Matches(COMMAS, s) <==> Commas(s)
  {
    if Matches(COMMAS, s) {
      var x, y := CatElim(Lit(","), Star(Lit(",")), s);
      StarOfCommas(y);
    }
    if Commas(s) {
      StarOfCommas(s[1..]);
      CatIntro(Lit(","), Star(Lit(",")), ",", s[1..]);
      assert s == "," + s[1..];
    }
  }

  lemma AltElim(a: Re, b: Re, s: string)
    requires Matches(Alt(a, b), s)
    ensures Matches(a, s) || Matches(b, s)
  {
  }

  lemma SecondIff(s: string)
    ensures Matches(SECOND, s) <==> SecondGroup(s)
  {
    hide AllIn, InClass;
    if s != "" && Matches(SECOND, s) {
      AltElim(Lit(""), Cat(COMMAS, Plus(Digit)), s);
      var c, d := CatElim(COMMAS, Plus(Digit), s);
      CommasIff(c);
      PlusOfClass(Digit, d);
      assert s[..|c|] == c && s[|c|..] == d;
    }
    if i :| 0 < i < |s| && Commas(s[..i]) && Digits(s[i..]) {
      CommasIff(s[..i]);
      PlusOfClass(Digit, s[i..]);
      CatIntro(COMMAS, Plus(Digit), s[..i], s[i..]);
      assert s[..i] + s[i..] == s;
    }
  }

  lemma CloseIff(s: string)
    ensures Matches(CLOSE, s) <==> exists more :: SecondGroup(more) && s == more + ")"
  {
    hide SecondGroup;
    if Matches(CLOSE, s) {
      var more, close := CatElim(SECOND, Lit(")"), s);
      SecondIff(more);
    }
    if more :| SecondGroup(more) && s == more + ")" {
      SecondIff(more);
      CatIntro(SECOND, Lit(")"), more, ")");
    }
  }

  lemma NumbersElim(s: string) returns (n: string, more: string)
    requires Matches(NUMBERS, s)
    ensures Digits(n) && SecondGroup(more) && s == n + (more + ")")
  {
    hide Matches, SecondGroup;
    var close;
    n, close := CatElim(Plus(Digit), CLOSE, s);
    PlusOfClass(Digit, n);
    CloseIff(close);
    more :| SecondGroup(more) && close == more + ")";
  }

  lemma NumbersIntro(n: string, more: string)
    requires Digits(n) && SecondGroup(more)
    ensures Matches(NUMBERS, n + (more + ")"))
  {
    hide Matches, SecondGroup;
    PlusOfClass(Digit, n);
    CloseIff(more + ")");
    CatIntro(Plus(Digit), CLOSE, n, more + ")");
  }

  /** What the pattern matches, in full. */
  lemma PatternIff(s: string)
    ensures Matches(PATTERN, s) <==> IsFunc(s)
  {
    hide SecondGroup, Digits;
    if Matches(PATTERN, s) {
      PatternElim(s);
    }
    if name, n, more :| FuncOf(s, name, n, more) {
      FuncMatches(name, n, more);
    }
  }

  lemma AfterNameElim(s: string) returns (n: string, more: string)
    requires Matches(AFTER_NAME, s)
    ensures Digits(n) && SecondGroup(more) && s == "(#" + (n + (more + ")"))
  {
    hide SecondGroup, Digits;
    var open, r := CatElim(Lit("(#"), NUMBERS, s);
    LitElim("(#", open);
    hide Matches;
    n, more := NumbersElim(r);
  }

  lemma PatternElim(s: string)
    requires Matches(PATTERN, s)
    ensures IsFunc(s)
  {
    hide Matches, AllIn, SecondGroup, Digits;
    var name, r := CatElim(Plus(Word), AFTER_NAME, s);
    PlusOfClass(Word, name);
    var n, more := AfterNameElim(r);
    assert s == FuncText(name, n, more);
    assert FuncOf(s, name, n, more);
  }

  lemma FuncMatches(name: string, n: string, more: string)
    requires Words(name) && Digits(n) && SecondGroup(more)
    ensures Matches(PATTERN, FuncText(name, n, more))
  {
    hide SecondGroup, Matches;
    PlusOfClass(Word, name);
    NumbersIntro(n, more);
    LitMatches("(#");
    CatIntro(Lit("(#"), NUMBERS, "(#", n + (more + ")"));
    CatIntro(Plus(Word), AFTER_NAME, name, "(#" + (n + (more + ")")));
    assert FuncText(name, n, more) == name + ("(#" + (n + (more + ")")));
  }

  lemma LitElim(text: string, s: string)
    requires Matches(Lit(text), s)
    ensures s == text
  {
  }

  lemma LitMatches(s: string)
    ensures Matches(Lit(s), s)
  {
  }

  // ----- Matching at the front of a text -----

  function ClassLen(k: Class, s: string): (n: nat)
    ensures n <= |s| && AllIn(k, s[..n]) && (n < |s| ==> !InClass(k, s[n]))
  {
    if s == "" || !InClass(k, s[0]) then 0
    else
      assert forall n: nat :: n <= |s| - 1 ==> s[..n + 1] == [s[0]] + s[1..][..n];
      1 + ClassLen(k, s[1..])
  }

  function CommaLen(s: string): (n: nat)
    ensures n <= |s| && (forall i :: 0 <= i < n ==> s[i] == ',') && (n < |s| ==> s[n] != ',')
  {
    if s == "" || s[0] != ',' then 0 else 1 + CommaLen(s[1..])
  }

  /** Length of the second group and the closing parenthesis at the front of `s`. */
  function CloseLen(s: string): Option<nat> {
    if s == "" then None
    else if s[0] == ')' then Some(1)
    else
      var c := CommaLen(s);
      var d := ClassLen(Digit, s[c..]);
      if c > 0 && d > 0 && c + d < |s| && s[c + d] == ')' then Some(c + d + 1) else None
  }

  /** Length of the match that starts at the front of `s`; the greedy choices are forced. */
  function MatchLen(s: string): Option<nat> {
    var w := ClassLen(Word, s);
    if w == 0 || w + 2 > |s| || s[w] != '(' || s[w + 1] != '#' then None
    else
      var d := ClassLen(Digit, s[w + 2..]);
      if d == 0 then None
      else
        match CloseLen(s[w + 2 + d..])
        case None => None
        case Some(n) => Some(w + 2 + d + n)
  }

  lemma {:induction false} ClassLenIs(k: Class, a: string, t: string)
    requires AllIn(k, a) && t != "" && !InClass(k, t[0])
    ensures ClassLen(k, a + t) == |a|
  {
    hide InClass;
    if a == "" {
      assert a + t == t;
    } else {
      assert (a + t)[1..] == a[1..] + t;
      ClassLenIs(k, a[1..], t);
    }
  }

  lemma CommaLenIs(a: string, t: string)
    requires Commas(a) && t != "" && t[0] != ','
    ensures CommaLen(a + t) == |a|
  {
    hide CommaLen;
    assert (a + t)[|a|] == t[0];
    assert CommaLen(a + t) == |a|;
  }

  lemma CloseLenIs(more: string, rest: string)
    requires SecondGroup(more)
    ensures CloseLen(more + ")" + rest) == Some(|more| + 1)
  {
    hide ClassLen, CommaLen;
    var s := more + ")" + rest;
    if more != "" {
      var i :| 0 < i < |more| && Commas(more[..i]) && Digits(more[i..]);
      var c, d := more[..i], more[i..];
      assert s == c + (d + (")" + rest));
      CommaLenIs(c, d + (")" + rest));
      ClassLenIs(Digit, d, ")" + rest);
      assert s[i..] == d + (")" + rest);
    }
  }

  /** A function text at the front is found, whatever follows it. */
  lemma FuncIsFound(s: string, name: string, n: string, more: string, rest: string)
    requires FuncOf(s, name, n, more)
    ensures MatchLen(s + rest) == Some(|s|)
  {
    hide ClassLen, CloseLen, SecondGroup;
    var t := s + rest;
    var r1 := "(#" + (n + (more + ")" + rest));
    var r2 := more + ")" + rest;
    assert t == name + r1;
    ClassLenIs(Word, name, r1);
    assert t[|name| + 2..] == n + r2;
    CloseStartsRight(more, rest);
    ClassLenIs(Digit, n, r2);
    assert t[|name| + 2 + |n|..] == r2;
    CloseLenIs(more, rest);
  }

  lemma CloseStartsRight(more: string, rest: string)
    requires SecondGroup(more)
    ensures !InClass(Digit, (more + ")" + rest)[0])
  {
    if more != "" {
      var i :| 0 < i < |more| && Commas(more[..i]) && Digits(more[i..]);
      assert more[0] == more[..i][0] == ',';
    }
  }

  lemma CloseIsGroup(s: string)
    requires CloseLen(s).Some?
    ensures var n := CloseLen(s).value; 0 < n <= |s| && SecondGroup(s[..n - 1]) && s[n - 1] == ')'
  {
    hide ClassLen, CommaLen;
    if s[0] != ')' {
      var c := CommaLen(s);
      var d := ClassLen(Digit, s[c..]);
      var more := s[..c + d];
      assert more[..c] == s[..c] && more[c..] == s[c..][..d];
    }
  }

  /** What is found at the front is a function text. */
  lemma FoundIsFunc(s: string)
    requires MatchLen(s).Some?
    ensures 0 < MatchLen(s).value <= |s| && IsFunc(s[..MatchLen(s).value])
  {
    hide ClassLen, CloseLen, SecondGroup;
    var w := ClassLen(Word, s);
    var d := ClassLen(Digit, s[w + 2..]);
    var tail := s[w + 2 + d..];
    CloseIsGroup(tail);
    var n := CloseLen(tail).value;
    var name, num, more := s[..w], s[w + 2..][..d], tail[..n - 1];
    assert s[..w + 2 + d + n] == FuncText(name, num, more);
    assert FuncOf(s[..w + 2 + d + n], name, num, more);
  }

  /** So "some prefix matches the pattern" and "the front matcher succeeds" are the same, and
      the matching prefix is unique. */
  lemma FrontMatchIff(s: string, k: nat)
    requires k <= |s|
    ensures Matches(PATTERN, s[..k]) <==> MatchLen(s) == Some(k)
  {
    hide MatchLen, PATTERN;
    PatternIff(s[..k]);
    if IsFunc(s[..k]) {
      var name, n, more :| FuncOf(s[..k], name, n, more);
      FuncIsFound(s[..k], name, n, more, s[k..]);
      assert s[..k] + s[k..] == s;
    }
    if MatchLen(s) == Some(k) {
      FoundIsFunc(s);
    }
  }
}
