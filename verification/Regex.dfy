/** What it means for a whole string to match a regular expression. The matching engine is
    outside the model; its patterns are given this declarative meaning. */
module Regex {

  datatype Class = NotParens | PlusMinus | Digit | Word

  predicate InClass(k: Class, c: char) {
    match k
    case NotParens => c != '(' && c != ')'
    case PlusMinus => c == '+' || c == '-'
    case Digit => '0' <= c <= '9'
    case Word => '0' <= c <= '9' || 'a' <= c <= 'z' || 'A' <= c <= 'Z' || c == '_'
  }

  datatype Re =
    | Lit(text: string)
    | One(cls: Class)
    | Cat(left: Re, right: Re)
    | Alt(left: Re, right: Re)
    | Star(body: Re)

  ghost predicate Matches(re: Re, s: string)
    decreases re, |s|
  {
    match re
    case Lit(text) => s == text
    case One(k) => |s| == 1 && InClass(k, s[0])
    case Cat(a, b) => exists i :: 0 <= i <= |s| && Matches(a, s[..i]) && Matches(b, s[i..])
    case Alt(a, b) => Matches(a, s) || Matches(b, s)
    case Star(a) => s == "" || exists i :: 0 < i <= |s| && Matches(a, s[..i]) && Matches(re, s[i..])
  }

  function Plus(k: Class): Re { Cat(One(k), Star(One(k))) }

  predicate AllIn(k: Class, s: string) {
    forall i :: 0 <= i < |s| ==> InClass(k, s[i])
  }

  lemma CatIntro(a: Re, b: Re, x: string, y: string)
    requires Matches(a, x) && Matches(b, y)
    ensures Matches(Cat(a, b), x + y)
  {
    assert (x + y)[..|x|] == x && (x + y)[|x|..] == y;
  }

  lemma CatElim(a: Re, b: Re, s: string) returns (x: string, y: string)
    requires Matches(Cat(a, b), s)
    ensures s == x + y && Matches(a, x) && Matches(b, y)
  {
    var i :| 0 <= i <= |s| && Matches(a, s[..i]) && Matches(b, s[i..]);
    x, y := s[..i], s[i..];
  }

  lemma StarIntro(a: Re, x: string, y: string)
    requires x != "" && Matches(a, x) && Matches(Star(a), y)
    ensures Matches(Star(a), x + y)
  {
    assert (x + y)[..|x|] == x && (x + y)[|x|..] == y;
  }

  lemma StarElim(a: Re, s: string) returns (x: string, y: string)
    requires Matches(Star(a), s) && s != ""
    ensures s == x + y && x != "" && Matches(a, x) && Matches(Star(a), y)
  {
    var i :| 0 < i <= |s| && Matches(a, s[..i]) && Matches(Star(a), s[i..]);
    x, y := s[..i], s[i..];
  }

  lemma {:induction false} StarOfClass(k: Class, s: string)
    ensures Matches(Star(One(k)), s) <==> AllIn(k, s)
    decreases |s|
  {
    hide InClass;
    if s != "" {
      if Matches(Star(One(k)), s) {
        var x, y := StarElim(One(k), s);
        StarOfClass(k, y);
      }
      if AllIn(k, s) {
        StarOfClass(k, s[1..]);
        StarAdds(k, s);
      }
    }
  }

  lemma StarAdds(k: Class, s: string)
    requires s != "" && InClass(k, s[0]) && Matches(Star(One(k)), s[1..])
    ensures Matches(Star(One(k)), s)
  {
    hide InClass;
    StarIntro(One(k), [s[0]], s[1..]);
    assert s == [s[0]] + s[1..];
  }

  /** A class followed by "+" matches the non-empty strings of that class. */
  lemma PlusOfClass(k: Class, s: string)
    ensures Matches(Plus(k), s) <==> s != "" && AllIn(k, s)
  {
    if Matches(Plus(k), s) {
      var x, y := CatElim(One(k), Star(One(k)), s);
      StarOfClass(k, y);
    }
    if s != "" && AllIn(k, s) {
      StarOfClass(k, s[1..]);
      CatIntro(One(k), Star(One(k)), [s[0]], s[1..]);
      assert s == [s[0]] + s[1..];
    }
  }
}
