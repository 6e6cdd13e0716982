/** The expressions of an aggregated metric (aggregator/cron/run.go): the patterns that
    expressionValid accepts, and the formulas they stand for. */
module AggregatorGrammar {
  import opened Regex

  // ----- Patterns -----

  const TERM := Cat(Lit("$("), Cat(Plus(NotParens), Lit(")")))
  const CHAIN := Cat(Star(Cat(TERM, One(PlusMinus))), TERM)
  const COMPARE := Alt(Lit(">"), Alt(Lit("="), Alt(Lit("<"), Alt(Lit(">="), Lit("<=")))))
  const FRACTION := Alt(Lit(""), Cat(Lit("."), Plus(Digit)))
  const NUMBER := Cat(Plus(Digit), FRACTION)
  const BOUND := Cat(COMPARE, NUMBER)
  const MODE0 := CHAIN
  const MODE1 := Cat(TERM, BOUND)
  const MODE2 := Cat(Cat(Lit("("), Cat(CHAIN, Lit(")"))), BOUND)
  const MODE3 := Plus(Digit)

  /** Whether the parentheses of East Asian input methods occur. */
  predicate HasWideParens(s: string) {
    '\U{FF08}' in s || '\U{FF09}' in s
  }

  ghost predicate ExpressionValid(s: string) {
    && !HasWideParens(s)
    && (s == "$#" || Matches(MODE0, s) || Matches(MODE1, s) || Matches(MODE2, s) || Matches(MODE3, s))
  }

  // ----- Formulas -----

  /** A signed sum of counters, possibly compared with a number; `paren` tells how a comparison
      was written. */
  datatype Formula = Formula(counters: seq<string>, ops: string, paren: bool, cmp: string, num: string)

  predicate IsCounter(c: string) { c != "" && AllIn(NotParens, c) }

  predicate IsSum(counters: seq<string>, ops: string) {
    && |counters| == |ops| + 1
    && (forall i :: 0 <= i < |counters| ==> IsCounter(counters[i]))
    && AllIn(PlusMinus, ops)
  }

  predicate IsCompare(cmp: string) { cmp in {">", "=", "<", ">=", "<="} }

  predicate IsNumber(num: string) {
    || (num != "" && AllIn(Digit, num))
    || exists i :: 0 <= i < |num| && NumberSplit(num, i)
  }

  predicate NumberSplit(num: string, i: int) {
    0 < i < |num| - 1 && AllIn(Digit, num[..i]) && num[i] == '.' && AllIn(Digit, num[i + 1..])
  }

  predicate WellFormed(f: Formula) {
    && IsSum(f.counters, f.ops)
    && if f.cmp == "" then f.num == "" && !f.paren
       else IsCompare(f.cmp) && IsNumber(f.num) && (!f.paren ==> |f.counters| == 1)
  }

  function WriteTerm(c: string): string { "$(" + c + ")" }

  function WriteSum(counters: seq<string>, ops: string): string
    requires |counters| == |ops| + 1
  {
    if ops == "" then WriteTerm(counters[0])
    else WriteTerm(counters[0]) + [ops[0]] + WriteSum(counters[1..], ops[1..])
  }

  function Write(f: Formula): string
    requires WellFormed(f)
  {
    if f.cmp == "" then WriteSum(f.counters, f.ops)
    else if f.paren then "(" + WriteSum(f.counters, f.ops) + ")" + f.cmp + f.num
    else WriteTerm(f.counters[0]) + f.cmp + f.num
  }

  // ----- Patterns and formulas agree -----

  lemma TermIff(s: string)
    ensures Matches(TERM, s) <==> exists c :: IsCounter(c) && s == WriteTerm(c)
  {
    if Matches(TERM, s) {
      var a, b := CatElim(Lit("$("), Cat(Plus(NotParens), Lit(")")), s);
      var c, d := CatElim(Plus(NotParens), Lit(")"), b);
      PlusOfClass(NotParens, c);
      assert s == WriteTerm(c);
    }
    if c :| IsCounter(c) && s == WriteTerm(c) {
      PlusOfClass(NotParens, c);
      CatIntro(Plus(NotParens), Lit(")"), c, ")");
      CatIntro(Lit("$("), Cat(Plus(NotParens), Lit(")")), "$(", c + ")");
      assert s == "$(" + (c + ")");
    }
  }

  const LINK := Cat(TERM, One(PlusMinus))

  /** A chain read from its first term. */
  lemma {:induction false} ChainToSum(prefix: string, last: string) returns (counters: seq<string>, ops: string)
    requires Matches(Star(LINK), prefix) && Matches(TERM, last)
    ensures IsSum(counters, ops) && prefix + last == WriteSum(counters, ops)
    decreases |prefix|
  {
    hide Matches, IsCounter;
    if prefix == "" {
      TermIff(last);
      var c :| IsCounter(c) && last == WriteTerm(c);
      counters, ops := [c], "";
      assert prefix + last == last;
    } else {
      var x, y := StarElim(LINK, prefix);
      var t, o := LinkElim(x);
      var cs, os := ChainToSum(y, last);
      counters, ops := [t] + cs, [o] + os;
      assert counters[1..] == cs && ops[1..] == os;
      assert prefix + last == WriteTerm(t) + [o] + (y + last);
    }
  }

  lemma LinkElim(s: string) returns (c: string, op: char)
    requires Matches(LINK, s)
    ensures IsCounter(c) && InClass(PlusMinus, op) && s == WriteTerm(c) + [op]
  {
    var x, y := CatElim(TERM, One(PlusMinus), s);
    TermIff(x);
    c :| IsCounter(c) && x == WriteTerm(c);
    op := y[0];
  }

  lemma LinkIntro(c: string, op: char)
    requires IsCounter(c) && InClass(PlusMinus, op)
    ensures Matches(LINK, WriteTerm(c) + [op])
  {
    TermIff(WriteTerm(c));
    CatIntro(TERM, One(PlusMinus), WriteTerm(c), [op]);
  }

  lemma {:induction false} SumToChain(counters: seq<string>, ops: string) returns (prefix: string, last: string)
    requires IsSum(counters, ops)
    ensures Matches(Star(LINK), prefix) && Matches(TERM, last) && prefix + last == WriteSum(counters, ops)
    decreases |ops|
  {
    hide IsCounter;
    if ops == "" {
      TermIff(WriteTerm(counters[0]));
      prefix, last := "", WriteTerm(counters[0]);
      assert prefix + last == last;
    } else {
      var y, l := SumToChain(counters[1..], ops[1..]);
      last := l;
      var x := WriteTerm(counters[0]) + [ops[0]];
      LinkIntro(counters[0], ops[0]);
      StarIntro(LINK, x, y);
      prefix := x + y;
      assert prefix + last == x + (y + last);
    }
  }

  lemma ChainIff(s: string)
    ensures Matches(CHAIN, s) <==> exists counters, ops :: IsSum(counters, ops) && s == WriteSum(counters, ops)
  {
    hide WriteSum;
    if Matches(CHAIN, s) {
      var x, y := CatElim(Star(LINK), TERM, s);
      var counters, ops := ChainToSum(x, y);
    }
    if counters, ops :| IsSum(counters, ops) && s == WriteSum(counters, ops) {
      var x, y := SumToChain(counters, ops);
      CatIntro(Star(LINK), TERM, x, y);
    }
  }

  lemma NumberIff(s: string)
    ensures Matches(NUMBER, s) <==> IsNumber(s)
  {
    if Matches(NUMBER, s) {
      var x, y := CatElim(Plus(Digit), FRACTION, s);
      PlusOfClass(Digit, x);
      if y == "" {
        assert s == x;
      } else {
        FractionElim(y);
        assert s[..|x|] == x && s[|x|] == y[0] && s[|x| + 1..] == y[1..];
        assert NumberSplit(s, |x|);
      }
    }
    if IsNumber(s) {
      if s != "" && AllIn(Digit, s) {
        PlusOfClass(Digit, s);
        CatIntro(Plus(Digit), FRACTION, s, "");
        assert s + "" == s;
      } else {
        var i :| 0 <= i < |s| && NumberSplit(s, i);
        PlusOfClass(Digit, s[..i]);
        FractionIntro(s[i..]);
        CatIntro(Plus(Digit), FRACTION, s[..i], s[i..]);
        assert s[..i] + s[i..] == s;
      }
    }
  }

  lemma FractionElim(y: string)
    requires Matches(FRACTION, y) && y != ""
    ensures |y| > 1 && y[0] == '.' && AllIn(Digit, y[1..])
  {
    var d, n := CatElim(Lit("."), Plus(Digit), y);
    PlusOfClass(Digit, n);
    assert y[1..] == n;
  }

  lemma FractionIntro(y: string)
    requires |y| > 1 && y[0] == '.' && AllIn(Digit, y[1..])
    ensures Matches(FRACTION, y)
  {
    PlusOfClass(Digit, y[1..]);
    CatIntro(Lit("."), Plus(Digit), ".", y[1..]);
    assert y == "." + y[1..];
  }

  lemma CompareIff(s: string)
    ensures Matches(COMPARE, s) <==> IsCompare(s)
  {
    var two := Alt(Lit(">="), Lit("<="));
    var three := Alt(Lit("<"), two);
    var four := Alt(Lit("="), three);
    assert Matches(two, s) <==> s == ">=" || s == "<=";
    assert Matches(three, s) <==> s == "<" || Matches(two, s);
    assert Matches(four, s) <==> s == "=" || Matches(three, s);
    assert Matches(COMPARE, s) <==> s == ">" || Matches(four, s);
  }

  lemma BoundIff(s: string)
    ensures Matches(BOUND, s) <==> exists cmp, num :: IsCompare(cmp) && IsNumber(num) && s == cmp + num
  {
    hide IsNumber, IsCompare;
    if Matches(BOUND, s) {
      var cmp, num := CatElim(COMPARE, NUMBER, s);
      NumberIff(num);
      CompareIff(cmp);
    }
    if cmp, num :| IsCompare(cmp) && IsNumber(num) && s == cmp + num {
      NumberIff(num);
      CompareIff(cmp);
      CatIntro(COMPARE, NUMBER, cmp, num);
    }
  }

  lemma Mode1Iff(s: string)
    ensures Matches(MODE1, s)
            <==> exists c, cmp, num :: IsCounter(c) && IsCompare(cmp) && IsNumber(num) && s == WriteTerm(c) + cmp + num
  {
    hide IsNumber, IsCounter, IsCompare;
    if Matches(MODE1, s) {
      var x, y := CatElim(TERM, BOUND, s);
      TermIff(x);
      BoundIff(y);
      var c :| IsCounter(c) && x == WriteTerm(c);
      var cmp, num :| IsCompare(cmp) && IsNumber(num) && y == cmp + num;
      assert s == WriteTerm(c) + cmp + num;
    }
    if c, cmp, num :| IsCounter(c) && IsCompare(cmp) && IsNumber(num) && s == WriteTerm(c) + cmp + num {
      TermIff(WriteTerm(c));
      BoundIff(cmp + num);
      CatIntro(TERM, BOUND, WriteTerm(c), cmp + num);
      assert s == WriteTerm(c) + (cmp + num);
    }
  }

  const WRAPPED := Cat(Lit("("), Cat(CHAIN, Lit(")")))

  lemma WrappedIff(s: string)
    ensures Matches(WRAPPED, s)
            <==> exists counters, ops :: IsSum(counters, ops) && s == "(" + WriteSum(counters, ops) + ")"
  {
    hide WriteSum;
    if Matches(WRAPPED, s) {
      var x, y := CatElim(Lit("("), Cat(CHAIN, Lit(")")), s);
      var c, d := CatElim(CHAIN, Lit(")"), y);
      ChainIff(c);
      var counters, ops :| IsSum(counters, ops) && c == WriteSum(counters, ops);
      assert s == "(" + WriteSum(counters, ops) + ")";
    }
    if counters, ops :| IsSum(counters, ops) && s == "(" + WriteSum(counters, ops) + ")" {
      var c := WriteSum(counters, ops);
      ChainIff(c);
      CatIntro(CHAIN, Lit(")"), c, ")");
      CatIntro(Lit("("), Cat(CHAIN, Lit(")")), "(", c + ")");
      assert s == "(" + (c + ")");
    }
  }

  lemma Mode2Iff(s: string)
    ensures Matches(MODE2, s) <==>
            exists counters, ops, cmp, num :: IsSum(counters, ops) && IsCompare(cmp) && IsNumber(num)
                                              && s == "(" + WriteSum(counters, ops) + ")" + cmp + num
  {
    hide WriteSum, IsNumber, IsCompare, IsCounter, AllIn, Matches;
    if Matches(MODE2, s) {
      var x, y := CatElim(WRAPPED, BOUND, s);
      WrappedIff(x);
      BoundIff(y);
      var counters, ops :| IsSum(counters, ops) && x == "(" + WriteSum(counters, ops) + ")";
      var cmp, num :| IsCompare(cmp) && IsNumber(num) && y == cmp + num;
      assert s == "(" + WriteSum(counters, ops) + ")" + cmp + num;
    }
    if counters, ops, cmp, num :| IsSum(counters, ops) && IsCompare(cmp) && IsNumber(num)
                                  && s == "(" + WriteSum(counters, ops) + ")" + cmp + num {
      var x := "(" + WriteSum(counters, ops) + ")";
      WrappedIff(x);
      BoundIff(cmp + num);
      CatIntro(WRAPPED, BOUND, x, cmp + num);
      assert s == x + (cmp + num);
    }
  }

  /** What expressionValid accepts: the host count, a whole number, and the written formulas. */
  lemma ValidIff(s: string)
    ensures ExpressionValid(s) <==>
            && !HasWideParens(s)
            && (s == "$#" || (s != "" && AllIn(Digit, s)) || exists f :: WellFormed(f) && s == Write(f))
  {
    ChainIff(s);
    Mode1Iff(s);
    Mode2Iff(s);
    PlusOfClass(Digit, s);
    FormulaIff(s);
  }

  lemma FormulaIff(s: string)
    ensures (exists f :: WellFormed(f) && s == Write(f)) <==>
            || (exists counters, ops :: IsSum(counters, ops) && s == WriteSum(counters, ops))
            || (exists c, cmp, num :: IsCounter(c) && IsCompare(cmp) && IsNumber(num) && s == WriteTerm(c) + cmp + num)
            || (exists counters, ops, cmp, num :: IsSum(counters, ops) && IsCompare(cmp) && IsNumber(num)
                                                  && s == "(" + WriteSum(counters, ops) + ")" + cmp + num)
  {
    hide WriteSum, WriteTerm, IsNumber, IsCounter;
    if counters, ops :| IsSum(counters, ops) && s == WriteSum(counters, ops) {
      var f := Formula(counters, ops, false, "", "");
      assert WellFormed(f) && s == Write(f);
    }
    if c, cmp, num :| IsCounter(c) && IsCompare(cmp) && IsNumber(num) && s == WriteTerm(c) + cmp + num {
      var f := Formula([c], "", false, cmp, num);
      assert WellFormed(f) && s == Write(f);
    }
    if counters, ops, cmp, num :| IsSum(counters, ops) && IsCompare(cmp) && IsNumber(num)
                                  && s == "(" + WriteSum(counters, ops) + ")" + cmp + num {
      var f := Formula(counters, ops, true, cmp, num);
      assert WellFormed(f) && s == Write(f);
    }
  }
}
