/** Taking a written formula apart (aggregator/cron/run.go, parse). */
module AggregatorParse {
  import opened Regex
  import opened AggregatorGrammar

  // ----- The splitter [\$\(\)]+ -----

  predicate IsDelim(c: char) { c == '$' || c == '(' || c == ')' }

  predicate Plain(s: string) {
    forall i :: 0 <= i < |s| ==> !IsDelim(s[i])
  }

  predicate AllDelims(s: string) {
    forall i :: 0 <= i < |s| ==> IsDelim(s[i])
  }

  /** Length of the longest prefix without, respectively of, delimiters. */
  function PlainLen(s: string): (n: nat)
    ensures n <= |s| && Plain(s[..n]) && (n < |s| ==> IsDelim(s[n]))
  {
    if s == "" || IsDelim(s[0]) then 0
    else
      assert forall n: nat :: n <= |s| - 1 ==> s[..n + 1] == [s[0]] + s[1..][..n];
      1 + PlainLen(s[1..])
  }

  function RunLen(s: string): (n: nat)
    ensures n <= |s| && AllDelims(s[..n]) && (n < |s| ==> !IsDelim(s[n]))
    ensures s != "" && IsDelim(s[0]) ==> n > 0
  {
    if s == "" || !IsDelim(s[0]) then 0
    else
      assert forall n: nat :: n <= |s| - 1 ==> s[..n + 1] == [s[0]] + s[1..][..n];
      1 + RunLen(s[1..])
  }

  /** What is left after the first piece and the run behind it. */
  function AfterPiece(s: string): (r: string)
    requires PlainLen(s) < |s|
    ensures |r| < |s|
  {
    var p := PlainLen(s);
    s[p + RunLen(s[p..])..]
  }

  /** The pieces between maximal runs of delimiters. */
  function SplitRuns(s: string): (r: seq<string>)
    ensures r != []
    decreases |s|
  {
    if PlainLen(s) == |s| then [s] else [s[..PlainLen(s)]] + SplitRuns(AfterPiece(s))
  }

  lemma {:induction false} PiecesArePlain(s: string)
    ensures forall k :: 0 <= k < |SplitRuns(s)| ==> Plain(SplitRuns(s)[k])
    decreases |s|
  {
    hide PlainLen, RunLen, Plain, AfterPiece;
    var p := PlainLen(s);
    assert s[..|s|] == s;
    if p < |s| {
      PiecesArePlain(AfterPiece(s));
    }
  }

  lemma PlainLenIs(a: string, t: string)
    requires Plain(a) && t != "" && IsDelim(t[0])
    ensures PlainLen(a + t) == |a|
  {
    hide PlainLen, IsDelim;
    var s := a + t;
    assert s[|a|] == t[0];
    assert PlainLen(s) == |a|;
  }

  lemma {:induction false} RunLenIs(d: string, rest: string)
    requires AllDelims(d) && (rest == "" || !IsDelim(rest[0]))
    ensures RunLen(d + rest) == |d|
  {
    if d == "" {
      assert d + rest == rest;
    } else {
      RunLenIs(d[1..], rest);
      assert (d + rest)[1..] == d[1..] + rest;
    }
  }

  lemma AfterPieceIs(a: string, d: string, rest: string)
    requires Plain(a) && AllDelims(d) && d != "" && (rest == "" || !IsDelim(rest[0]))
    ensures PlainLen(a + d + rest) == |a| && AfterPiece(a + d + rest) == rest
  {
    hide PlainLen, RunLen;
    var s := a + d + rest;
    assert s == a + (d + rest);
    PlainLenIs(a, d + rest);
    RunLenIs(d, rest);
    assert s[|a|..] == d + rest && s[|a| + |d|..] == rest;
  }

  lemma SplitPiece(a: string, d: string, rest: string)
    requires Plain(a) && AllDelims(d) && d != "" && (rest == "" || !IsDelim(rest[0]))
    ensures SplitRuns(a + d + rest) == [a] + SplitRuns(rest)
  {
    hide PlainLen, AfterPiece, Plain, AllDelims;
    AfterPieceIs(a, d, rest);
    assert (a + d + rest)[..|a|] == a;
  }

  lemma SplitPlain(a: string)
    requires Plain(a)
    ensures SplitRuns(a) == [a]
  {
    var p := PlainLen(a);
    assert p == |a|;
  }

  // ----- The pieces of a written sum -----

  function OpStrings(ops: string): seq<string> {
    seq(|ops|, i requires 0 <= i < |ops| => [ops[i]])
  }

  /** Counters and operators in turn. */
  function Interleave(counters: seq<string>, ops: string): seq<string>
    requires |counters| == |ops| + 1
  {
    seq(2 * |ops| + 1, i requires 0 <= i < 2 * |ops| + 1 => if i % 2 == 0 then counters[i / 2] else [ops[i / 2]])
  }

  lemma InterleaveCons(counters: seq<string>, ops: string)
    requires |counters| == |ops| + 1 && ops != ""
    ensures Interleave(counters, ops) == [counters[0]] + [[ops[0]]] + Interleave(counters[1..], ops[1..])
  {
    var whole, rest := Interleave(counters, ops), Interleave(counters[1..], ops[1..]);
    forall i | 2 <= i < |whole| ensures whole[i] == rest[i - 2] {
      assert (i - 2) / 2 == i / 2 - 1 && (i - 2) % 2 == i % 2;
    }
  }

  predicate DollarFree(counters: seq<string>) {
    forall i :: 0 <= i < |counters| ==> '$' !in counters[i]
  }

  /** A written sum without its first two characters, followed by `end`. */
  function Inner(counters: seq<string>, ops: string, end: string): string
    requires |counters| == |ops| + 1
  {
    if ops == "" then counters[0] + ")" + end
    else counters[0] + ")" + [ops[0]] + "$(" + Inner(counters[1..], ops[1..], end)
  }

  lemma Regroup(c: string, op: char, inner: string, sum: string, end: string)
    requires "$(" + inner == sum + end
    ensures "$(" + (c + ")" + [op] + "$(" + inner) == WriteTerm(c) + [op] + sum + end
  {
    assert "$(" + (c + ")" + [op] + "$(" + inner) == WriteTerm(c) + [op] + ("$(" + inner);
    assert WriteTerm(c) + [op] + (sum + end) == WriteTerm(c) + [op] + sum + end;
  }

  lemma {:induction false} InnerIsSum(counters: seq<string>, ops: string, end: string)
    requires |counters| == |ops| + 1
    ensures "$(" + Inner(counters, ops, end) == WriteSum(counters, ops) + end
  {
    hide WriteTerm;
    if ops == "" {
      OneTerm(counters[0], end);
    } else {
      InnerIsSum(counters[1..], ops[1..], end);
      Regroup(counters[0], ops[0], Inner(counters[1..], ops[1..], end), WriteSum(counters[1..], ops[1..]), end);
    }
  }

  lemma OneTerm(c: string, end: string)
    ensures "$(" + (c + ")" + end) == WriteTerm(c) + end
  {
  }

  lemma PlainCounter(c: string)
    requires IsCounter(c) && '$' !in c
    ensures Plain(c) && c != ""
  {
  }

  lemma PlainOp(op: char)
    requires InClass(PlusMinus, op)
    ensures Plain([op])
  {
  }

  lemma {:induction false} InnerPieces(counters: seq<string>, ops: string, closing: string, tail: string)
    requires IsSum(counters, ops) && DollarFree(counters) && AllDelims(closing) && Plain(tail)
    ensures SplitRuns(Inner(counters, ops, closing + tail)) == Interleave(counters, ops) + [tail]
    decreases |ops|
  {
    hide SplitRuns, IsCounter, Interleave;
    var c := counters[0];
    PlainCounter(c);
    if ops == "" {
      SplitPiece(c, ")" + closing, tail);
      SplitPlain(tail);
      assert c + (")" + closing) + tail == Inner(counters, ops, closing + tail);
      OneCounter(counters, ops);
    } else {
      var rest := Inner(counters[1..], ops[1..], closing + tail);
      InnerPieces(counters[1..], ops[1..], closing, tail);
      PlainCounter(counters[1]);
      assert rest[0] == counters[1][0];
      PlainOp(ops[0]);
      SplitPiece(c, ")", [ops[0]] + "$(" + rest);
      SplitPiece([ops[0]], "$(", rest);
      assert Inner(counters, ops, closing + tail) == c + ")" + ([ops[0]] + "$(" + rest);
      InterleaveCons(counters, ops);
    }
  }

  lemma OneCounter(counters: seq<string>, ops: string)
    requires |counters| == |ops| + 1 && ops == ""
    ensures Interleave(counters, ops) == [counters[0]]
  {
  }

  // ----- parse -----

  /** The elements at even, respectively odd, positions. */
  function Evens(xs: seq<string>): seq<string> {
    seq((|xs| + 1) / 2, i requires 0 <= i < (|xs| + 1) / 2 => xs[2 * i])
  }

  function Odds(xs: seq<string>): seq<string> {
    seq(|xs| / 2, i requires 0 <= i < |xs| / 2 => xs[2 * i + 1])
  }

  lemma EvensSnoc(xs: seq<string>, x: string)
    ensures Evens(xs + [x]) == Evens(xs) + if |xs| % 2 == 0 then [x] else []
    ensures Odds(xs + [x]) == Odds(xs) + if |xs| % 2 == 0 then [] else [x]
  {
    var ys := xs + [x];
    assert |xs| % 2 == 0 ==> 2 * (|xs| / 2) == |xs| && (|ys| + 1) / 2 == |xs| / 2 + 1 && |ys| / 2 == |xs| / 2;
    assert |xs| % 2 == 1 ==> 2 * (|xs| / 2) + 1 == |xs| && (|ys| + 1) / 2 == (|xs| + 1) / 2 && |ys| / 2 == |xs| / 2 + 1;
  }

  lemma NothingSplits()
    ensures Evens([]) == [] && Odds([]) == []
  {
  }

  /** The slice expression panics on a string without a delimiter. */
  method Parse(expression: string, needCompute: bool)
    returns (operands: seq<string>, operators: seq<string>, computeMode: string)
    requires needCompute ==> |SplitRuns(expression)| >= 2
    ensures !needCompute ==> operands == [] && operators == [] && computeMode == ""
    ensures needCompute ==>
              var items := SplitRuns(expression);
              && operands == Evens(items[1..|items| - 1]) && operators == Odds(items[1..|items| - 1])
              && computeMode == items[|items| - 1]
  {
    hide SplitRuns, Evens, Odds;
    NothingSplits();
    operands, operators, computeMode := [], [], "";
    if !needCompute {
      return;
    }
    var items := SplitRuns(expression);
    var count := |items|;
    var inner := items[1..count - 1];
    assert inner[..0] == [];
    for i := 0 to |inner|
      invariant operands == Evens(inner[..i]) && operators == Odds(inner[..i])
    {
      EvensSnoc(inner[..i], inner[i]);
      assert inner[..i + 1] == inner[..i] + [inner[i]];
      if i % 2 == 0 {
        operands := operands + [inner[i]];
      } else {
        operators := operators + [inner[i]];
      }
    }
    assert inner[..|inner|] == inner;
    computeMode := items[count - 1];
  }

  lemma InterleaveSplits(counters: seq<string>, ops: string)
    requires |counters| == |ops| + 1
    ensures Evens(Interleave(counters, ops)) == counters
    ensures Odds(Interleave(counters, ops)) == OpStrings(ops)
  {
    var xs := Interleave(counters, ops);
    assert (|xs| + 1) / 2 == |counters| && |xs| / 2 == |ops|;
    forall i | 0 <= i < |counters| ensures Evens(xs)[i] == counters[i] {
      assert (2 * i) % 2 == 0 && (2 * i) / 2 == i;
    }
    forall i | 0 <= i < |ops| ensures Odds(xs)[i] == OpStrings(ops)[i] {
      assert (2 * i + 1) % 2 == 1 && (2 * i + 1) / 2 == i;
    }
  }

  // ----- Faithfulness -----

  /** What follows the sum in a written formula. */
  function ModeOf(f: Formula): string { f.cmp + f.num }

  lemma ModeIsPlain(f: Formula)
    requires WellFormed(f)
    ensures Plain(ModeOf(f))
  {
    if f.cmp != "" && !(f.num != "" && AllIn(Digit, f.num)) {
      var i :| 0 <= i < |f.num| && NumberSplit(f.num, i);
      assert f.num == f.num[..i] + "." + f.num[i + 1..];
    }
  }

  lemma WrittenIs(f: Formula) returns (lead: string, closing: string)
    requires WellFormed(f)
    ensures lead == "$(" || lead == "($("
    ensures AllDelims(closing) && Write(f) == lead + Inner(f.counters, f.ops, closing + ModeOf(f))
  {
    hide Inner, WriteSum, IsSum, IsNumber;
    SumOf(f);
    WriteForms(f);
    lead, closing := if f.paren then "($(" else "$(", if f.paren then ")" else "";
    InnerIsSum(f.counters, f.ops, closing + ModeOf(f));
    if f.paren {
      assert lead + Inner(f.counters, f.ops, closing + ModeOf(f)) ==
             "(" + ("$(" + Inner(f.counters, f.ops, closing + ModeOf(f)));
      assert Write(f) == "(" + (WriteSum(f.counters, f.ops) + (closing + ModeOf(f)));
    } else {
      assert closing + ModeOf(f) == ModeOf(f);
    }
  }

  lemma WriteForms(f: Formula)
    requires WellFormed(f)
    ensures |f.counters| == |f.ops| + 1
    ensures f.paren ==> Write(f) == "(" + WriteSum(f.counters, f.ops) + ")" + f.cmp + f.num
    ensures !f.paren ==> Write(f) == WriteSum(f.counters, f.ops) + ModeOf(f)
  {
    hide IsNumber, IsCounter;
    if !f.paren {
      if f.cmp != "" {
        assert f.ops == "";
        assert WriteTerm(f.counters[0]) + f.cmp + f.num == WriteTerm(f.counters[0]) + (f.cmp + f.num);
      } else {
        assert WriteSum(f.counters, f.ops) + "" == WriteSum(f.counters, f.ops);
      }
    }
  }

  lemma WrittenPieces(f: Formula)
    requires WellFormed(f) && DollarFree(f.counters)
    ensures SplitRuns(Write(f)) == [""] + Interleave(f.counters, f.ops) + [ModeOf(f)]
  {
    hide SplitRuns, Interleave, Write, WellFormed;
    var lead, closing := WrittenIs(f);
    ModeIsPlain(f);
    SumOf(f);
    InnerPieces(f.counters, f.ops, closing, ModeOf(f));
    var inner := Inner(f.counters, f.ops, closing + ModeOf(f));
    PlainCounter(f.counters[0]);
    assert inner[0] == f.counters[0][0];
    SplitPiece("", lead, inner);
    assert "" + lead + inner == lead + inner;
  }

  lemma SumOf(f: Formula)
    requires WellFormed(f)
    ensures IsSum(f.counters, f.ops)
  {
  }

  /** The result of Parse on the written form of a formula. */
  ghost predicate ParsedAs(expression: string, operands: seq<string>, operators: seq<string>, mode: string) {
    var items := SplitRuns(expression);
    && |items| >= 2
    && operands == Evens(items[1..|items| - 1]) && operators == Odds(items[1..|items| - 1])
    && mode == items[|items| - 1]
  }

  lemma EvensArePlain(xs: seq<string>)
    requires forall k :: 0 <= k < |xs| ==> Plain(xs[k])
    ensures forall k :: 0 <= k < |Evens(xs)| ==> Plain(Evens(xs)[k])
  {
  }

  /** parse gives back the operands, operators and comparison of a written formula exactly when
      no counter contains a dollar sign. */
  lemma ParseFaithfulIff(f: Formula, operands: seq<string>, operators: seq<string>, mode: string)
    requires WellFormed(f) && ParsedAs(Write(f), operands, operators, mode)
    ensures operands == f.counters && operators == OpStrings(f.ops) && mode == ModeOf(f) <==> DollarFree(f.counters)
    ensures DollarFree(f.counters) ==> |operators| == |operands| - 1
  {
    hide SplitRuns, Write, Evens, Odds;
    var items := SplitRuns(Write(f));
    if DollarFree(f.counters) {
      WrittenPieces(f);
      var xs := Interleave(f.counters, f.ops);
      assert items[1..|items| - 1] == xs;
      InterleaveSplits(f.counters, f.ops);
    } else {
      PiecesArePlain(Write(f));
      EvensArePlain(items[1..|items| - 1]);
      var i :| 0 <= i < |f.counters| && '$' in f.counters[i];
      assert !Plain(f.counters[i]);
    }
  }

  // ----- The last piece -----

  /** A plain text behind a delimiter is the last piece, whatever stands before. */
  lemma {:induction false} LastPiece(s: string, q: nat)
    requires q < |s| && IsDelim(s[q]) && Plain(s[q + 1..])
    ensures var items := SplitRuns(s); |items| >= 2 && items[|items| - 1] == s[q + 1..]
    decreases |s|
  {
    hide PlainLen, AfterPiece, IsDelim, Plain;
    var k := AfterPieceStarts(s, q);
    var rest := s[k..];
    if k == q + 1 {
      SplitPlain(rest);
    } else {
      assert rest[q - k] == s[q] && rest[q - k + 1..] == s[q + 1..];
      LastPiece(rest, q - k);
    }
  }

  lemma AfterPieceStarts(s: string, q: nat) returns (k: nat)
    requires q < |s| && IsDelim(s[q]) && Plain(s[q + 1..])
    ensures PlainLen(s) < |s| && 0 < k <= q + 1 && AfterPiece(s) == s[k..]
  {
    hide PlainLen, RunLen, IsDelim, Plain;
    var p := PlainLen(s);
    PlainEndsBefore(s, p, q);
    RunEndsBefore(s, p, q);
    k := p + RunLen(s[p..]);
  }

  lemma PlainHasNoDelim(s: string, p: nat, q: nat)
    requires q < p <= |s| && Plain(s[..p])
    ensures !IsDelim(s[q])
  {
    assert s[..p][q] == s[q];
  }

  lemma PlainEndsBefore(s: string, p: int, q: int)
    requires p == PlainLen(s) && 0 <= q < |s| && IsDelim(s[q])
    ensures p <= q
  {
    hide PlainLen, IsDelim, Plain;
    if q < p {
      PlainHasNoDelim(s, p, q);
    }
  }

  lemma RunEndsBefore(s: string, p: int, q: int)
    requires p == PlainLen(s) <= q < |s| && Plain(s[q + 1..])
    ensures 0 < RunLen(s[p..]) && p + RunLen(s[p..]) <= q + 1
  {
    hide PlainLen, RunLen, IsDelim;
    var t := s[p..];
    var n := RunLen(t);
    if p + n > q + 1 {
      RunMeetsPlain(s, p, n, q);
    }
    assert t[0] == s[p];
  }

  lemma RunMeetsPlain(s: string, p: int, n: int, q: int)
    requires 0 <= p <= q && q + 1 < p + n <= |s| && AllDelims(s[p..][..n])
    ensures !Plain(s[q + 1..])
  {
    assert s[q + 1] == s[p..][..n][q + 1 - p];
    assert s[q + 1] == s[q + 1..][0];
  }

  /** So the comparison of a written formula always comes back, and nothing panics. */
  lemma WrittenMode(f: Formula)
    requires WellFormed(f)
    ensures var items := SplitRuns(Write(f)); |items| >= 2 && items[|items| - 1] == ModeOf(f)
  {
    hide SplitRuns, Write, WellFormed;
    ModeIsPlain(f);
    var q := ModeStart(f);
    LastPiece(Write(f), q);
  }

  lemma ModeStart(f: Formula) returns (q: nat)
    requires WellFormed(f)
    ensures q < |Write(f)| && IsDelim(Write(f)[q]) && Write(f)[q + 1..] == ModeOf(f)
  {
    hide WriteSum, Write, IsSum, IsNumber;
    SumOf(f);
    WriteForms(f);
    var sum := WriteSum(f.counters, f.ops);
    SumCloses(f.counters, f.ops);
    if f.paren {
      q := |sum| + 1;
      assert Write(f) == "(" + sum + ")" + ModeOf(f);
    } else {
      q := |sum| - 1;
    }
  }

  lemma {:induction false} SumCloses(counters: seq<string>, ops: string)
    requires |counters| == |ops| + 1
    ensures WriteSum(counters, ops) != "" && WriteSum(counters, ops)[|WriteSum(counters, ops)| - 1] == ')'
    decreases |ops|
  {
    if ops != "" {
      SumCloses(counters[1..], ops[1..]);
    }
  }
}
