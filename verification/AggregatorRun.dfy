/** An aggregated metric over a cluster (aggregator/cron/run.go, WorkerRun). */
module AggregatorRun {
  import opened Wrappers
  import opened Strings
  import opened Regex
  import opened AggregatorGrammar
  import opened AggregatorParse
  import opened AggregatorCompute

  // ----- One side of the ratio -----

  function NeedCompute(text: string): bool { Index(text, "$(").Some? }

  /** What parse returns for one side; only a text that needs computing is taken apart. */
  function PartsFrom(text: string): Parts {
    var items := SplitRuns(text);
    if !NeedCompute(text) || |items| < 2 then Parts([], [], "")
    else Parts(Evens(items[1..|items| - 1]), Odds(items[1..|items| - 1]), items[|items| - 1])
  }

  /** A side as expressionValid lets it through: computing it cannot fail for its form, and one that
      is not computed is the host count or a whole number. */
  predicate Runs(text: string) {
    && (NeedCompute(text) ==> |SplitRuns(text)| >= 2 && Computable(PartsFrom(text)))
    && (!NeedCompute(text) ==> text == "$#" || (text != "" && Strings.AllDigits(text)))
  }

  lemma ValidRuns(text: string)
    requires ExpressionValid(text)
    ensures Runs(text)
  {
    hide ExpressionValid, WellFormed, Write, Computable, PartsFrom, SplitRuns, Index;
    ValidIff(text);
    if f :| WellFormed(f) && text == Write(f) {
      WrittenRuns(f);
    } else if text == "$#" {
      HostCountIsPlain();
    } else {
      DigitsHaveNoCounter(text);
      assert forall i :: 0 <= i < |text| ==> InClass(Digit, text[i]);
    }
  }

  lemma HostCountIsPlain()
    ensures !NeedCompute("$#")
  {
    assert "$#"[1] != "$("[1] && "$#"[0..2] == "$#";
    assert forall i :: 0 <= i ==> !FoundAt("$#", "$(", i);
  }

  lemma DigitsHaveNoCounter(digits: string)
    requires AllIn(Digit, digits)
    ensures !NeedCompute(digits)
  {
    forall i {
      FoundStarts(digits, "$(", i);
    }
  }

  lemma WrittenRuns(f: Formula)
    requires WellFormed(f)
    ensures NeedCompute(Write(f)) && |SplitRuns(Write(f))| >= 2 && Computable(PartsFrom(Write(f)))
  {
    hide WellFormed, Write, SplitRuns, FindCompare, Index;
    WrittenNeeds(f);
    WrittenMode(f);
    ValueIsDenoted(f, "", map[]);
  }

  lemma WrittenNeeds(f: Formula)
    requires WellFormed(f)
    ensures NeedCompute(Write(f))
  {
    hide WellFormed, Write, Inner;
    var lead, closing := WrittenIs(f);
    var text := Write(f);
    assert FoundAt(text, "$(", |lead| - 2) by {
      assert text[..|lead|] == lead;
      assert text[|lead| - 2..|lead|] == lead[|lead| - 2..];
    }
  }

  /** A formula whose counters hold no dollar sign is computed as what it denotes, and its operators
      pass; every other formula is computed, or refused, by what parse makes of it. */
  lemma FormulaIsComputed(f: Formula, host: string, vals: ValueMap)
    requires WellFormed(f) && DollarFree(f.counters)
    ensures Runs(Write(f)) && NeedCompute(Write(f))
    ensures SideValue(Write(f), host, vals) == Denote(f, host, vals)
    ensures AllSigns(PartsFrom(Write(f)).operators)
  {
    hide WellFormed, Write, SplitRuns, Value, Denote, Computable, NeedCompute, Evens, Odds;
    WrittenRuns(f);
    var parts := PartsFrom(Write(f));
    ParseFaithfulIff(f, parts.operands, parts.operators, parts.mode);
    assert parts == FormulaParts(f);
    ValueIsDenoted(f, host, vals);
    SignsOf(f);
  }

  lemma SignsOf(f: Formula)
    requires WellFormed(f)
    ensures AllSigns(OpStrings(f.ops))
  {
  }

  /** With a dollar sign the counter itself is taken apart: this one reads as the sum of two. */
  lemma DollarMisreads()
    ensures var f := Formula(["a$+$b"], "", false, "", "");
            && WellFormed(f) && Write(f) == "$(a$+$b)"
            && PartsFrom(Write(f)) == Parts(["a", "b"], ["+"], "")
  {
    hide WellFormed, Write, SplitRuns, Index;
    var f := Formula(["a$+$b"], "", false, "", "");
    DollarFormula();
    WrittenNeeds(f);
    DollarPieces();
    var inner := ["a", "+", "b"];
    assert SplitRuns(Write(f))[1..4] == inner;
    assert Evens(inner) == ["a", "b"] && Odds(inner) == ["+"];
  }

  lemma DollarFormula()
    ensures var f := Formula(["a$+$b"], "", false, "", ""); WellFormed(f) && Write(f) == "$(a$+$b)"
  {
    assert "$(" + "a$+$b" + ")" == "$(a$+$b)";
  }

  lemma DollarPieces()
    ensures SplitRuns("$(a$+$b)") == ["", "a", "+", "b", ""]
  {
    hide SplitRuns;
    assert "" + "$(" + "a$+$b)" == "$(a$+$b)";
    SplitPiece("", "$(", "a$+$b)");
    assert "a" + "$" + "+$b)" == "a$+$b)";
    SplitPiece("a", "$", "+$b)");
    assert "+" + "$" + "b)" == "+$b)";
    SplitPiece("+", "$", "b)");
    assert "b" + ")" + "" == "b)";
    SplitPiece("b", ")", "");
    SplitPlain("");
  }

  /** The value of a side on one host; zero for one that needs no computing. */
  function SideValue(text: string, host: string, vals: ValueMap): Option<real>
    requires Runs(text)
  {
    if NeedCompute(text) then Value(PartsFrom(text), host, vals) else Some(0.0)
  }

  // ----- Over the hosts -----

  predicate TakesPart(num: string, den: string, host: string, vals: ValueMap)
    requires Runs(num) && Runs(den)
  {
    SideValue(num, host, vals).Some? && SideValue(den, host, vals).Some?
  }

  /** The hosts on which both sides have a value, in order. */
  function Participants(num: string, den: string, hosts: seq<string>, vals: ValueMap): (r: seq<string>)
    requires Runs(num) && Runs(den)
    ensures forall h :: h in r <==> h in hosts && TakesPart(num, den, h, vals)
  {
    if hosts == [] then []
    else
      var h := hosts[|hosts| - 1];
      assert hosts == hosts[..|hosts| - 1] + [h];
      Participants(num, den, hosts[..|hosts| - 1], vals) + if TakesPart(num, den, h, vals) then [h] else []
  }

  function Total(text: string, hosts: seq<string>, vals: ValueMap): real
    requires Runs(text) && forall h :: h in hosts ==> SideValue(text, h, vals).Some?
  {
    if hosts == [] then 0.0
    else Total(text, hosts[..|hosts| - 1], vals) + SideValue(text, hosts[|hosts| - 1], vals).value
  }

  /** A side over the participating hosts. */
  function SideTotal(text: string, hosts: seq<string>, vals: ValueMap): real
    requires Runs(text) && forall h :: h in hosts ==> SideValue(text, h, vals).Some?
  {
    if NeedCompute(text) then Total(text, hosts, vals)
    else if text == "$#" then |hosts| as real
    else NatValue(text) as real
  }

  predicate AllSigns(ops: seq<string>) {
    forall i :: 0 <= i < |ops| ==> ops[i] == "+" || ops[i] == "-"
  }

  /** What is pushed for two valid sides: the ratio over the participating hosts; nothing when both
      sides are constant, an operator is neither sign, no host takes part or the denominator is
      zero. */
  function Ratio(num: string, den: string, hosts: seq<string>, vals: ValueMap): Option<real>
    requires Runs(num) && Runs(den)
  {
    var ps := Participants(num, den, hosts, vals);
    var d := SideTotal(den, ps, vals);
    if !NeedCompute(num) && !NeedCompute(den) then None
    else if !AllSigns(PartsFrom(num).operators) || !AllSigns(PartsFrom(den).operators) then None
    else if ps == [] || d == 0.0 then None
    else Some(SideTotal(num, ps, vals) / d)
  }

  method ParseSide(text: string) returns (p: Parts)
    requires Runs(text)
    ensures p == PartsFrom(text)
  {
    hide SplitRuns, Evens, Odds, Computable, Index;
    var operands, operators, mode := Parse(text, NeedCompute(text));
    p := Parts(operands, operators, mode);
  }

  method OperatorsValid(ops: seq<string>) returns (ok: bool)
    ensures ok <==> AllSigns(ops)
  {
    for i := 0 to |ops|
      invariant forall k :: 0 <= k < i ==> ops[k] == "+" || ops[k] == "-"
    {
      if ops[i] != "+" && ops[i] != "-" {
        return false;
      }
    }
    return true;
  }

  method HostValue(text: string, p: Parts, host: string, vals: ValueMap) returns (val: Option<real>)
    requires Runs(text) && p == PartsFrom(text)
    ensures val == SideValue(text, host, vals)
  {
    hide PartsFrom, Value, Computable;
    if NeedCompute(text) {
      val := Compute(p, host, vals);
    } else {
      val := Some(0.0);
    }
  }

  lemma ParticipantsStep(num: string, den: string, hosts: seq<string>, n: nat, vals: ValueMap)
    requires Runs(num) && Runs(den) && n < |hosts|
    ensures Participants(num, den, hosts[..n + 1], vals) ==
            Participants(num, den, hosts[..n], vals) + if TakesPart(num, den, hosts[n], vals) then [hosts[n]] else []
  {
    hide TakesPart, Runs;
    assert hosts[..n + 1][..n] == hosts[..n];
  }

  lemma TotalStep(text: string, hosts: seq<string>, h: string, vals: ValueMap)
    requires Runs(text) && SideValue(text, h, vals).Some? && forall g :: g in hosts ==> SideValue(text, g, vals).Some?
    ensures Total(text, hosts + [h], vals) == Total(text, hosts, vals) + SideValue(text, h, vals).value
  {
    hide SideValue, Runs;
    var more := hosts + [h];
    assert more[..|more| - 1] == hosts;
  }

  /** The sums so far are the totals over the hosts that took part. */
  ghost predicate SumsAre(num: string, den: string, hosts: seq<string>, vals: ValueMap,
                          numerator: real, denominator: real, validCount: nat)
    requires Runs(num) && Runs(den)
  {
    var ps := Participants(num, den, hosts, vals);
    validCount == |ps| && numerator == Total(num, ps, vals) && denominator == Total(den, ps, vals)
  }

  lemma NoHosts(num: string, den: string, vals: ValueMap)
    requires Runs(num) && Runs(den)
    ensures SumsAre(num, den, [], vals, 0.0, 0.0, 0)
  {
    hide Runs, TakesPart;
  }

  lemma HostSkipped(num: string, den: string, hosts: seq<string>, n: nat, vals: ValueMap, a: real, b: real, count: nat)
    requires Runs(num) && Runs(den) && n < |hosts| && SumsAre(num, den, hosts[..n], vals, a, b, count)
    requires !TakesPart(num, den, hosts[n], vals)
    ensures SumsAre(num, den, hosts[..n + 1], vals, a, b, count)
  {
    hide Runs, TakesPart, Participants, Total;
    ParticipantsStep(num, den, hosts, n, vals);
    var ps := Participants(num, den, hosts[..n], vals);
    assert ps + [] == ps;
  }

  lemma HostCounted(num: string, den: string, hosts: seq<string>, n: nat, vals: ValueMap, a: real, b: real, count: nat)
    requires Runs(num) && Runs(den) && n < |hosts| && SumsAre(num, den, hosts[..n], vals, a, b, count)
    requires TakesPart(num, den, hosts[n], vals)
    ensures SumsAre(num, den, hosts[..n + 1], vals, a + SideValue(num, hosts[n], vals).value,
                    b + SideValue(den, hosts[n], vals).value, count + 1)
  {
    hide Runs, SideValue, Participants, Total;
    ParticipantsStep(num, den, hosts, n, vals);
    var ps := Participants(num, den, hosts[..n], vals);
    TotalStep(num, ps, hosts[n], vals);
    TotalStep(den, ps, hosts[n], vals);
  }

  /** The loop over the hosts, aggregator/cron/run.go:69-110. */
  method SumHosts(num: string, den: string, numParts: Parts, denParts: Parts, hosts: seq<string>, vals: ValueMap)
    returns (numerator: real, denominator: real, validCount: nat)
    requires Runs(num) && Runs(den) && numParts == PartsFrom(num) && denParts == PartsFrom(den)
    ensures SumsAre(num, den, hosts, vals, numerator, denominator, validCount)
  {
    hide SideValue, Runs, SumsAre, PartsFrom;
    numerator, denominator, validCount := 0.0, 0.0, 0;
    NoHosts(num, den, vals);
    assert hosts[..0] == [];
    for n := 0 to |hosts|
      invariant SumsAre(num, den, hosts[..n], vals, numerator, denominator, validCount)
    {
      var numeratorVal := HostValue(num, numParts, hosts[n], vals);
      if numeratorVal.None? {
        HostSkipped(num, den, hosts, n, vals, numerator, denominator, validCount);
        continue;
      }
      var denominatorVal := HostValue(den, denParts, hosts[n], vals);
      if denominatorVal.None? {
        HostSkipped(num, den, hosts, n, vals, numerator, denominator, validCount);
        continue;
      }
      HostCounted(num, den, hosts, n, vals, numerator, denominator, validCount);
      numerator := numerator + numeratorVal.value;
      denominator := denominator + denominatorVal.value;
      validCount := validCount + 1;
    }
    assert hosts[..|hosts|] == hosts;
  }

  /** A side that is not computed, once the hosts have been counted. */
  method ConstantSide(text: string, sum: real, validCount: nat) returns (total: real)
    requires Runs(text)
    ensures total == if NeedCompute(text) then sum
                     else if text == "$#" then validCount as real else NatValue(text) as real
  {
    total := sum;
    if !NeedCompute(text) {
      if text == "$#" {
        total := validCount as real;
      } else {
        total := NatValue(text) as real;
      }
    }
  }

  // ----- The law, in terms of what is written -----

  /** What a side can be: a formula, the host count, or a whole number. */
  datatype Side = Sum(f: Formula) | HostCount | Whole(digits: string)

  /** A formula whose counters hold no dollar sign, and no full-width parenthesis, which
      expressionValid refuses; one digit or more. */
  predicate Proper(side: Side) {
    match side
    case Sum(f) => WellFormed(f) && DollarFree(f.counters) && !HasWideParens(Write(f))
    case HostCount => true
    case Whole(digits) => digits != "" && Strings.AllDigits(digits)
  }

  function TextOf(side: Side): string
    requires Proper(side)
  {
    match side
    case Sum(f) => Write(f)
    case HostCount => "$#"
    case Whole(digits) => digits
  }

  /** A formula has a value on the host; a constant side says nothing against any. */
  predicate HasValue(side: Side, host: string, vals: ValueMap)
    requires Proper(side)
  {
    side.Sum? ==> Denote(side.f, host, vals).Some?
  }

  /** The hosts on which both sides have a value, in order. */
  function Common(a: Side, b: Side, hosts: seq<string>, vals: ValueMap): (r: seq<string>)
    requires Proper(a) && Proper(b)
    ensures forall h :: h in r ==> HasValue(a, h, vals) && HasValue(b, h, vals)
  {
    if hosts == [] then []
    else
      var h := hosts[|hosts| - 1];
      Common(a, b, hosts[..|hosts| - 1], vals) + if HasValue(a, h, vals) && HasValue(b, h, vals) then [h] else []
  }

  function DenotedSum(f: Formula, hosts: seq<string>, vals: ValueMap): real
    requires WellFormed(f) && forall h :: h in hosts ==> Denote(f, h, vals).Some?
  {
    if hosts == [] then 0.0
    else DenotedSum(f, hosts[..|hosts| - 1], vals) + Denote(f, hosts[|hosts| - 1], vals).value
  }

  /** What a side amounts to over hosts on which it has a value. */
  function Amount(side: Side, hosts: seq<string>, vals: ValueMap): real
    requires Proper(side) && forall h :: h in hosts ==> HasValue(side, h, vals)
  {
    match side
    case Sum(f) =>
      assert forall h :: h in hosts ==> HasValue(side, h, vals) && Denote(f, h, vals).Some?;
      DenotedSum(f, hosts, vals)
    case HostCount => |hosts| as real
    case Whole(digits) => NatValue(digits) as real
  }

  /** The quotient of the two amounts over the common hosts is pushed if some side is a formula, there
      is such a host, and the denominator is not zero; otherwise nothing is. */
  predicate PushesQuotient(pushed: Option<real>, a: Side, b: Side, hosts: seq<string>, vals: ValueMap)
    requires Proper(a) && Proper(b)
  {
    var common := Common(a, b, hosts, vals);
    var denominator := Amount(b, common, vals);
    if (a.Sum? || b.Sum?) && common != [] && denominator != 0.0
    then pushed.Some? && pushed.value * denominator == Amount(a, common, vals)
    else pushed == None
  }

  /** How a side reads: the text is accepted and computed exactly for a formula, as what it denotes. */
  lemma SideReads(side: Side, host: string, vals: ValueMap)
    requires Proper(side)
    ensures Runs(TextOf(side)) && AllSigns(PartsFrom(TextOf(side)).operators)
    ensures NeedCompute(TextOf(side)) <==> side.Sum?
    ensures SideValue(TextOf(side), host, vals) == if side.Sum? then Denote(side.f, host, vals) else Some(0.0)
    ensures side.Whole? ==> TextOf(side) != "$#"
  {
    hide WellFormed, Write, SplitRuns, Index, Denote, Value, Computable, NeedCompute;
    match side
    case Sum(f) => FormulaIsComputed(f, host, vals);
    case HostCount => HostCountIsPlain();
    case Whole(digits) =>
      assert forall i :: 0 <= i < |digits| ==> InClass(Digit, digits[i]);
      DigitsHaveNoCounter(digits);
      assert digits[0] != '$';
  }

  lemma ProperIsValid(text: string, side: Side)
    requires Proper(side) && text == TextOf(side)
    ensures ExpressionValid(text)
  {
    hide ExpressionValid, WellFormed, Write;
    ValidIff(text);
    if side.Whole? {
      assert forall i :: 0 <= i < |text| ==> InClass(Digit, text[i]);
    } else if side.Sum? {
      assert WellFormed(side.f) && text == Write(side.f);
    }
  }

  lemma {:induction false} ParticipantsAreCommon(a: Side, b: Side, hosts: seq<string>, vals: ValueMap)
    requires Proper(a) && Proper(b) && Runs(TextOf(a)) && Runs(TextOf(b))
    ensures Participants(TextOf(a), TextOf(b), hosts, vals) == Common(a, b, hosts, vals)
  {
    hide Proper, TextOf, Runs, SideValue, Denote;
    if hosts != [] {
      var h := hosts[|hosts| - 1];
      ParticipantsAreCommon(a, b, hosts[..|hosts| - 1], vals);
      SideReads(a, h, vals);
      SideReads(b, h, vals);
    }
  }

  lemma {:induction false} TotalIsDenoted(f: Formula, hosts: seq<string>, vals: ValueMap)
    requires Proper(Sum(f)) && Runs(Write(f)) && forall h :: h in hosts ==> Denote(f, h, vals).Some?
    requires forall h :: h in hosts ==> SideValue(Write(f), h, vals).Some?
    ensures Total(Write(f), hosts, vals) == DenotedSum(f, hosts, vals)
  {
    hide WellFormed, Write, Runs, SideValue, Denote;
    if hosts != [] {
      TotalIsDenoted(f, hosts[..|hosts| - 1], vals);
      SideReads(Sum(f), hosts[|hosts| - 1], vals);
    }
  }

  lemma TotalIsAmount(side: Side, hosts: seq<string>, vals: ValueMap)
    requires Proper(side) && Runs(TextOf(side)) && forall h :: h in hosts ==> HasValue(side, h, vals)
    requires forall h :: h in hosts ==> SideValue(TextOf(side), h, vals).Some?
    ensures SideTotal(TextOf(side), hosts, vals) == Amount(side, hosts, vals)
  {
    hide WellFormed, Write, Runs, SideValue, Denote, NeedCompute, Total;
    SideReads(side, "", vals);
    if side.Sum? {
      TotalIsDenoted(side.f, hosts, vals);
    }
  }

  lemma RatioIsQuotient(a: Side, b: Side, hosts: seq<string>, vals: ValueMap)
    requires Proper(a) && Proper(b) && Runs(TextOf(a)) && Runs(TextOf(b))
    ensures PushesQuotient(Ratio(TextOf(a), TextOf(b), hosts, vals), a, b, hosts, vals)
  {
    hide Proper, TextOf, Runs, SideValue, Denote, NeedCompute, SideTotal, Amount, Participants, Common, AllSigns;
    SideReads(a, "", vals);
    SideReads(b, "", vals);
    ParticipantsAreCommon(a, b, hosts, vals);
    var ps := Common(a, b, hosts, vals);
    TotalIsAmount(a, ps, vals);
    TotalIsAmount(b, ps, vals);
    QuotientTimes(Amount(a, ps, vals), Amount(b, ps, vals));
  }

  /** Whatever sides the two texts are read as. */
  lemma RatiosAreQuotients(num: string, den: string, hosts: seq<string>, vals: ValueMap)
    ensures forall a, b :: Proper(a) && Proper(b) && num == TextOf(a) && den == TextOf(b) ==>
              && ExpressionValid(num) && ExpressionValid(den) && Runs(num) && Runs(den)
              && PushesQuotient(Ratio(num, den, hosts, vals), a, b, hosts, vals)
  {
    hide ExpressionValid, Runs, Ratio, PushesQuotient;
    forall a, b | Proper(a) && Proper(b) && num == TextOf(a) && den == TextOf(b)
      ensures ExpressionValid(num) && ExpressionValid(den) && Runs(num) && Runs(den)
      ensures PushesQuotient(Ratio(num, den, hosts, vals), a, b, hosts, vals)
    {
      ProperIsValid(num, a);
      ProperIsValid(den, b);
      ValidRuns(num);
      ValidRuns(den);
      RatioIsQuotient(a, b, hosts, vals);
    }
  }

  lemma QuotientTimes(n: real, d: real)
    ensures d != 0.0 ==> n / d * d == n
  {
  }

  /** WorkerRun, after blanks have been removed and the values have been queried; the flags are the
      answers of expressionValid. */
  method WorkerRun(num: string, den: string, numValid: bool, denValid: bool, hosts: seq<string>, vals: ValueMap)
    returns (pushed: Option<real>)
    requires numValid == ExpressionValid(num) && denValid == ExpressionValid(den)
    ensures !numValid || !denValid ==> pushed == None
    ensures numValid && denValid ==> Runs(num) && Runs(den) && pushed == Ratio(num, den, hosts, vals)
    ensures forall a, b :: Proper(a) && Proper(b) && num == TextOf(a) && den == TextOf(b) ==>
              numValid && denValid && PushesQuotient(pushed, a, b, hosts, vals)
  {
    hide ExpressionValid, Runs, SideValue, PartsFrom, AllSigns, Total, Participants, Proper, TextOf, PushesQuotient;
    RatiosAreQuotients(num, den, hosts, vals);
    if !numValid || !denValid {
      return None;
    }
    ValidRuns(num);
    ValidRuns(den);
    if !NeedCompute(num) && !NeedCompute(den) {
      return None;
    }
    var numParts := ParseSide(num);
    var denParts := ParseSide(den);
    var numOk := OperatorsValid(numParts.operators);
    var denOk := OperatorsValid(denParts.operators);
    if !numOk || !denOk {
      return None;
    }
    if |hosts| == 0 {
      NoHosts(num, den, vals);
      return None;
    }
    var numerator, denominator, validCount := SumHosts(num, den, numParts, denParts, hosts, vals);
    numerator := ConstantSide(num, numerator, validCount);
    denominator := ConstantSide(den, denominator, validCount);
    if denominator == 0.0 {
      return None;
    }
    if validCount == 0 {
      return None;
    }
    return Some(numerator / denominator);
  }
}
