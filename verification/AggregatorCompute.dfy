/** Evaluating a parsed expression on one host (aggregator/cron/computer.go). */
module AggregatorCompute {
  import opened Wrappers
  import opened Strings
  import opened Regex
  import opened AggregatorGrammar
  import opened AggregatorParse

  type ValueMap = map<string, real>

  // ----- What a formula denotes on one host -----

  predicate HasAll(counters: seq<string>, host: string, vals: ValueMap) {
    forall i :: 0 <= i < |counters| ==> host + counters[i] in vals
  }

  /** The counters of one host, the first `n + 1` of them, added and subtracted in order. */
  function SignedSum(counters: seq<string>, ops: string, host: string, vals: ValueMap, n: nat): real
    requires n < |counters| == |ops| + 1 && HasAll(counters, host, vals)
  {
    if n == 0 then vals[host + counters[0]]
    else
      var v := vals[host + counters[n]];
      SignedSum(counters, ops, host, vals, n - 1) + if ops[n - 1] == '+' then v else -v
  }

  predicate Compares(sum: real, cmp: string, bound: real) {
    || (cmp == ">" && sum > bound)
    || (cmp == "<" && sum < bound)
    || (cmp == "=" && sum == bound)
    || (cmp == ">=" && sum >= bound)
    || (cmp == "<=" && sum <= bound)
  }

  /** None when some counter has no value; a comparison yields one or zero. */
  function Denote(f: Formula, host: string, vals: ValueMap): Option<real>
    requires WellFormed(f)
  {
    if !HasAll(f.counters, host, vals) then None
    else
      var sum := SignedSum(f.counters, f.ops, host, vals, |f.ops|);
      if f.cmp == "" then Some(sum)
      else Some(if Compares(sum, f.cmp, DecimalValue(f.num)) then 1.0 else 0.0)
  }

  /** A sum, a difference, and each comparison, by what they denote. */
  lemma FormulasMean(f: Formula, host: string, vals: ValueMap)
    requires WellFormed(f) && HasAll(f.counters, host, vals)
    ensures |f.counters| == 1 && f.cmp == "" ==> Denote(f, host, vals) == Some(vals[host + f.counters[0]])
    ensures |f.counters| == 2 && f.cmp == "" ==>
              var v, w := vals[host + f.counters[0]], vals[host + f.counters[1]];
              Denote(f, host, vals) == Some(if f.ops[0] == '+' then v + w else v - w)
    ensures f.cmp != "" ==>
              var sum, bound := SignedSum(f.counters, f.ops, host, vals, |f.ops|), DecimalValue(f.num);
              && Denote(f, host, vals) in {Some(1.0), Some(0.0)}
              && (f.cmp == ">" ==> (Denote(f, host, vals) == Some(1.0) <==> sum > bound))
              && (f.cmp == "<" ==> (Denote(f, host, vals) == Some(1.0) <==> sum < bound))
              && (f.cmp == "=" ==> (Denote(f, host, vals) == Some(1.0) <==> sum == bound))
              && (f.cmp == ">=" ==> (Denote(f, host, vals) == Some(1.0) <==> sum >= bound))
              && (f.cmp == "<=" ==> (Denote(f, host, vals) == Some(1.0) <==> sum <= bound))
  {
    hide DecimalValue, IsCounter, IsNumber;
  }

  // ----- Numbers -----

  /** strconv.ParseFloat on digits and points, with zero for its ignored errors: digits on one side
      of the first point at least, and no second point. */
  function DecimalValue(s: string): real {
    match Index(s, ".")
    case None => if s != "" && Strings.AllDigits(s) then NatValue(s) as real else 0.0
    case Some(i) =>
      var whole, fraction := s[..i], s[i + 1..];
      if Strings.AllDigits(whole) && Strings.AllDigits(fraction) && (whole != "" || fraction != "")
      then NatValue(whole) as real + (NatValue(fraction) as real) / PowNonZero(|fraction|)
      else 0.0
  }

  function PowNonZero(n: nat): (r: real)
    ensures r > 0.0
  {
    if n == 0 then 1.0 else 10.0 * PowNonZero(n - 1)
  }

  // ----- compareSum -----

  predicate IsSign(c: char) { c == '>' || c == '<' || c == '=' }

  predicate IsNumeric(c: char) { '0' <= c <= '9' || c == '.' }

  function SignLen(s: string): (n: nat)
    ensures n <= |s| && (forall i :: 0 <= i < n ==> IsSign(s[i])) && (n < |s| ==> !IsSign(s[n]))
  {
    if s == "" || !IsSign(s[0]) then 0 else 1 + SignLen(s[1..])
  }

  function NumericLen(s: string): (n: nat)
    ensures n <= |s| && (forall i :: 0 <= i < n ==> IsNumeric(s[i])) && (n < |s| ==> !IsNumeric(s[n]))
  {
    if s == "" || !IsNumeric(s[0]) then 0 else 1 + NumericLen(s[1..])
  }

  /** The leftmost run of signs followed by a number: the groups of ([><=]+)([\d\.]+). */
  function FindCompare(s: string): Option<(string, string)>
    decreases |s|
  {
    if s == "" then None
    else
      var n := SignLen(s);
      if n == 0 then FindCompare(s[1..])
      else
        var m := NumericLen(s[n..]);
        if m == 0 then FindCompare(s[n..]) else Some((s[..n], s[n..n + m]))
  }

  /** On the comparison of a written formula the groups are its sign and its number. */
  lemma FindsComparison(f: Formula)
    requires WellFormed(f) && f.cmp != ""
    ensures FindCompare(ModeOf(f)) == Some((f.cmp, f.num))
  {
    hide Compares;
    NumberIsNumeric(f.num);
    var s := ModeOf(f);
    assert forall i :: 0 <= i < |f.cmp| ==> IsSign(s[i]);
    assert s[|f.cmp|] == f.num[0];
    assert SignLen(s) == |f.cmp|;
    assert s[|f.cmp|..] == f.num && s[..|f.cmp|] == f.cmp;
    assert NumericLen(f.num) == |f.num|;
    assert s[|f.cmp|..|f.cmp| + |f.num|] == f.num;
  }

  lemma NumberIsNumeric(num: string)
    requires IsNumber(num)
    ensures num != "" && forall i :: 0 <= i < |num| ==> IsNumeric(num[i]) && !IsSign(num[i])
  {
    if !(num != "" && AllIn(Digit, num)) {
      var i :| 0 <= i < |num| && NumberSplit(num, i);
      assert num == num[..i] + "." + num[i + 1..];
    }
  }

  /** `match[1]` panics when the pattern is not found. */
  method CompareSum(sum: real, computeMode: string) returns (r: bool)
    requires FindCompare(computeMode).Some?
    ensures r == Compares(sum, FindCompare(computeMode).value.0, DecimalValue(FindCompare(computeMode).value.1))
  {
    var found := FindCompare(computeMode);
    var mode, val := found.value.0, DecimalValue(found.value.1);
    r := (mode == ">" && sum > val) || (mode == "<" && sum < val) || (mode == "=" && sum == val)
         || (mode == ">=" && sum >= val) || (mode == "<=" && sum <= val);
  }

  // ----- compute -----

  /** The values of those counters that have one. */
  method QueryOperands(counters: seq<string>, endpoint: string, vals: ValueMap) returns (ret: seq<real>)
    ensures |ret| <= |counters|
    ensures |ret| == |counters| <==> HasAll(counters, endpoint, vals)
    ensures |ret| == |counters| ==> forall i :: 0 <= i < |ret| ==> ret[i] == vals[endpoint + counters[i]]
  {
    ret := [];
    for n := 0 to |counters|
      invariant |ret| <= n
      invariant |ret| == n <==> forall i :: 0 <= i < n ==> endpoint + counters[i] in vals
      invariant |ret| == n ==> forall i :: 0 <= i < n ==> ret[i] == vals[endpoint + counters[i]]
    {
      if endpoint + counters[n] in vals {
        ret := ret + [vals[endpoint + counters[n]]];
      }
    }
  }

  // ----- compute on whatever was parsed -----

  /** What parse returns. */
  datatype Parts = Parts(operands: seq<string>, operators: seq<string>, mode: string)

  /** compute neither indexes out of range nor misses the pattern of compareSum. */
  predicate Computable(p: Parts) {
    |p.operands| <= |p.operators| + 1 && (p.mode == "" || FindCompare(p.mode).Some?)
  }

  /** The first `n + 1` operands, added for "+" and subtracted for any other operator. */
  function PartsSum(p: Parts, host: string, vals: ValueMap, n: nat): real
    requires n < |p.operands| <= |p.operators| + 1 && HasAll(p.operands, host, vals)
  {
    if n == 0 then vals[host + p.operands[0]]
    else
      var v := vals[host + p.operands[n]];
      PartsSum(p, host, vals, n - 1) + if p.operators[n - 1] == "+" then v else -v
  }

  /** None stands for the errors of compute. */
  function Value(p: Parts, host: string, vals: ValueMap): Option<real>
    requires Computable(p)
  {
    if p.operands == [] || !HasAll(p.operands, host, vals) then None
    else
      var sum := PartsSum(p, host, vals, |p.operands| - 1);
      if p.mode == "" then Some(sum)
      else
        var (sign, number) := FindCompare(p.mode).value;
        Some(if Compares(sum, sign, DecimalValue(number)) then 1.0 else 0.0)
  }

  method Compute(p: Parts, hostname: string, vals: ValueMap) returns (val: Option<real>)
    requires Computable(p)
    ensures val == Value(p, hostname, vals)
  {
    hide DecimalValue, Compares, FindCompare;
    var count := |p.operands|;
    if count == 0 {
      return None;
    }
    var values := QueryOperands(p.operands, hostname, vals);
    if |values| != count {
      return None;
    }
    var sum := values[0];
    for i := 0 to |values| - 1
      invariant sum == PartsSum(p, hostname, vals, i)
    {
      if p.operators[i] == "+" {
        sum := sum + values[i + 1];
      } else {
        sum := sum - values[i + 1];
      }
    }
    if p.mode != "" {
      var holds := CompareSum(sum, p.mode);
      return Some(if holds then 1.0 else 0.0);
    }
    return Some(sum);
  }

  function FormulaParts(f: Formula): Parts { Parts(f.counters, OpStrings(f.ops), ModeOf(f)) }

  lemma {:induction false} SumsAgree(f: Formula, host: string, vals: ValueMap, n: nat)
    requires WellFormed(f) && n < |f.counters| && HasAll(f.counters, host, vals)
    ensures PartsSum(FormulaParts(f), host, vals, n) == SignedSum(f.counters, f.ops, host, vals, n)
  {
    hide IsCounter, IsNumber;
    if n > 0 {
      SumsAgree(f, host, vals, n - 1);
    }
  }

  /** On the parts of a formula, compute yields what the formula denotes. */
  lemma ValueIsDenoted(f: Formula, host: string, vals: ValueMap)
    requires WellFormed(f)
    ensures Computable(FormulaParts(f))
    ensures Value(FormulaParts(f), host, vals) == Denote(f, host, vals)
  {
    hide DecimalValue, Compares, IsCounter, IsNumber, FindCompare, PartsSum, SignedSum;
    if f.cmp != "" {
      FindsComparison(f);
    } else {
      assert ModeOf(f) == "";
    }
    if HasAll(f.counters, host, vals) {
      SumsAgree(f, host, vals, |f.ops|);
    }
  }
}
