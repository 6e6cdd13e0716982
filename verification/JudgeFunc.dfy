/** The threshold functions over a window (judge/store/func.go). */
module JudgeFunc {
  import opened JudgeWindow

  function Distance(a: real, b: real): real { if a < b then b - a else a - b }

  /** checkIsTriggered; an unknown operator never triggers. */
  predicate IsTriggered(left: real, op: string, right: real) {
    if op == "=" || op == "==" then Distance(left, right) < 0.0001
    else if op == "!=" then Distance(left, right) > 0.0001
    else if op == "<" then left < right
    else if op == "<=" then left <= right
    else if op == ">" then left > right
    else if op == ">=" then left >= right
    else false
  }

  /** The six tests one by one. */
  lemma TestsMean(left: real, op: string, right: real)
    ensures op == "<" ==> (IsTriggered(left, op, right) <==> left < right)
    ensures op == "<=" ==> (IsTriggered(left, op, right) <==> left <= right)
    ensures op == ">" ==> (IsTriggered(left, op, right) <==> left > right)
    ensures op == ">=" ==> (IsTriggered(left, op, right) <==> left >= right)
    ensures op == "=" || op == "==" ==>
              (IsTriggered(left, op, right) <==> left - right < 0.0001 && right - left < 0.0001)
    ensures op == "!=" ==> (IsTriggered(left, op, right) <==> left - right > 0.0001 || right - left > 0.0001)
    ensures op !in {"=", "==", "!=", "<", "<=", ">", ">="} ==> !IsTriggered(left, op, right)
  {
  }

  /** "=" and "!=" are not each other's negation: both are silent at the tolerance itself. */
  lemma EqualityGap(left: real, right: real)
    ensures IsTriggered(left, "<", right) <==> !IsTriggered(left, ">=", right)
    ensures IsTriggered(left, ">", right) <==> !IsTriggered(left, "<=", right)
    ensures (IsTriggered(left, "==", right) <==> !IsTriggered(left, "!=", right)) <==> Distance(left, right) != 0.0001
  {
  }

  /** What every Compute method returns. */
  datatype Verdict = Verdict(left: real, triggered: bool)

  function Values(vs: seq<HistoryData>): seq<real> {
    seq(|vs|, i requires 0 <= i < |vs| => vs[i].value)
  }

  ghost predicate IsMaximum(m: real, vs: seq<HistoryData>) {
    m in Values(vs) && forall i :: 0 <= i < |vs| ==> vs[i].value <= m
  }

  ghost predicate IsMinimum(m: real, vs: seq<HistoryData>) {
    m in Values(vs) && forall i :: 0 <= i < |vs| ==> vs[i].value >= m
  }

  function Sum(vs: seq<HistoryData>): real {
    if vs == [] then 0.0 else Sum(vs[..|vs| - 1]) + vs[|vs| - 1].value
  }

  /** How many points satisfy the test. */
  function Hits(vs: seq<HistoryData>, op: string, right: real): nat {
    if vs == [] then 0
    else Hits(vs[..|vs| - 1], op, right) + if IsTriggered(vs[|vs| - 1].value, op, right) then 1 else 0
  }

  method ComputeMax(vs: seq<HistoryData>, op: string, right: real) returns (r: Verdict)
    requires vs != []
    ensures IsMaximum(r.left, vs) && r.triggered == IsTriggered(r.left, op, right)
  {
    var max := vs[0].value;
    var at := 0;
    for i := 1 to |vs|
      invariant 0 <= at < |vs| && vs[at].value == max
      invariant forall k :: 0 <= k < i ==> vs[k].value <= max
    {
      if max < vs[i].value {
        max := vs[i].value;
        at := i;
      }
    }
    assert Values(vs)[at] == max;
    return Verdict(max, IsTriggered(max, op, right));
  }

  method ComputeMin(vs: seq<HistoryData>, op: string, right: real) returns (r: Verdict)
    requires vs != []
    ensures IsMinimum(r.left, vs) && r.triggered == IsTriggered(r.left, op, right)
  {
    var min := vs[0].value;
    ghost var at := 0;
    for i := 1 to |vs|
      invariant 0 <= at < |vs| && vs[at].value == min
      invariant forall k :: 0 <= k < i ==> vs[k].value >= min
    {
      if min > vs[i].value {
        min := vs[i].value;
        at := i;
      }
    }
    assert Values(vs)[at] == min;
    return Verdict(min, IsTriggered(min, op, right));
  }

  method ComputeAll(vs: seq<HistoryData>, op: string, right: real) returns (r: Verdict)
    requires vs != []
    ensures r.left == vs[0].value
    ensures r.triggered <==> forall i :: 0 <= i < |vs| ==> IsTriggered(vs[i].value, op, right)
  {
    var isTriggered := true;
    for i := 0 to |vs|
      invariant isTriggered && forall k :: 0 <= k < i ==> IsTriggered(vs[k].value, op, right)
    {
      isTriggered := IsTriggered(vs[i].value, op, right);
      if !isTriggered {
        break;
      }
    }
    return Verdict(vs[0].value, isTriggered);
  }

  /** lookup(#num,limit): at least `num` of the points satisfy the test; never for num < 1. */
  method ComputeLookup(vs: seq<HistoryData>, num: int, op: string, right: real) returns (r: Verdict)
    requires vs != []
    ensures r.left == vs[0].value
    ensures r.triggered <==> 1 <= num <= Hits(vs, op, right)
  {
    hide IsTriggered;
    var n := 0;
    for i := 0 to |vs|
      invariant n == Hits(vs[..i], op, right) && (1 <= num ==> n < num)
    {
      assert vs[..i + 1][..i] == vs[..i];
      if IsTriggered(vs[i].value, op, right) {
        n := n + 1;
        if n == num {
          HitsGrow(vs, i + 1, op, right);
          return Verdict(vs[0].value, true);
        }
      }
    }
    assert vs[..|vs|] == vs;
    return Verdict(vs[0].value, false);
  }

  lemma {:induction false} HitsGrow(vs: seq<HistoryData>, n: int, op: string, right: real)
    requires 0 <= n <= |vs|
    ensures Hits(vs[..n], op, right) <= Hits(vs, op, right)
    decreases |vs|
  {
    if n < |vs| {
      var front := vs[..|vs| - 1];
      HitsGrow(front, n, op, right);
      assert front[..n] == vs[..n];
    } else {
      assert vs[..n] == vs;
    }
  }

  method ComputeSum(vs: seq<HistoryData>, op: string, right: real) returns (r: Verdict)
    ensures r.left == Sum(vs) && r.triggered == IsTriggered(r.left, op, right)
  {
    var sum := 0.0;
    for i := 0 to |vs|
      invariant sum == Sum(vs[..i])
    {
      assert vs[..i + 1][..i] == vs[..i];
      sum := sum + vs[i].value;
    }
    assert vs[..|vs|] == vs;
    return Verdict(sum, IsTriggered(sum, op, right));
  }

  method ComputeAvg(vs: seq<HistoryData>, op: string, right: real) returns (r: Verdict)
    requires vs != []
    ensures r.left == Sum(vs) / (|vs| as real) && r.triggered == IsTriggered(r.left, op, right)
  {
    hide IsTriggered;
    var sum := ComputeSum(vs, op, right);
    var avg := sum.left / (|vs| as real);
    return Verdict(avg, IsTriggered(avg, op, right));
  }

  predicate DiffFires(vs: seq<HistoryData>, op: string, right: real, i: int) {
    1 <= i < |vs| && IsTriggered(vs[0].value - vs[i].value, op, right)
  }

  predicate PercentFires(vs: seq<HistoryData>, op: string, right: real, i: int) {
    1 <= i < |vs| && vs[i].value != 0.0 && IsTriggered(Percent(vs[0].value, vs[i].value), op, right)
  }

  /** diff(#limit) reads limit + 1 points and fires when the newest point differs enough from
      some older one; the left value belongs to the newest such point, or to the oldest point. */
  method ComputeDiff(vs: seq<HistoryData>, op: string, right: real) returns (r: Verdict)
    requires vs != []
    ensures r.triggered <==> exists i :: DiffFires(vs, op, right, i)
    ensures r.triggered ==> exists i :: DiffFires(vs, op, right, i) && r.left == vs[0].value - vs[i].value
                                        && forall k :: DiffFires(vs, op, right, k) ==> i <= k
    ensures !r.triggered ==> r.left == if |vs| == 1 then 0.0 else vs[0].value - vs[|vs| - 1].value
  {
    hide IsTriggered;
    var first := vs[0].value;
    var leftValue, isTriggered := 0.0, false;
    for i := 1 to |vs|
      invariant !isTriggered && leftValue == if i == 1 then 0.0 else first - vs[i - 1].value
      invariant forall k :: 1 <= k < i ==> !DiffFires(vs, op, right, k)
    {
      leftValue := first - vs[i].value;
      isTriggered := IsTriggered(leftValue, op, right);
      if isTriggered {
        assert DiffFires(vs, op, right, i);
        break;
      }
    }
    return Verdict(leftValue, isTriggered);
  }

  function Percent(first: real, v: real): real
    requires v != 0.0
  {
    (first - v) / v * 100.0
  }

  /** The percentage against the oldest point that is not zero. */
  function OldestPercent(vs: seq<HistoryData>): real {
    if |vs| <= 1 then 0.0
    else if vs[|vs| - 1].value != 0.0 then Percent(vs[0].value, vs[|vs| - 1].value)
    else OldestPercent(vs[..|vs| - 1])
  }

  /** pdiff skips the points that are zero; otherwise it is like diff, in percent. */
  method ComputePDiff(vs: seq<HistoryData>, op: string, right: real) returns (r: Verdict)
    requires vs != []
    ensures r.triggered <==> exists i :: PercentFires(vs, op, right, i)
    ensures r.triggered ==> exists i :: PercentFires(vs, op, right, i) && r.left == Percent(vs[0].value, vs[i].value)
                                        && forall k :: PercentFires(vs, op, right, k) ==> i <= k
    ensures !r.triggered ==> r.left == OldestPercent(vs)
  {
    hide IsTriggered, Percent;
    var first := vs[0].value;
    var leftValue, isTriggered := 0.0, false;
    for i := 1 to |vs|
      invariant !isTriggered && leftValue == OldestPercent(vs[..i])
      invariant forall k :: 1 <= k < i ==> !PercentFires(vs, op, right, k)
    {
      assert vs[..i + 1][..i] == vs[..i];
      if vs[i].value == 0.0 {
        continue;
      }
      leftValue := Percent(first, vs[i].value);
      isTriggered := IsTriggered(leftValue, op, right);
      if isTriggered {
        assert PercentFires(vs, op, right, i);
        return Verdict(leftValue, true);
      }
    }
    assert vs[..|vs|] == vs;
    return Verdict(leftValue, isTriggered);
  }

  // ----- A configured function over a list -----

  datatype Function =
    | MaxFn(limit: int)
    | MinFn(limit: int)
    | AllFn(limit: int)
    | SumFn(limit: int)
    | AvgFn(limit: int)
    | DiffFn(limit: int)
    | PDiffFn(limit: int)
    | LookupFn(num: int, limit: int)

  /** The number of points asked of the list; diff and pdiff compare with `limit` older ones. */
  function PointsAsked(fn: Function): int {
    if fn.DiffFn? || fn.PDiffFn? then fn.limit + 1 else fn.limit
  }

  ghost predicate Fires(fn: Function, vs: seq<HistoryData>, op: string, right: real)
    requires vs != []
  {
    match fn
    case MaxFn(_) => exists m :: IsMaximum(m, vs) && IsTriggered(m, op, right)
    case MinFn(_) => exists m :: IsMinimum(m, vs) && IsTriggered(m, op, right)
    case AllFn(_) => forall i :: 0 <= i < |vs| ==> IsTriggered(vs[i].value, op, right)
    case SumFn(_) => IsTriggered(Sum(vs), op, right)
    case AvgFn(_) => IsTriggered(Sum(vs) / (|vs| as real), op, right)
    case DiffFn(_) => exists i :: DiffFires(vs, op, right, i)
    case PDiffFn(_) => exists i :: PercentFires(vs, op, right, i)
    case LookupFn(num, _) => 1 <= num <= Hits(vs, op, right)
  }

  /** The left value that goes into the event. */
  ghost predicate LeftIs(fn: Function, vs: seq<HistoryData>, op: string, right: real, left: real)
    requires vs != []
  {
    match fn
    case MaxFn(_) => IsMaximum(left, vs)
    case MinFn(_) => IsMinimum(left, vs)
    case AllFn(_) => left == vs[0].value
    case SumFn(_) => left == Sum(vs)
    case AvgFn(_) => left == Sum(vs) / (|vs| as real)
    case DiffFn(_) =>
      if !Fires(fn, vs, op, right) then left == if |vs| == 1 then 0.0 else vs[0].value - vs[|vs| - 1].value
      else exists i :: DiffFires(vs, op, right, i) && left == vs[0].value - vs[i].value
                       && forall k :: DiffFires(vs, op, right, k) ==> i <= k
    case PDiffFn(_) =>
      if !Fires(fn, vs, op, right) then left == OldestPercent(vs)
      else exists i :: PercentFires(vs, op, right, i) && left == Percent(vs[0].value, vs[i].value)
                       && forall k :: PercentFires(vs, op, right, k) ==> i <= k
    case LookupFn(_, _) => left == vs[0].value
  }

  ghost function HitIndices(vs: seq<HistoryData>, op: string, right: real): set<int> {
    set i | 0 <= i < |vs| && IsTriggered(vs[i].value, op, right)
  }

  lemma {:induction false} HitsAreCounted(vs: seq<HistoryData>, op: string, right: real)
    ensures Hits(vs, op, right) == |HitIndices(vs, op, right)|
  {
    hide IsTriggered;
    if vs != [] {
      var n := |vs| - 1;
      HitsAreCounted(vs[..n], op, right);
      assert HitIndices(vs, op, right) == HitIndices(vs[..n], op, right) +
             if IsTriggered(vs[n].value, op, right) then {n} else {};
      assert n !in HitIndices(vs[..n], op, right);
    }
  }

  /** How many points the less simple functions ask for, and when they fire: diff and pdiff against the
      newest point, which is not one of their `limit` points, pdiff skipping zeros; lookup by the
      number of points that satisfy the test. */
  lemma FiringMeans(fn: Function, vs: seq<HistoryData>, op: string, right: real)
    requires vs != []
    ensures PointsAsked(fn) == fn.limit + if fn.DiffFn? || fn.PDiffFn? then 1 else 0
    ensures fn.DiffFn? ==>
              (Fires(fn, vs, op, right) <==>
               exists i :: 1 <= i < |vs| && IsTriggered(vs[0].value - vs[i].value, op, right))
    ensures fn.PDiffFn? ==>
              (Fires(fn, vs, op, right) <==>
               exists i :: 1 <= i < |vs| && vs[i].value != 0.0 &&
                 IsTriggered((vs[0].value - vs[i].value) / vs[i].value * 100.0, op, right))
    ensures fn.LookupFn? ==>
              (Fires(fn, vs, op, right) <==>
               1 <= fn.num <= |set i | 0 <= i < |vs| && IsTriggered(vs[i].value, op, right)|)
  {
    hide IsTriggered;
    HitsAreCounted(vs, op, right);
    if i :| 1 <= i < |vs| && IsTriggered(vs[0].value - vs[i].value, op, right) {
      assert DiffFires(vs, op, right, i);
    }
    if i :| 1 <= i < |vs| && vs[i].value != 0.0 &&
            IsTriggered((vs[0].value - vs[i].value) / vs[i].value * 100.0, op, right) {
      assert PercentFires(vs, op, right, i);
    }
  }

  lemma ExtremesAreUnique(m: real, n: real, vs: seq<HistoryData>)
    ensures IsMaximum(m, vs) && IsMaximum(n, vs) ==> m == n
    ensures IsMinimum(m, vs) && IsMinimum(n, vs) ==> m == n
  {
    if m in Values(vs) && n in Values(vs) {
      var i :| 0 <= i < |vs| && Values(vs)[i] == m;
      var j :| 0 <= j < |vs| && Values(vs)[j] == n;
    }
  }

  method Evaluate(fn: Function, vs: seq<HistoryData>, op: string, right: real) returns (r: Verdict)
    requires vs != []
    ensures r.triggered == Fires(fn, vs, op, right) && LeftIs(fn, vs, op, right, r.left)
  {
    hide IsTriggered, IsMaximum, IsMinimum, Hits, DiffFires, PercentFires, Percent, OldestPercent, Sum;
    match fn {
    case MaxFn(_) =>
      r := ComputeMax(vs, op, right);
      forall m ensures IsMaximum(m, vs) ==> m == r.left { ExtremesAreUnique(m, r.left, vs); }
    case MinFn(_) =>
      r := ComputeMin(vs, op, right);
      forall m ensures IsMinimum(m, vs) ==> m == r.left { ExtremesAreUnique(m, r.left, vs); }
    case AllFn(_) => r := ComputeAll(vs, op, right);
    case SumFn(_) => r := ComputeSum(vs, op, right);
    case AvgFn(_) => r := ComputeAvg(vs, op, right);
    case DiffFn(_) => r := ComputeDiff(vs, op, right);
    case PDiffFn(_) => r := ComputePDiff(vs, op, right);
    case LookupFn(num, _) => r := ComputeLookup(vs, num, op, right);
    }
  }

  /** Compute: without enough points there is no verdict. */
  method Compute(list: SafeLinkedList, fn: Function, op: string, right: real)
    returns (vs: seq<HistoryData>, r: Verdict, isEnough: bool)
    requires Descending(list.L) && (list.L != [] ==> list.L[0].judgeType != "")
    ensures isEnough == Enough(list.L, PointsAsked(fn))
    ensures IsHistory(list.L, PointsAsked(fn), vs)
    ensures isEnough ==>
              && |vs| == PointsAsked(fn) >= 1
              && r.triggered == Fires(fn, vs, op, right)
              && LeftIs(fn, vs, op, right, r.left)
    ensures !isEnough ==> r == Verdict(0.0, false)
  {
    hide Fires, LeftIs;
    vs, isEnough := list.ReadHistory(PointsAsked(fn));
    r := Verdict(0.0, false);
    if isEnough {
      r := Evaluate(fn, vs, op, right);
    }
  }
}
