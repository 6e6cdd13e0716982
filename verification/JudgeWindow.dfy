/** The sliding window of one counter (judge/store/linkedlist.go): the newest items in
    front, and the points that threshold functions read from it. */
module JudgeWindow {

  datatype JudgeItem = JudgeItem(
    endpoint: string,
    metric: string,
    value: real,
    timestamp: int,
    judgeType: string,
    tags: map<string, string>)

  datatype HistoryData = HistoryData(timestamp: int, value: real)

  // ----- Receiving -----

  predicate Accepts(L: seq<JudgeItem>, v: JudgeItem) {
    L == [] || (v.timestamp > L[0].timestamp && v.timestamp > 0)
  }

  function Trim(L: seq<JudgeItem>, maxCount: nat): seq<JudgeItem> {
    if |L| <= maxCount then L else L[..maxCount]
  }

  function Pushed(L: seq<JudgeItem>, v: JudgeItem, maxCount: nat): seq<JudgeItem> {
    if Accepts(L, v) then Trim([v] + L, maxCount) else L
  }

  // ----- Reading -----

  predicate IsGauge(item: JudgeItem)
    requires item.judgeType != ""
  {
    item.judgeType[0] == 'G' || item.judgeType[0] == 'g'
  }

  ghost predicate Descending(L: seq<JudgeItem>) {
    forall i, j :: 0 <= i < j < |L| ==> L[i].timestamp > L[j].timestamp
  }

  function PointAt(L: seq<JudgeItem>, i: int): HistoryData
    requires 0 <= i < |L|
  {
    HistoryData(L[i].timestamp, L[i].value)
  }

  function RateAt(L: seq<JudgeItem>, i: int): HistoryData
    requires 0 <= i < |L| - 1 && L[i].timestamp > L[i + 1].timestamp
  {
    HistoryData(L[i].timestamp, (L[i].value - L[i + 1].value) / ((L[i].timestamp - L[i + 1].timestamp) as real))
  }

  /** A rate is what the counter gained per second since the item before: the older value and the
      gain make the newer value, and the rate is positive exactly for a counter that grew. */
  lemma RateMeans(L: seq<JudgeItem>, i: int)
    requires 0 <= i < |L| - 1 && L[i].timestamp > L[i + 1].timestamp
    ensures RateAt(L, i).timestamp == L[i].timestamp
    ensures L[i + 1].value + RateAt(L, i).value * ((L[i].timestamp - L[i + 1].timestamp) as real) == L[i].value
    ensures RateAt(L, i).value > 0.0 <==> L[i].value > L[i + 1].value
  {
    var gain, time := L[i].value - L[i + 1].value, (L[i].timestamp - L[i + 1].timestamp) as real;
    assert gain / time * time == gain;
  }

  predicate CanRead(L: seq<JudgeItem>, limit: int) {
    limit >= 1 && L != []
  }

  /** Enough items for `limit` points: a rate needs one item more. */
  predicate Enough(L: seq<JudgeItem>, limit: int)
    requires L != [] ==> L[0].judgeType != ""
  {
    CanRead(L, limit) && |L| >= if IsGauge(L[0]) then limit else limit + 1
  }

  /** How many points there are to read. */
  function PointCount(L: seq<JudgeItem>, limit: int): nat
    requires L != [] ==> L[0].judgeType != ""
  {
    if !CanRead(L, limit) then 0
    else if Enough(L, limit) then limit
    else if IsGauge(L[0]) then |L|
    else |L| - 1
  }

  ghost predicate IsHistory(L: seq<JudgeItem>, limit: int, vs: seq<HistoryData>)
    requires L != [] ==> L[0].judgeType != ""
    requires Descending(L)
  {
    && |vs| == PointCount(L, limit)
    && forall i :: 0 <= i < |vs| ==> vs[i] == if IsGauge(L[0]) then PointAt(L, i) else RateAt(L, i)
  }

  class SafeLinkedList {
    var L: seq<JudgeItem>

    constructor (item: JudgeItem)
      ensures L == [item]
    {
      L := [item];
    }

    /** A negative `maxCount` would remove from an empty list. */
    method PushFrontAndMaintain(v: JudgeItem, maxCount: int) returns (needJudge: bool)
      requires maxCount >= 0
      modifies this
      ensures needJudge == Accepts(old(L), v)
      ensures L == Pushed(old(L), v, maxCount)
    {
      var sz := |L|;
      if sz > 0 {
        if v.timestamp <= L[0].timestamp || v.timestamp <= 0 {
          return false;
        }
      }
      L := [v] + L;
      sz := sz + 1;
      if sz <= maxCount {
        return true;
      }
      var del := sz - maxCount;
      ghost var all := L;
      for i := 0 to del
        invariant |L| == sz - i && L == all[..sz - i]
      {
        L := L[..|L| - 1];
      }
      return true;
    }

    method ReadPoints(limit: int) returns (vs: seq<HistoryData>)
      requires 1 <= limit <= |L|
      ensures |vs| == limit && forall i :: 0 <= i < limit ==> vs[i] == PointAt(L, i)
    {
      vs := [HistoryData(L[0].timestamp, L[0].value)];
      var i := 1;
      while i < limit
        invariant 1 <= i <= limit && |vs| == i
        invariant forall k :: 0 <= k < i ==> vs[k] == PointAt(L, k)
      {
        vs := vs + [HistoryData(L[i].timestamp, L[i].value)];
        i := i + 1;
      }
    }

    method ReadRates(limit: int) returns (vs: seq<HistoryData>)
      requires 0 <= limit < |L| && Descending(L)
      ensures |vs| == limit && forall i :: 0 <= i < limit ==> vs[i] == RateAt(L, i)
    {
      vs := [];
      var i := 0;
      while i < limit
        invariant 0 <= i <= limit && |vs| == i
        invariant forall k :: 0 <= k < i ==> vs[k] == RateAt(L, k)
      {
        var diffVal := L[i].value - L[i + 1].value;
        var diffTs := L[i].timestamp - L[i + 1].timestamp;
        vs := vs + [HistoryData(L[i].timestamp, diffVal / (diffTs as real))];
        i := i + 1;
      }
    }

    /** The judge type is read off the newest item; an empty one panics. */
    method ReadHistory(limit: int) returns (vs: seq<HistoryData>, isEnough: bool)
      requires L != [] ==> L[0].judgeType != ""
      requires Descending(L)
      ensures IsHistory(L, limit, vs) && isEnough == Enough(L, limit)
      ensures isEnough <==>
              && limit >= 1 && L != []
              && |L| >= limit + if L[0].judgeType[0] == 'G' || L[0].judgeType[0] == 'g' then 0 else 1
      ensures isEnough ==> |vs| == limit
    {
      if limit < 1 {
        return [], false;
      }
      var size := |L|;
      if size == 0 {
        return [], false;
      }
      isEnough := true;
      var n := limit;
      var judgeType := L[0].judgeType[0];
      if judgeType == 'G' || judgeType == 'g' {
        if size < n {
          n := size;
          isEnough := false;
        }
        vs := ReadPoints(n);
      } else {
        if size < n + 1 {
          isEnough := false;
          n := size - 1;
        }
        vs := ReadRates(n);
      }
    }
  }

  // ----- The window over a whole stream -----

  /** An item of the stream is kept when it is the first, or positive and newer than
      everything that was pushed before it, kept or not. */
  ghost predicate IsRecord(stream: seq<JudgeItem>, i: int)
    requires 0 <= i < |stream|
  {
    i == 0 || (stream[i].timestamp > 0 && forall j :: 0 <= j < i ==> stream[j].timestamp < stream[i].timestamp)
  }

  /** All records of a stream, newest first. */
  ghost function Records(stream: seq<JudgeItem>): seq<JudgeItem> {
    if stream == [] then []
    else
      var n := |stream| - 1;
      if IsRecord(stream, n) then [stream[n]] + Records(stream[..n]) else Records(stream[..n])
  }

  /** The list after a stream has been pushed into it. */
  function Window(stream: seq<JudgeItem>, maxCount: nat): seq<JudgeItem> {
    if stream == [] then [] else Pushed(Window(stream[..|stream| - 1], maxCount), stream[|stream| - 1], maxCount)
  }

  /** The newest record bounds every positive timestamp so far. */
  lemma {:induction false} RecordsBound(stream: seq<JudgeItem>)
    requires stream != []
    ensures Records(stream) != [] && Records(stream)[0] in stream
    ensures forall j :: 0 <= j < |stream| ==>
            stream[j].timestamp <= Records(stream)[0].timestamp || stream[j].timestamp <= 0
  {
    var n := |stream| - 1;
    if n > 0 {
      var front := stream[..n];
      RecordsBound(front);
      assert forall j :: 0 <= j < n ==> stream[j] == front[j];
      if !IsRecord(stream, n) {
        NotRecord(stream, n);
      }
    }
  }

  lemma NotRecord(stream: seq<JudgeItem>, n: int)
    requires 0 < n < |stream| && !IsRecord(stream, n)
    ensures stream[n].timestamp <= 0 || exists j :: 0 <= j < n && stream[j].timestamp >= stream[n].timestamp
  {
  }

  lemma {:induction false} RecordsDescend(stream: seq<JudgeItem>)
    ensures Descending(Records(stream))
  {
    if stream != [] {
      var n := |stream| - 1;
      RecordsDescend(stream[..n]);
      if n > 0 {
        RecordsBound(stream[..n]);
      }
    }
  }

  /** With room for one item or more, the list is always the newest records of the stream. */
  lemma {:induction false} WindowIsNewestRecords(stream: seq<JudgeItem>, maxCount: nat)
    requires maxCount >= 1
    ensures Window(stream, maxCount) == Trim(Records(stream), maxCount)
    ensures Descending(Window(stream, maxCount))
  {
    RecordsDescend(stream);
    if stream != [] {
      WindowIsNewestRecords(stream[..|stream| - 1], maxCount);
      AcceptsIffRecord(stream, maxCount);
    }
  }

  /** The guard compares with one item, yet it decides about the whole past. */
  lemma AcceptsIffRecord(stream: seq<JudgeItem>, maxCount: nat)
    requires maxCount >= 1 && stream != []
    requires Window(stream[..|stream| - 1], maxCount) == Trim(Records(stream[..|stream| - 1]), maxCount)
    ensures Accepts(Window(stream[..|stream| - 1], maxCount), stream[|stream| - 1]) <==> IsRecord(stream, |stream| - 1)
  {
    var n := |stream| - 1;
    if n > 0 {
      RecordsBound(stream[..n]);
      assert forall j :: 0 <= j < n ==> stream[j] == stream[..n][j];
    }
  }
}
