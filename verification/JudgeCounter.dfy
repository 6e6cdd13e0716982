/** From a pushed item to an event (judge/store/history.go, judgeItemWithStrategy): why every
    check that reaches the alarm logic is grounded in a proper window. */
module JudgeCounter {
  import opened Wrappers
  import opened JudgeWindow
  import opened JudgeFunc
  import opened JudgeEvent

  /** Enough points means at least one, newest first, and the newest is the pushed item's. */
  lemma EnoughIsGrounded(L: seq<JudgeItem>, limit: int, vs: seq<HistoryData>)
    requires Descending(L) && (L != [] ==> L[0].judgeType != "")
    requires IsHistory(L, limit, vs) && Enough(L, limit)
    ensures vs != [] && DescendingPoints(vs) && vs[0].timestamp == L[0].timestamp
  {
    forall i, j | 0 <= i < j < |vs| ensures vs[i].timestamp > vs[j].timestamp {
      assert L[i].timestamp > L[j].timestamp;
    }
  }

  /** A configured alarm: its event id, its function and how often it may repeat. */
  datatype Alarm = Alarm(id: string, metric: string, fn: Function, op: string, right: real, maxStep: int)

  /** judgeItemWithStrategy and judgeItemWithExpression after the function has been parsed. */
  method JudgeItemWith(judge: Judge, list: SafeLinkedList, firstItem: JudgeItem, a: Alarm, now: int)
    returns (ghost vs: seq<HistoryData>)
    requires Descending(list.L) && list.L != [] && list.L[0] == firstItem && firstItem.judgeType != ""
    modifies judge
    ensures IsHistory(list.L, PointsAsked(a.fn), vs)
    ensures !Enough(list.L, PointsAsked(a.fn)) ==>
            judge.lastEvents == old(judge.lastEvents) && judge.sent == old(judge.sent)
    ensures Enough(list.L, PointsAsked(a.fn)) ==>
              && vs != []
              && var c := Check(a.id, a.metric, firstItem.timestamp, vs, Fires(a.fn, vs, a.op, a.right), now);
              && Grounded(c)
              && match Decide(judge.cfg, LastOf(old(judge.lastEvents), c.id), c, a.maxStep)
                 case Silent => judge.lastEvents == old(judge.lastEvents) && judge.sent == old(judge.sent)
                 case Send(e) => judge.lastEvents == old(judge.lastEvents) && judge.sent == old(judge.sent) + [e]
                 case Save(e) =>
                   && judge.lastEvents == old(judge.lastEvents)[c.id := e]
                   && judge.sent == old(judge.sent) + [e]
  {
    hide Decide, Fires, LeftIs;
    var historyData, verdict, isEnough := Compute(list, a.fn, a.op, a.right);
    vs := historyData;
    if !isEnough {
      return;
    }
    EnoughIsGrounded(list.L, PointsAsked(a.fn), vs);
    judge.SendEventIfNeed(Check(a.id, a.metric, firstItem.timestamp, historyData, verdict.triggered, now), a.maxStep);
  }

  /** The lists by key, as in JudgeItemMap.PushFrontAndMaintain. */
  class JudgeItemMap {
    var M: map<string, SafeLinkedList>

    ghost predicate Valid()
      reads this
    {
      forall j, k :: j in M && k in M && j != k ==> M[j] != M[k]
    }

    constructor ()
      ensures Valid() && M == map[]
    {
      M := map[];
    }

    /** What the list of a key holds; a missing key has none. */
    ghost function Items(key: string): seq<JudgeItem>
      reads this, M.Values
    {
      if key in M then M[key].L else []
    }

    /** Pushes and says whether to judge. A new key is judged without a look at its timestamp, and
        `maxCount` plays no part then; a negative one panics on a key that has a list. */
    method PushFrontAndMaintain(key: string, val: JudgeItem, maxCount: int) returns (needJudge: bool)
      requires Valid() && (key in M ==> maxCount >= 0)
      modifies this, if key in M then {M[key]} else {}
      ensures Valid() && key in M && fresh(M.Values - old(M.Values))
      ensures needJudge == Accepts(old(Items(key)), val)
      ensures key in old(M) ==> Items(key) == Pushed(old(Items(key)), val, maxCount)
      ensures key !in old(M) ==> Items(key) == [val]
      ensures forall k :: k != key ==> (k in M <==> k in old(M)) && Items(k) == old(Items(k))
    {
      if key in M {
        needJudge := M[key].PushFrontAndMaintain(val, maxCount);
      } else {
        var safeList := new SafeLinkedList(val);
        M := M[key := safeList];
        needJudge := true;
      }
    }

    /** Removes every key whose newest item is older than `before`, and no other. */
    method CleanStale(before: int)
      requires Valid()
      modifies this
      ensures Valid()
      ensures M == map k | k in old(M) &&
                           (FrontTime(old(Items(k))).None? || FrontTime(old(Items(k))).value >= before) :: old(M)[k]
    {
      var keys: set<string> := {};
      var rest := M.Keys;
      while rest != {}
        invariant rest <= M.Keys && M == old(M)
        invariant keys == set k | k in M.Keys - rest && FrontTime(Items(k)).Some? && FrontTime(Items(k)).value < before
        decreases rest
      {
        var k :| k in rest;
        rest := rest - {k};
        if M[k].L != [] && M[k].L[0].timestamp < before {
          keys := keys + {k};
        }
      }
      M := M - keys;
    }
  }

  function FrontTime(L: seq<JudgeItem>): Option<int> {
    if L == [] then None else Some(L[0].timestamp)
  }

  // ----- Whole streams -----

  /** An item of the counter and the time at which it is judged. */
  datatype Arrival = Arrival(item: JudgeItem, now: int)

  function ItemsOf(arrivals: seq<Arrival>): (r: seq<JudgeItem>)
    ensures |r| == |arrivals|
  {
    if arrivals == [] then [] else ItemsOf(arrivals[..|arrivals| - 1]) + [arrivals[|arrivals| - 1].item]
  }

  /** The points of a list, as ReadHistory returns them. */
  ghost function Points(L: seq<JudgeItem>, limit: int): (vs: seq<HistoryData>)
    requires Descending(L) && (L != [] ==> L[0].judgeType != "")
    ensures IsHistory(L, limit, vs)
  {
    seq(PointCount(L, limit), i requires 0 <= i < PointCount(L, limit) =>
        if IsGauge(L[0]) then PointAt(L, i) else RateAt(L, i))
  }

  ghost predicate Typed(arrivals: seq<Arrival>) {
    forall i :: 0 <= i < |arrivals| ==> arrivals[i].item.judgeType != ""
  }

  /** The newest item of a window is one that was pushed. */
  lemma {:induction false} WindowIsTyped(arrivals: seq<Arrival>, maxCount: nat)
    requires Typed(arrivals) && maxCount >= 1
    ensures forall k :: 0 <= k < |Window(ItemsOf(arrivals), maxCount)| ==>
            Window(ItemsOf(arrivals), maxCount)[k].judgeType != ""
  {
    if arrivals != [] {
      var n := |arrivals| - 1;
      WindowIsTyped(arrivals[..n], maxCount);
      assert ItemsOf(arrivals)[..n] == ItemsOf(arrivals[..n]);
    }
  }

  /** The check that the last arrival causes, if any. */
  ghost function LastCheck(arrivals: seq<Arrival>, maxCount: nat, a: Alarm): (r: seq<GroundedCheck>)
    requires Typed(arrivals) && maxCount >= 1 && arrivals != []
  {
    var n := |arrivals| - 1;
    var before := Window(ItemsOf(arrivals[..n]), maxCount);
    var L := Pushed(before, arrivals[n].item, maxCount);
    LastWindow(arrivals, maxCount);
    if !Accepts(before, arrivals[n].item) || !Enough(L, PointsAsked(a.fn)) then []
    else
      var vs := Points(L, PointsAsked(a.fn));
      EnoughIsGrounded(L, PointsAsked(a.fn), vs);
      [Check(a.id, a.metric, arrivals[n].item.timestamp, vs, Fires(a.fn, vs, a.op, a.right), arrivals[n].now)]
  }

  lemma LastWindow(arrivals: seq<Arrival>, maxCount: nat)
    requires Typed(arrivals) && maxCount >= 1 && arrivals != []
    ensures var n := |arrivals| - 1;
            var before := Window(ItemsOf(arrivals[..n]), maxCount);
            var L := Pushed(before, arrivals[n].item, maxCount);
            && Descending(L) && L != [] && L[0].judgeType != ""
            && (Accepts(before, arrivals[n].item) ==> L[0] == arrivals[n].item)
  {
    var n := |arrivals| - 1;
    WindowIsTyped(arrivals, maxCount);
    assert ItemsOf(arrivals)[..n] == ItemsOf(arrivals[..n]);
    WindowIsNewestRecords(ItemsOf(arrivals), maxCount);
    WindowIsNewestRecords(ItemsOf(arrivals[..n]), maxCount);
  }

  /** When an arrival is judged, and on what: it is the first one, or positive and newer than all
      before it, and together with it the list keeps enough records, one more for rates. The points of
      a gauge are the newest records. */
  lemma LastCheckMeans(arrivals: seq<Arrival>, maxCount: nat, a: Alarm)
    requires Typed(arrivals) && maxCount >= 1 && arrivals != []
    ensures var stream := ItemsOf(arrivals);
            var last := arrivals[|arrivals| - 1];
            var records := Records(stream);
            var kept := if |records| <= maxCount then |records| else maxCount;
            var checks := LastCheck(arrivals, maxCount, a);
            && (checks == [] <==>
                  || !IsRecord(stream, |stream| - 1)
                  || PointsAsked(a.fn) < 1
                  || kept < PointsAsked(a.fn) + if IsGauge(last.item) then 0 else 1)
            && (checks != [] ==>
                  && |checks| == 1
                  && var c := checks[0];
                  && c.id == a.id && c.metric == a.metric && c.now == last.now && c.eventTime == last.item.timestamp
                  && |c.vs| == PointsAsked(a.fn) <= |records|
                  && c.triggered == Fires(a.fn, c.vs, a.op, a.right)
                  && (IsGauge(last.item) ==> forall i :: 0 <= i < |c.vs| ==>
                        c.vs[i] == HistoryData(records[i].timestamp, records[i].value)))
  {
    hide Fires, Typed, IsRecord, Records, Window;
    var n := |arrivals| - 1;
    var stream := ItemsOf(arrivals);
    LastWindow(arrivals, maxCount);
    assert stream[..n] == ItemsOf(arrivals[..n]);
    WindowIsNewestRecords(stream[..n], maxCount);
    WindowIsNewestRecords(stream, maxCount);
    AcceptsIffRecord(stream, maxCount);
    WindowSnoc(stream, maxCount);
  }

  lemma WindowSnoc(stream: seq<JudgeItem>, maxCount: nat)
    requires stream != []
    ensures Window(stream, maxCount) == Pushed(Window(stream[..|stream| - 1], maxCount), stream[|stream| - 1], maxCount)
  {
  }

  /** All checks of a stream, in order. */
  ghost function ChecksOf(arrivals: seq<Arrival>, maxCount: nat, a: Alarm): seq<GroundedCheck>
    requires Typed(arrivals) && maxCount >= 1
  {
    if arrivals == [] then []
    else ChecksOf(arrivals[..|arrivals| - 1], maxCount, a) + LastCheck(arrivals, maxCount, a)
  }

  /** From raw items to saved events: whatever arrives, and whenever it is judged, the alarms of
      a counter form numbered episodes on disjoint windows. */
  lemma StreamFormsEpisodes(cfg: Config, arrivals: seq<Arrival>, maxCount: nat, a: Alarm)
    requires Typed(arrivals) && maxCount >= 1
    ensures Episodes(HistoryOf(Run(cfg, ChecksOf(arrivals, maxCount, a), _ => a.maxStep).saved, a.id),
                     a.maxStep, cfg.minInterval)
  {
    hide Episodes, ChecksOf, Run;
    RunFormsEpisodes(cfg, ChecksOf(arrivals, maxCount, a), _ => a.maxStep, a.id);
  }
}
