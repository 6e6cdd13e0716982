/** What reaches the RRD file of a key (graph/rrdtool/rrdtool.go, update), and what a flush of a gauge
    does to the answers of queries. The RRD library itself is a stated hypothesis. */
module GraphUpdate {
  import opened Wrappers
  import opened GoInts
  import opened GraphModel
  import opened GraphQuery

  // ----- Handing items over -----

  function Power10(n: nat): (p: real)
    ensures p >= 1.0 && (n > 0 ==> p >= 10.0)
  {
    if n == 0 then 1.0 else 10.0 * Power10(n - 1)
  }

  /** The values that update leaves out: beyond 1e300, or below 1e-300 but not zero. */
  predicate Extreme(value: real) {
    var v := if value < 0.0 then -value else value;
    v > Power10(300) || (v < 1.0 / Power10(300) && v > 0.0)
  }

  /** int(v), for values that an int can hold. */
  function Truncated(v: real): real {
    if v >= 0.0 then v.Floor as real else -((-v).Floor as real)
  }

  predicate IsRate(dsType: string) { dsType == DERIVE || dsType == COUNTER }

  function Recorded(item: GraphItem): GraphItem {
    if IsRate(item.dsType) then item.(value := Truncated(item.value)) else item
  }

  /** The points handed to the library for `items`. */
  function Handed(items: seq<GraphItem>): seq<GraphItem> {
    if items == [] then []
    else
      var item := items[|items| - 1];
      Handed(items[..|items| - 1]) + if Extreme(item.value) then [] else [Recorded(item)]
  }

  /** update, up to the call into the library. */
  method Update(items: seq<GraphItem>) returns (cached: seq<GraphItem>)
    ensures cached == Handed(items)
  {
    hide Extreme, Truncated;
    cached := [];
    for n := 0 to |items|
      invariant cached == Handed(items[..n])
    {
      assert items[..n + 1][..n] == items[..n];
      var item := items[n];
      if Extreme(item.value) {
        continue;
      }
      if item.dsType == "DERIVE" || item.dsType == "COUNTER" {
        cached := cached + [item.(value := Truncated(item.value))];
      } else {
        cached := cached + [item];
      }
    }
    assert items[..|items|] == items;
  }

  /** A point is handed over exactly for each item that is not extreme. */
  lemma {:induction false} HandedMembers(items: seq<GraphItem>, p: GraphItem)
    ensures p in Handed(items) <==> exists k :: 0 <= k < |items| && !Extreme(items[k].value) && Recorded(items[k]) == p
  {
    hide Extreme, Recorded;
    if items != [] {
      var n := |items| - 1;
      HandedMembers(items[..n], p);
      MembersSnoc(items, p);
    }
  }

  lemma MembersSnoc(items: seq<GraphItem>, p: GraphItem)
    requires items != []
    ensures var n := |items| - 1;
            (exists k :: 0 <= k < |items| && !Extreme(items[k].value) && Recorded(items[k]) == p) <==>
            (exists k :: 0 <= k < n && !Extreme(items[..n][k].value) && Recorded(items[..n][k]) == p)
            || (!Extreme(items[n].value) && Recorded(items[n]) == p)
  {
    hide Extreme, Recorded;
    var n := |items| - 1;
    if k :| 0 <= k < |items| && !Extreme(items[k].value) && Recorded(items[k]) == p {
      assert k < n ==> items[..n][k] == items[k];
    }
    if k :| 0 <= k < n && !Extreme(items[..n][k].value) && Recorded(items[..n][k]) == p {
      assert items[k] == items[..n][k];
    }
  }

  /** Which single item is left out. */
  lemma LeftOutIff(item: GraphItem)
    ensures Handed([item]) == [] <==>
            || item.value > Power10(300) || item.value < -Power10(300)
            || (item.value != 0.0 && -(1.0 / Power10(300)) < item.value < 1.0 / Power10(300))
    ensures Handed([item]) != [] ==> Handed([item]) == [Recorded(item)]
  {
    hide Power10, Recorded;
    assert [item][..0] == [];
  }

  /** A counter is recorded as the whole number next to it on the side of zero, anything else as it is. */
  lemma RecordedMeans(item: GraphItem) returns (n: int)
    ensures item.dsType != DERIVE && item.dsType != COUNTER ==> Recorded(item) == item
    ensures item.dsType == DERIVE || item.dsType == COUNTER ==>
              && Recorded(item) == item.(value := n as real)
              && (item.value >= 0.0 ==> n as real <= item.value < n as real + 1.0)
              && (item.value <= 0.0 ==> n as real - 1.0 < item.value <= n as real)
  {
    n := if item.value >= 0.0 then item.value.Floor else -((-item.value).Floor);
    FloorBounds(item.value);
    FloorBounds(-item.value);
  }

  lemma FloorBounds(v: real)
    ensures v.Floor as real <= v < v.Floor as real + 1.0
    ensures -(v.Floor as real) == (-v.Floor) as real
  {
  }

  lemma {:induction false} HandedAscending(items: seq<GraphItem>)
    requires Ascending(items)
    ensures Ascending(Handed(items))
    ensures forall k :: 0 <= k < |Handed(items)| ==>
            items != [] && Handed(items)[k].timestamp <= items[|items| - 1].timestamp
  {
    hide Extreme, Truncated;
    if items != [] {
      HandedAscending(items[..|items| - 1]);
    }
  }

  /** A whole number of ordinary size, which is handed over as it is. */
  predicate Plain(item: GraphItem) { !Extreme(item.value) && Recorded(item) == item }

  lemma {:induction false} HandedUnchanged(items: seq<GraphItem>)
    requires forall k :: 0 <= k < |items| ==> Plain(items[k])
    ensures Handed(items) == items
  {
    hide Plain, Handed;
    if items == [] {
      HandedNothing();
    } else {
      var n := |items| - 1;
      HandedUnchanged(items[..n]);
      HandedLast(items);
      assert items == items[..n] + [items[n]];
    }
  }

  lemma HandedNothing()
    ensures Handed([]) == []
  {
  }

  lemma HandedLast(items: seq<GraphItem>)
    requires items != [] && Plain(items[|items| - 1])
    ensures Handed(items) == Handed(items[..|items| - 1]) + [items[|items| - 1]]
  {
    hide Extreme, Recorded;
  }

  // ----- Storage after a flush -----

  /** The hypothesis about the library: inside the window, the rows after some points have been
      recorded know what the points say, and otherwise what the rows before them knew. For a rate
      `points` begins with the point that the file recorded last, if it has one. Rows named by the
      end of their interval, as fetch names them, show a rate `lag == step` later than memory does,
      which names it by the interval's start; `lag == 0` for a gauge. */
  ghost predicate StoredAfter(rows: seq<RRDData>, before: seq<RRDData>, dsType: string, step: int,
                              points: seq<GraphItem>, lag: int, startTs: int, endTs: int)
    requires step > 0
  {
    forall ts :: startTs <= ts <= endTs ==>
      ValueAt(rows, ts) == Overlay(CachedAt(dsType, step, points, ts - lag), ValueAt(before, ts))
  }

  /** The point recorded last by the file of a counter, if any. */
  ghost predicate LastPoint(last: seq<GraphItem>, dsType: string) {
    |last| <= 1 && forall p :: p in last ==> Plain(p) && p.dsType == dsType
  }

  ghost predicate Typed(items: seq<GraphItem>, dsType: string) {
    forall k :: 0 <= k < |items| ==> items[k].dsType == dsType
  }

  /** The same query without and with a flush of the older items `xs` before it. */
  ghost predicate FlushedBetween(v0: seq<RRDData>, v1: seq<RRDData>, dsType: string, step: int,
                                 startTs: int, endTs: int, last: seq<GraphItem>, xs: seq<GraphItem>,
                                 ys: seq<GraphItem>, datas: seq<RRDData>, rows: seq<RRDData>, lag: int)
    requires step > 0
  {
    && Multiple(startTs, step) && startTs <= endTs && Ascending(last + (xs + ys)) && LastPoint(last, dsType)
    && Typed(xs, dsType)
    && IsMergedAnswer(v0, dsType, step, startTs, endTs, xs + ys, datas)
    && IsMergedAnswer(v1, dsType, step, startTs, endTs, ys, rows)
    && StoredAfter(rows, datas, dsType, step, last + Handed(xs), lag, startTs, endTs)
  }

  lemma SlotsOfBoth(v0: seq<RRDData>, v1: seq<RRDData>, dsType: string, step: int, startTs: int, endTs: int,
                    last: seq<GraphItem>, xs: seq<GraphItem>, ys: seq<GraphItem>, datas: seq<RRDData>,
                    rows: seq<RRDData>, lag: int, i: int)
    requires step > 0 && FlushedBetween(v0, v1, dsType, step, startTs, endTs, last, xs, ys, datas, rows, lag)
    requires 0 <= i < |v0|
    ensures |v1| == |v0|
    ensures var ts := Slot(startTs, step, i);
            var stored := ValueAt(datas, ts);
            && v0[i] == RRDData(ts, Overlay(CachedAt(dsType, step, xs + ys, ts), stored))
            && v1[i] == RRDData(ts, Overlay(CachedAt(dsType, step, ys, ts),
                                            Overlay(CachedAt(dsType, step, last + Handed(xs), ts - lag), stored)))
  {
    hide Multiple, CachedAt, ValueAt, Slot, LastPoint;
    SlotInWindow(dsType, step, startTs, endTs, i);
  }

  lemma GaugeHas(items: seq<GraphItem>, step: int, p: GraphItem)
    requires step > 0 && Ascending(items) && p in items
    ensures CachedAt(GAUGE, step, items, p.timestamp) == Some(p.value)
  {
  }

  lemma GaugeLacks(items: seq<GraphItem>, step: int, ts: int)
    requires step > 0 && forall p :: p in items ==> p.timestamp != ts
    ensures CachedAt(GAUGE, step, items, ts) == None
  {
  }

  lemma RecordedTime(item: GraphItem)
    ensures Recorded(item).timestamp == item.timestamp
    ensures item.dsType == GAUGE ==> Recorded(item) == item
  {
    hide Truncated;
  }

  lemma HandedAt(xs: seq<GraphItem>, p: GraphItem) returns (k: int)
    requires p in Handed(xs)
    ensures 0 <= k < |xs| && !Extreme(xs[k].value) && p == Recorded(xs[k]) && p.timestamp == xs[k].timestamp
  {
    hide Extreme, Recorded, Handed;
    HandedMembers(xs, p);
    k :| 0 <= k < |xs| && !Extreme(xs[k].value) && Recorded(xs[k]) == p;
    RecordedTime(xs[k]);
  }

  lemma GaugeHanded(xs: seq<GraphItem>, step: int, k: int)
    requires step > 0 && Ascending(xs) && 0 <= k < |xs| && xs[k].dsType == GAUGE
    ensures CachedAt(GAUGE, step, Handed(xs), xs[k].timestamp) ==
            if Extreme(xs[k].value) then None else Some(xs[k].value)
  {
    hide Extreme, Recorded, CachedAt, Handed;
    HandedAscending(xs);
    RecordedTime(xs[k]);
    if Extreme(xs[k].value) {
      forall p | p in Handed(xs) ensures p.timestamp != xs[k].timestamp {
        var j := HandedAt(xs, p);
      }
      GaugeLacks(Handed(xs), step, xs[k].timestamp);
    } else {
      HandedMembers(xs, Recorded(xs[k]));
      GaugeHas(Handed(xs), step, xs[k]);
    }
  }

  lemma GaugeNotHanded(xs: seq<GraphItem>, step: int, ts: int)
    requires step > 0 && forall k :: 0 <= k < |xs| ==> xs[k].timestamp != ts
    ensures CachedAt(GAUGE, step, Handed(xs), ts) == None
    ensures CachedAt(GAUGE, step, xs, ts) == None
  {
    hide Extreme, Recorded, CachedAt, Handed;
    forall p | p in Handed(xs) ensures p.timestamp != ts {
      var j := HandedAt(xs, p);
    }
    GaugeLacks(Handed(xs), step, ts);
    GaugeLacks(xs, step, ts);
  }

  lemma GaugeSlotIff(xs: seq<GraphItem>, ys: seq<GraphItem>, step: int, ts: int, stored: Option<real>)
    requires step > 0 && Ascending(xs + ys) && forall k :: 0 <= k < |xs| ==> xs[k].dsType == GAUGE
    ensures Overlay(CachedAt(GAUGE, step, xs + ys, ts), stored) ==
            Overlay(CachedAt(GAUGE, step, ys, ts), Overlay(CachedAt(GAUGE, step, Handed(xs), ts), stored))
            <==> forall k :: 0 <= k < |xs| && xs[k].timestamp == ts && Extreme(xs[k].value) ==>
                   stored == Some(xs[k].value)
  {
    hide Extreme, Handed, CachedAt;
    GaugeSplit(xs, ys, step, ts);
    PartsAscending(xs, ys);
    if k :| 0 <= k < |xs| && xs[k].timestamp == ts {
      GaugeHanded(xs, step, k);
      GaugeHas(xs, step, xs[k]);
      forall j | 0 <= j < |xs| && xs[j].timestamp == ts ensures j == k {
      }
    } else {
      GaugeNotHanded(xs, step, ts);
    }
  }

  /** For a gauge, a flush changes no answer if and only if every item left out for its value is
      outside the answer or already stored with that value. */
  lemma GaugeFlushInvisibleIff(v0: seq<RRDData>, v1: seq<RRDData>, step: int, startTs: int, endTs: int,
                               xs: seq<GraphItem>, ys: seq<GraphItem>, datas: seq<RRDData>, rows: seq<RRDData>)
    requires step > 0 && FlushedBetween(v0, v1, GAUGE, step, startTs, endTs, [], xs, ys, datas, rows, 0)
    ensures v0 == v1 <==>
            forall i, k :: 0 <= i < |v0| && 0 <= k < |xs| &&
                           xs[k].timestamp == Slot(startTs, step, i) && Extreme(xs[k].value) ==>
              ValueAt(datas, Slot(startTs, step, i)) == Some(xs[k].value)
  {
    hide CachedAt, ValueAt, Extreme, Handed, Slot, Overlay;
    assert |v0| == |v1| && [] + (xs + ys) == xs + ys && [] + Handed(xs) == Handed(xs);
    forall i | 0 <= i < |v0|
      ensures v0[i] == v1[i] <==>
              forall k :: 0 <= k < |xs| && xs[k].timestamp == Slot(startTs, step, i) && Extreme(xs[k].value) ==>
                ValueAt(datas, Slot(startTs, step, i)) == Some(xs[k].value)
    {
      SlotsOfBoth(v0, v1, GAUGE, step, startTs, endTs, [], xs, ys, datas, rows, 0, i);
      GaugeSlotIff(xs, ys, step, Slot(startTs, step, i), ValueAt(datas, Slot(startTs, step, i)));
    }
  }
}
