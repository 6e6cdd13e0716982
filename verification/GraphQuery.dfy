/** Graph.Query (graph/api/graph.go): the points still in memory are laid over
    the points read from the RRD file (or from another node). */
module GraphQuery {
  import opened Wrappers
  import opened GoInts
  import opened GraphModel

  // ----- What an answer means -----

  /** The value a list of slots holds for time `ts`; None for "no slot" and for NaN. */
  ghost function ValueAt(ps: seq<RRDData>, ts: int): Option<real> {
    if k :| 0 <= k < |ps| && ps[k].timestamp == ts then ps[k].value else None
  }

  /** Item `k` and its successor are one step apart and the counter did not fall. */
  ghost predicate RateAt(items: seq<GraphItem>, step: int, ts: int, k: int) {
    && 0 <= k < |items| - 1
    && items[k].timestamp == ts
    && items[k + 1].timestamp == ts + step
    && items[k + 1].value >= items[k].value
  }

  /** What memory alone knows about time `ts`. */
  ghost function CachedAt(dsType: string, step: int, items: seq<GraphItem>, ts: int): Option<real>
    requires step > 0
  {
    if dsType == GAUGE then
      if k :| 0 <= k < |items| && items[k].timestamp == ts then Some(items[k].value) else None
    else if dsType == DERIVE || dsType == COUNTER then
      if k :| RateAt(items, step, ts, k) then Some((items[k + 1].value - items[k].value) / (step as real)) else None
    else
      None
  }

  /** A known value in memory wins over the stored one. */
  function Overlay(cached: Option<real>, stored: Option<real>): Option<real> {
    if cached.Some? then cached else stored
  }

  // ----- Contiguous lists of slots -----

  ghost predicate Series(ps: seq<RRDData>, step: int)
    requires step > 0
  {
    && (forall i, j :: 0 <= i < |ps| && 0 <= j < |ps| && j == i + 1 ==> ps[j].timestamp == ps[i].timestamp + step)
    && (ps != [] ==> Multiple(ps[0].timestamp, step))
  }

  lemma {:induction false} SeriesAt(ps: seq<RRDData>, step: int, i: int)
    requires step > 0 && Series(ps, step) && 0 <= i < |ps|
    ensures ps[i].timestamp == ps[0].timestamp + i * step
    ensures Multiple(ps[i].timestamp, step)
  {
    if i > 0 {
      SeriesAt(ps, step, i - 1);
      assert ps[i].timestamp == ps[i - 1].timestamp + step;
      assert i * step == (i - 1) * step + step;
      MultipleStep(ps[i - 1].timestamp, step);
    }
  }

  lemma SeriesIncreasing(ps: seq<RRDData>, step: int)
    requires step > 0 && Series(ps, step)
    ensures forall i, j :: 0 <= i < j < |ps| ==> ps[i].timestamp + step <= ps[j].timestamp
    ensures forall i :: 0 <= i < |ps| ==> Multiple(ps[i].timestamp, step)
    ensures forall i :: 0 <= i < |ps| ==> ValueAt(ps, ps[i].timestamp) == ps[i].value
  {
    forall i, j | 0 <= i < j < |ps| ensures ps[i].timestamp + step <= ps[j].timestamp {
      SeriesAt(ps, step, i);
      SeriesAt(ps, step, j);
      MulMonotone(i + 1, j, step);
      assert (i + 1) * step == i * step + step;
    }
    forall i | 0 <= i < |ps| ensures Multiple(ps[i].timestamp, step) {
      SeriesAt(ps, step, i);
    }
  }

  /** A series has a slot for every multiple between its ends. */
  lemma SeriesHits(ps: seq<RRDData>, step: int, ts: int) returns (k: int)
    requires step > 0 && Series(ps, step) && ps != []
    requires Multiple(ts, step) && ps[0].timestamp <= ts <= ps[|ps| - 1].timestamp
    ensures 0 <= k < |ps| && ps[k].timestamp == ts
  {
    k := 0;
    SeriesIncreasing(ps, step);
    while ps[k].timestamp != ts
      invariant 0 <= k < |ps| && ps[k].timestamp <= ts
      decreases |ps| - k
    {
      MultipleGap(ps[k].timestamp, ts, step);
      assert k < |ps| - 1;
      k := k + 1;
    }
  }

  /** Two series that agree on one slot agree on every later one. */
  lemma SeriesParallel(ps: seq<RRDData>, qs: seq<RRDData>, step: int, base: int, i: int)
    requires step > 0 && Series(ps, step) && Series(qs, step)
    requires 0 <= base <= base + i < |ps| && i < |qs| && ps[base].timestamp == qs[0].timestamp
    ensures ps[base + i].timestamp == qs[i].timestamp
  {
    SeriesAt(ps, step, base);
    SeriesAt(ps, step, base + i);
    SeriesAt(qs, step, i);
    assert (base + i) * step == base * step + i * step;
  }

  // ----- Formatting the cached items -----

  function Max(a: int, b: int): int { if a < b then b else a }
  function Min(a: int, b: int): int { if a < b then a else b }

  /** `ps` has exactly the slots from `lo` through `hi`. */
  ghost predicate Spans(ps: seq<RRDData>, step: int, lo: int, hi: int)
    requires step > 0
  {
    && Series(ps, step)
    && (ps == [] ==> hi < lo)
    && (ps != [] ==> ps[0].timestamp == lo && ps[|ps| - 1].timestamp == hi)
  }

  /** The slots collected so far when the clock stands at `ts`. */
  ghost predicate SpansBefore(ps: seq<RRDData>, step: int, lo: int, hi: int, ts: int)
    requires step > 0
  {
    && Series(ps, step)
    && (ps == [] ==> ts <= lo || hi < lo)
    && (ps != [] ==> lo < ts && ps[0].timestamp == lo && ps[|ps| - 1].timestamp == Min(ts - step, hi))
  }

  /** Every item before `idx` is older than `ts`; the one at `idx` is not. */
  ghost predicate CursorAt(items: seq<GraphItem>, ts: int, idx: int) {
    && 0 <= idx <= |items|
    && (forall k :: 0 <= k < idx ==> items[k].timestamp < ts)
    && (idx < |items| ==> ts <= items[idx].timestamp)
  }

  ghost predicate CacheSlots(cache: seq<RRDData>, dsType: string, step: int, items: seq<GraphItem>)
    requires step > 0
  {
    forall i :: 0 <= i < |cache| ==> cache[i].value == CachedAt(dsType, step, items, cache[i].timestamp)
  }

  ghost predicate Window(items: seq<GraphItem>, step: int, startTs: int, endTs: int) {
    && step > 0 && items != [] && Ascending(items) && Aligned(items, step)
    && Multiple(startTs, step) && Multiple(endTs, step)
  }

  /** The state of either formatting loop at the head of an iteration. */
  ghost predicate Formatting(items: seq<GraphItem>, dsType: string, step: int, startTs: int, endTs: int,
                             ts: int, itemIdx: int, cache: seq<RRDData>)
    requires Window(items, step, startTs, endTs)
  {
    && Multiple(ts, step) && items[0].timestamp <= ts
    && CursorAt(items, ts, itemIdx)
    && SpansBefore(cache, step, Max(items[0].timestamp, startTs), endTs, ts)
    && CacheSlots(cache, dsType, step, items)
  }

  function Collect(cache: seq<RRDData>, startTs: int, endTs: int, d: RRDData): seq<RRDData> {
    if d.timestamp >= startTs && d.timestamp <= endTs then cache + [d] else cache
  }

  lemma CollectSpans(cache: seq<RRDData>, step: int, first: int, startTs: int, endTs: int, d: RRDData)
    requires step > 0 && Multiple(d.timestamp, step) && Multiple(startTs, step) && Multiple(endTs, step)
    requires first <= d.timestamp
    requires SpansBefore(cache, step, Max(first, startTs), endTs, d.timestamp)
    ensures SpansBefore(Collect(cache, startTs, endTs, d), step, Max(first, startTs), endTs, d.timestamp + step)
  {
    if d.timestamp > endTs {
      MultipleGap(endTs, d.timestamp, step);
    } else if d.timestamp < startTs {
      MultipleGap(d.timestamp, startTs, step);
    }
  }

  /** One more tick of the clock keeps the cursor in place or one further. */
  lemma CursorStep(items: seq<GraphItem>, step: int, ts: int, idx: int)
    requires step > 0 && Ascending(items) && Aligned(items, step) && Multiple(ts, step)
    requires CursorAt(items, ts, idx)
    ensures CursorAt(items, ts + step, if idx < |items| && items[idx].timestamp == ts then idx + 1 else idx)
  {
    var next := if idx < |items| && items[idx].timestamp == ts then idx + 1 else idx;
    if next < |items| {
      MultipleGap(ts, items[next].timestamp, step);
    }
  }

  lemma FormatStart(items: seq<GraphItem>, dsType: string, step: int, startTs: int, endTs: int)
    requires Window(items, step, startTs, endTs)
    ensures Formatting(items, dsType, step, startTs, endTs, items[0].timestamp, 0, [])
    ensures Multiple(items[|items| - 1].timestamp, step)
  {
  }

  lemma FormatStep(items: seq<GraphItem>, dsType: string, step: int, startTs: int, endTs: int,
                   ts: int, itemIdx: int, cache: seq<RRDData>, val: Option<real>)
    requires Window(items, step, startTs, endTs)
    requires Formatting(items, dsType, step, startTs, endTs, ts, itemIdx, cache)
    requires val == CachedAt(dsType, step, items, ts)
    ensures Formatting(items, dsType, step, startTs, endTs, ts + step,
                       if itemIdx < |items| && items[itemIdx].timestamp == ts then itemIdx + 1 else itemIdx,
                       Collect(cache, startTs, endTs, RRDData(ts, val)))
    ensures ts < items[|items| - 1].timestamp ==> ts + step <= items[|items| - 1].timestamp
  {
    CollectSpans(cache, step, items[0].timestamp, startTs, endTs, RRDData(ts, val));
    CursorStep(items, step, ts, itemIdx);
    MultipleStep(ts, step);
    if ts < items[|items| - 1].timestamp {
      MultipleGap(ts, items[|items| - 1].timestamp, step);
    }
  }

  lemma GaugeCursor(items: seq<GraphItem>, step: int, ts: int, idx: int)
    requires step > 0 && Ascending(items) && CursorAt(items, ts, idx)
    ensures CachedAt(GAUGE, step, items, ts) ==
            if idx < |items| && items[idx].timestamp == ts then Some(items[idx].value) else None
  {
  }

  lemma RateCursor(items: seq<GraphItem>, dsType: string, step: int, ts: int, idx: int)
    requires dsType == DERIVE || dsType == COUNTER
    requires step > 0 && Ascending(items) && CursorAt(items, ts, idx)
    ensures idx < |items| - 1 && items[idx].timestamp == ts && RateAt(items, step, ts, idx) ==>
              CachedAt(dsType, step, items, ts) == Some((items[idx + 1].value - items[idx].value) / (step as real))
    ensures !RateAt(items, step, ts, idx) ==> CachedAt(dsType, step, items, ts) == None
  {
  }

  method FormatGauge(items: seq<GraphItem>, step: int, startTs: int, endTs: int) returns (cache: seq<RRDData>)
    requires Window(items, step, startTs, endTs)
    ensures Spans(cache, step, Max(items[0].timestamp, startTs), Min(items[|items| - 1].timestamp, endTs))
    ensures CacheSlots(cache, GAUGE, step, items)
  {
    hide CachedAt, Multiple, Aligned, CursorAt, CacheSlots;
    var ts := items[0].timestamp;
    var itemEndTs := items[|items| - 1].timestamp;
    var itemIdx := 0;
    cache := [];
    FormatStart(items, GAUGE, step, startTs, endTs);
    while ts <= itemEndTs
      invariant Formatting(items, GAUGE, step, startTs, endTs, ts, itemIdx, cache)
      invariant ts > itemEndTs ==> ts == itemEndTs + step
      decreases itemEndTs + step - ts
    {
      var val: Option<real>;
      ghost var idx0 := itemIdx;
      GaugeCursor(items, step, ts, itemIdx);
      if itemIdx < |items| && ts == items[itemIdx].timestamp {
        val := Some(items[itemIdx].value);
        itemIdx := itemIdx + 1;
      } else {
        val := None;
      }
      FormatStep(items, GAUGE, step, startTs, endTs, ts, idx0, cache, val);
      ghost var next := Collect(cache, startTs, endTs, RRDData(ts, val));
      if ts >= startTs && ts <= endTs {
        cache := cache + [RRDData(ts, val)];
      }
      assert cache == next;
      ts := ts + step;
    }
  }

  method FormatRate(items: seq<GraphItem>, dsType: string, step: int, startTs: int, endTs: int)
    returns (cache: seq<RRDData>)
    requires dsType == DERIVE || dsType == COUNTER
    requires Window(items, step, startTs, endTs)
    ensures Spans(cache, step, Max(items[0].timestamp, startTs), Min(items[|items| - 1].timestamp - step, endTs))
    ensures CacheSlots(cache, dsType, step, items)
  {
    hide CachedAt, Multiple, Aligned, CursorAt, CacheSlots;
    var ts := items[0].timestamp;
    var itemEndTs := items[|items| - 1].timestamp;
    var itemIdx := 0;
    cache := [];
    FormatStart(items, dsType, step, startTs, endTs);
    while ts < itemEndTs
      invariant Formatting(items, dsType, step, startTs, endTs, ts, itemIdx, cache)
      invariant ts <= itemEndTs
      decreases itemEndTs - ts
    {
      var val: Option<real>;
      ghost var idx0 := itemIdx;
      RateCursor(items, dsType, step, ts, itemIdx);
      if itemIdx < |items| - 1 && ts == items[itemIdx].timestamp {
        if ts == items[itemIdx + 1].timestamp - step && items[itemIdx + 1].value >= items[itemIdx].value {
          val := Some((items[itemIdx + 1].value - items[itemIdx].value) / (step as real));
        } else {
          val := None;
        }
        itemIdx := itemIdx + 1;
      } else {
        val := None;
      }
      FormatStep(items, dsType, step, startTs, endTs, ts, idx0, cache, val);
      ghost var next := Collect(cache, startTs, endTs, RRDData(ts, val));
      if ts >= startTs && ts <= endTs {
        cache := cache + [RRDData(ts, val)];
      }
      assert cache == next;
      ts := ts + step;
    }
  }

  // ----- Merging -----

  lemma FilterStep(datas: seq<RRDData>, step: int, startTs: int, endTs: int, merged: seq<RRDData>, n: int)
    requires step > 0 && Series(datas, step) && Series(merged, step) && 0 <= n < |datas|
    requires Kept(datas, startTs, endTs, merged, n)
    requires startTs <= datas[n].timestamp <= endTs
    ensures Series(merged + [datas[n]], step)
    ensures Kept(datas, startTs, endTs, merged + [datas[n]], n + 1)
  {
    SeriesAt(datas, step, n);
  }

  /** `merged` holds the in-window points among the first `n`, ending at the latest one. */
  ghost predicate Kept(datas: seq<RRDData>, startTs: int, endTs: int, merged: seq<RRDData>, n: int) {
    && 0 <= n <= |datas|
    && (forall i :: 0 <= i < |merged| ==> startTs <= merged[i].timestamp <= endTs && merged[i] in datas)
    && (forall k :: 0 <= k < n && startTs <= datas[k].timestamp <= endTs ==> datas[k] in merged)
    && (merged != [] ==> n > 0 && merged[|merged| - 1].timestamp <= datas[n - 1].timestamp)
    && (merged != [] && n < |datas| && datas[n].timestamp <= endTs ==> merged[|merged| - 1] == datas[n - 1])
  }

  /** The RRD points inside the window. */
  method FilterData(datas: seq<RRDData>, step: int, startTs: int, endTs: int) returns (merged: seq<RRDData>)
    requires step > 0 && Series(datas, step)
    ensures Series(merged, step)
    ensures Kept(datas, startTs, endTs, merged, |datas|)
  {
    merged := [];
    for n := 0 to |datas|
      invariant Series(merged, step)
      invariant Kept(datas, startTs, endTs, merged, n)
    {
      if datas[n].timestamp >= startTs && datas[n].timestamp <= endTs {
        FilterStep(datas, step, startTs, endTs, merged, n);
        merged := merged + [datas[n]];
      }
    }
  }

  lemma KeptMeaning(datas: seq<RRDData>, step: int, startTs: int, endTs: int, merged: seq<RRDData>, ts: int)
    requires step > 0 && Series(datas, step) && Series(merged, step)
    requires Kept(datas, startTs, endTs, merged, |datas|)
    requires startTs <= ts <= endTs
    ensures ValueAt(merged, ts) == ValueAt(datas, ts)
  {
    SeriesIncreasing(datas, step);
    SeriesIncreasing(merged, step);
    if k :| 0 <= k < |datas| && datas[k].timestamp == ts {
      var i :| 0 <= i < |merged| && merged[i] == datas[k];
      assert ValueAt(merged, merged[i].timestamp) == merged[i].value;
    }
  }

  function StoredAt(rrd: seq<RRDData>, i: int): Option<real>
    requires 0 <= i
  {
    if i < |rrd| then rrd[i].value else None
  }

  /** The slots of the merged list, `base` being the place of the first cached one:
      stored points, NaN filling, cached points over stored ones, stored rest. */
  ghost predicate Layout(rrd: seq<RRDData>, cache: seq<RRDData>, merged: seq<RRDData>, base: int, count: int) {
    && 0 <= base && 0 <= count <= |cache|
    && |merged| == Max(|rrd|, base + count)
    && (forall i :: 0 <= i < base ==> merged[i].value == StoredAt(rrd, i))
    && (forall i :: base <= i < base + count ==> merged[i].value == Overlay(cache[i - base].value, StoredAt(rrd, i)))
    && (forall i :: base + count <= i < |rrd| ==> merged[i].value == rrd[i].value)
  }

  /** The merged list starts with the stored points and meets the cache at `base`. */
  ghost predicate Placed(rrd: seq<RRDData>, cache: seq<RRDData>, merged: seq<RRDData>, step: int, base: int)
    requires step > 0 && cache != []
  {
    && Series(rrd, step) && Series(cache, step) && Series(merged, step)
    && 0 <= base <= |merged| && |rrd| <= |merged|
    && (base < |merged| ==> merged[base].timestamp == cache[0].timestamp)
    && (base == |merged| && merged != [] ==> merged[|merged| - 1].timestamp + step == cache[0].timestamp)
    && (rrd != [] ==> merged[0].timestamp == rrd[0].timestamp)
    && (rrd == [] ==> base == 0)
  }

  /** From `base` on the list `merged` has the times of `ps`. */
  ghost predicate SameTimes(ps: seq<RRDData>, merged: seq<RRDData>, base: int) {
    && 0 <= base && base + |ps| <= |merged|
    && (forall c :: 0 <= c < |ps| ==> merged[base + c].timestamp == ps[c].timestamp)
  }

  /** Slot by slot the merged list has the times of the stored points, and of the cache. */
  lemma MergedTimes(rrd: seq<RRDData>, cache: seq<RRDData>, merged: seq<RRDData>, step: int, base: int)
    requires step > 0 && cache != []
    requires Placed(rrd, cache, merged, step, base) && Layout(rrd, cache, merged, base, |cache|)
    ensures Series(rrd, step) && Series(cache, step) && Series(merged, step)
    ensures SameTimes(rrd, merged, 0) && SameTimes(cache, merged, base)
  {
    hide Multiple, Series;
    forall i | 0 <= i < |rrd| ensures merged[i].timestamp == rrd[i].timestamp {
      SeriesParallel(merged, rrd, step, 0, i);
    }
    forall c | 0 <= c < |cache| ensures merged[base + c].timestamp == cache[c].timestamp {
      SeriesParallel(merged, cache, step, base, c);
    }
  }

  /** In lists that rise and agree in their times from `base` on, slot `i` of the one is all that the
      other one says about its time. */
  lemma ValueOfSlot(ps: seq<RRDData>, merged: seq<RRDData>, step: int, base: int, i: int)
    requires step > 0 && Series(ps, step) && Series(merged, step) && SameTimes(ps, merged, base)
    requires 0 <= i < |merged|
    ensures ValueAt(ps, merged[i].timestamp) == if base <= i < base + |ps| then ps[i - base].value else None
  {
    hide Multiple;
    SeriesIncreasing(ps, step);
    SeriesIncreasing(merged, step);
    hide Series;
    if base <= i < base + |ps| {
      assert merged[base + (i - base)].timestamp == ps[i - base].timestamp;
    } else {
      forall c | 0 <= c < |ps| ensures ps[c].timestamp != merged[i].timestamp {
        assert merged[base + c].timestamp == ps[c].timestamp;
      }
    }
  }

  lemma SlotValue(rrd: seq<RRDData>, cache: seq<RRDData>, merged: seq<RRDData>, base: int, i: int)
    requires Layout(rrd, cache, merged, base, |cache|) && 0 <= i < |merged|
    ensures merged[i].value == Overlay(if base <= i < base + |cache| then cache[i - base].value else None,
                                       if i < |rrd| then rrd[i].value else None)
  {
  }

  lemma SlotMeaning(rrd: seq<RRDData>, cache: seq<RRDData>, merged: seq<RRDData>, step: int, base: int, i: int)
    requires step > 0 && cache != [] && 0 <= i < |merged|
    requires Placed(rrd, cache, merged, step, base) && Layout(rrd, cache, merged, base, |cache|)
    ensures var ts := merged[i].timestamp; ValueAt(merged, ts) == Overlay(ValueAt(cache, ts), ValueAt(rrd, ts))
  {
    hide Multiple, Series, ValueAt, Placed, Layout, SameTimes;
    MergedTimes(rrd, cache, merged, step, base);
    SeriesIncreasing(merged, step);
    ValueOfSlot(rrd, merged, step, 0, i);
    ValueOfSlot(cache, merged, step, base, i);
    SlotValue(rrd, cache, merged, base, i);
  }

  lemma NoSlot(ps: seq<RRDData>, ts: int)
    requires forall k :: 0 <= k < |ps| ==> ps[k].timestamp != ts
    ensures ValueAt(ps, ts) == None
  {
  }

  lemma NothingAt(ps: seq<RRDData>, merged: seq<RRDData>, base: int, ts: int)
    requires SameTimes(ps, merged, base)
    requires forall i :: 0 <= i < |merged| ==> merged[i].timestamp != ts
    ensures ValueAt(ps, ts) == None
  {
    forall c | 0 <= c < |ps| ensures ps[c].timestamp != ts {
      assert merged[base + c].timestamp == ps[c].timestamp;
    }
  }

  lemma MergedMeaning(rrd: seq<RRDData>, cache: seq<RRDData>, merged: seq<RRDData>, step: int, base: int, ts: int)
    requires step > 0 && cache != []
    requires Placed(rrd, cache, merged, step, base) && Layout(rrd, cache, merged, base, |cache|)
    ensures ValueAt(merged, ts) == Overlay(ValueAt(cache, ts), ValueAt(rrd, ts))
  {
    hide Multiple, Series, ValueAt, Placed, Layout, SameTimes;
    if i :| 0 <= i < |merged| && merged[i].timestamp == ts {
      SlotMeaning(rrd, cache, merged, step, base, i);
    } else {
      MergedTimes(rrd, cache, merged, step, base);
      NothingAt(rrd, merged, 0, ts);
      NothingAt(cache, merged, base, ts);
      NoSlot(merged, ts);
    }
  }

  /** Where the cache joins the stored points: the last stored slot older than `firstTs`. */
  method FindJunction(rrd: seq<RRDData>, firstTs: int) returns (rrdDataIdx: int, lastTs: int)
    ensures -1 <= rrdDataIdx < |rrd|
    ensures forall i :: rrdDataIdx < i < |rrd| ==> rrd[i].timestamp >= firstTs
    ensures rrdDataIdx >= 0 ==> lastTs == rrd[rrdDataIdx].timestamp < firstTs
    ensures rrdDataIdx < 0 ==> lastTs == firstTs
  {
    lastTs := firstTs;
    rrdDataIdx := |rrd| - 1;
    while rrdDataIdx >= 0
      invariant -1 <= rrdDataIdx < |rrd|
      invariant lastTs == firstTs
      invariant forall i :: rrdDataIdx < i < |rrd| ==> rrd[i].timestamp >= firstTs
    {
      if rrd[rrdDataIdx].timestamp < firstTs {
        lastTs := rrd[rrdDataIdx].timestamp;
        break;
      }
      rrdDataIdx := rrdDataIdx - 1;
    }
  }

  /** A stored list that does not begin after the cache has a slot at the junction,
      or ends before it. */
  lemma JunctionMeets(rrd: seq<RRDData>, step: int, firstTs: int, idx: int)
    requires step > 0 && Series(rrd, step) && Multiple(firstTs, step)
    requires rrd != [] ==> rrd[0].timestamp <= firstTs
    requires -1 <= idx < |rrd|
    requires forall i :: idx < i < |rrd| ==> rrd[i].timestamp >= firstTs
    requires idx >= 0 ==> rrd[idx].timestamp < firstTs
    ensures idx + 1 < |rrd| ==> rrd[idx + 1].timestamp == firstTs
    ensures idx >= 0 ==> rrd[idx].timestamp + step <= firstTs && Multiple(rrd[idx].timestamp, step)
  {
    if idx >= 0 {
      SeriesAt(rrd, step, idx);
      MultipleGap(rrd[idx].timestamp, firstTs, step);
    }
  }

  /** NaN slots from the end of the stored points up to the cache. */
  method FixMissing(rrd: seq<RRDData>, step: int, lastTs: int, firstTs: int) returns (merged: seq<RRDData>)
    requires step > 0 && Series(rrd, step) && Multiple(lastTs, step) && Multiple(firstTs, step)
    requires lastTs + step < firstTs ==> rrd != [] && rrd[|rrd| - 1].timestamp == lastTs
    ensures Series(merged, step) && |rrd| <= |merged|
    ensures forall i :: 0 <= i < |merged| && i < |rrd| ==> merged[i] == rrd[i]
    ensures forall i :: |rrd| <= i < |merged| ==> merged[i].value == None
    ensures lastTs + step >= firstTs ==> merged == rrd
    ensures lastTs + step < firstTs ==> merged[|merged| - 1].timestamp + step == firstTs
  {
    hide Multiple;
    merged := rrd;
    var ts := lastTs + step;
    MultipleStep(lastTs, step);
    while ts < firstTs
      invariant Multiple(ts, step) && Series(merged, step) && |rrd| <= |merged|
      invariant forall i :: 0 <= i < |merged| && i < |rrd| ==> merged[i] == rrd[i]
      invariant forall i :: |rrd| <= i < |merged| ==> merged[i].value == None
      invariant lastTs + step >= firstTs ==> merged == rrd
      invariant lastTs + step < firstTs ==> merged != [] && merged[|merged| - 1].timestamp + step == ts <= firstTs
      decreases firstTs - ts
    {
      MultipleStep(ts, step);
      MultipleGap(ts, firstTs, step);
      merged := merged + [RRDData(ts, None)];
      ts := ts + step;
    }
  }

  lemma PlacedStep(rrd: seq<RRDData>, cache: seq<RRDData>, merged: seq<RRDData>, step: int, base: int, c: int)
    requires step > 0 && cache != [] && 0 <= c < |cache|
    requires Placed(rrd, cache, merged, step, base) && Layout(rrd, cache, merged, base, c)
    ensures base + c < |merged| ==>
              && Placed(rrd, cache, merged[base + c := cache[c]], step, base)
              && merged[base + c].timestamp == cache[c].timestamp
    ensures base + c == |merged| ==> Placed(rrd, cache, merged + [cache[c]], step, base)
  {
    if base + c < |merged| {
      SeriesParallel(merged, cache, step, base, c);
    } else if c > 0 {
      SeriesParallel(merged, cache, step, base, c - 1);
    }
  }

  /** Cached points overwrite stored ones unless they are NaN, then extend them. */
  method OverlayCache(rrd: seq<RRDData>, cache: seq<RRDData>, filled: seq<RRDData>, step: int, rrdDataIdx0: int,
                      ghost base: int)
    returns (merged: seq<RRDData>)
    requires step > 0 && cache != []
    requires Placed(rrd, cache, filled, step, base) && Layout(rrd, cache, filled, base, 0)
    requires rrdDataIdx0 < |rrd| ==> base == rrdDataIdx0
    requires rrdDataIdx0 >= |rrd| ==> base == |filled|
    ensures Placed(rrd, cache, merged, step, base) && Layout(rrd, cache, merged, base, |cache|)
  {
    hide Multiple, Series, Placed;
    var rrdDataIdx := rrdDataIdx0;
    var rrdDataSize := |rrd|;
    merged := filled;
    for cacheIdx := 0 to |cache|
      invariant rrdDataIdx == rrdDataIdx0 + cacheIdx
      invariant Placed(rrd, cache, merged, step, base) && Layout(rrd, cache, merged, base, cacheIdx)
    {
      PlacedStep(rrd, cache, merged, step, base, cacheIdx);
      if rrdDataIdx < rrdDataSize {
        if cache[cacheIdx].value.Some? {
          merged := merged[rrdDataIdx := cache[cacheIdx]];
        }
      } else {
        merged := merged + [cache[cacheIdx]];
      }
      rrdDataIdx := rrdDataIdx + 1;
    }
  }

  /** The merge of lines 257-287. */
  method MergeCache(rrd: seq<RRDData>, cache: seq<RRDData>, step: int) returns (merged: seq<RRDData>)
    requires step > 0 && Series(rrd, step) && Series(cache, step)
    requires cache != [] && rrd != [] ==> rrd[0].timestamp <= cache[0].timestamp
    ensures Series(merged, step)
    ensures forall ts :: ValueAt(merged, ts) == Overlay(ValueAt(cache, ts), ValueAt(rrd, ts))
    ensures cache == [] ==> merged == rrd
    ensures cache != [] ==>
              && merged != []
              && merged[0].timestamp == if rrd != [] then rrd[0].timestamp else cache[0].timestamp
  {
    hide Multiple;
    merged := rrd;
    if |cache| > 0 {
      var rrdDataIdx, lastTs := FindJunction(rrd, cache[0].timestamp);
      JunctionMeets(rrd, step, cache[0].timestamp, rrdDataIdx);
      merged := FixMissing(rrd, step, lastTs, cache[0].timestamp);
      rrdDataIdx := rrdDataIdx + 1;
      ghost var base := if rrdDataIdx < |rrd| then rrdDataIdx else |merged|;
      merged := OverlayCache(rrd, cache, merged, step, rrdDataIdx, base);
      forall ts ensures ValueAt(merged, ts) == Overlay(ValueAt(cache, ts), ValueAt(rrd, ts)) {
        MergedMeaning(rrd, cache, merged, step, base, ts);
      }
    }
  }

  // ----- The result -----

  function Slot(startTs: int, step: int, i: int): int { startTs + i * step }

  /** Every merged slot before `idx` is older than `ts`; the one at `idx` is not. */
  ghost predicate SlotCursor(merged: seq<RRDData>, ts: int, idx: int) {
    && 0 <= idx <= |merged|
    && (forall k :: 0 <= k < idx ==> merged[k].timestamp < ts)
    && (forall k :: idx <= k < |merged| ==> ts <= merged[k].timestamp)
  }

  lemma SlotStep(merged: seq<RRDData>, step: int, ts: int, idx: int)
    requires step > 0 && Series(merged, step) && Multiple(ts, step)
    requires SlotCursor(merged, ts, idx)
    ensures ValueAt(merged, ts) ==
            if idx < |merged| && merged[idx].timestamp == ts then merged[idx].value else None
    ensures SlotCursor(merged, ts + step, if idx < |merged| && merged[idx].timestamp == ts then idx + 1 else idx)
    ensures Multiple(ts + step, step)
  {
    hide Multiple;
    SeriesIncreasing(merged, step);
    MultipleStep(ts, step);
    if idx < |merged| && ts < merged[idx].timestamp {
      MultipleGap(ts, merged[idx].timestamp, step);
    }
  }

  /** Slot `k` has its own time and what the merged list holds for it. */
  ghost predicate Filled(ret: seq<RRDData>, merged: seq<RRDData>, startTs: int, step: int) {
    forall k :: 0 <= k < |ret| ==> ret[k] == RRDData(Slot(startTs, step, k), ValueAt(merged, Slot(startTs, step, k)))
  }

  lemma FilledSnoc(ret: seq<RRDData>, merged: seq<RRDData>, startTs: int, step: int, d: RRDData)
    requires Filled(ret, merged, startTs, step)
    requires d == RRDData(Slot(startTs, step, |ret|), ValueAt(merged, Slot(startTs, step, |ret|)))
    ensures Filled(ret + [d], merged, startTs, step)
    ensures Slot(startTs, step, |ret| + 1) == d.timestamp + step
  {
    hide ValueAt;
  }

  /** One result slot for every step from `startTs` (lines 291-306). */
  method FormatResult(merged: seq<RRDData>, step: int, startTs: int, retSize: nat) returns (ret: seq<RRDData>)
    requires step > 0 && Series(merged, step) && Multiple(startTs, step)
    requires merged != [] ==> startTs <= merged[0].timestamp
    ensures |ret| == retSize && Filled(ret, merged, startTs, step)
  {
    ret := [];
    var mergedIdx := 0;
    var ts := startTs;
    SeriesIncreasing(merged, step);
    assert SlotCursor(merged, ts, 0) && ts == Slot(startTs, step, 0);
    hide Multiple, Series, ValueAt, Filled, SlotCursor, Slot;
    for i := 0 to retSize
      invariant 0 <= mergedIdx && |ret| == i && ts == Slot(startTs, step, i) && Multiple(ts, step)
      invariant SlotCursor(merged, ts, mergedIdx)
      invariant Filled(ret, merged, startTs, step)
    {
      SlotStep(merged, step, ts, mergedIdx);
      FilledSnoc(ret, merged, startTs, step, RRDData(ts, ValueAt(merged, ts)));
      if mergedIdx < |merged| && ts == merged[mergedIdx].timestamp {
        assert merged[mergedIdx] == RRDData(ts, ValueAt(merged, ts));
        ret := ret + [merged[mergedIdx]];
        mergedIdx := mergedIdx + 1;
      } else {
        ret := ret + [RRDData(ts, None)];
      }
      ts := ts + step;
    }
  }

  // ----- The whole query -----

  function StartTs(start: int, step: int): int
    requires step > 0
  {
    start - GoMod(start, step)
  }

  function EndTs(end: int, step: int): int
    requires step > 0
  {
    end - GoMod(end, step) + step
  }

  function RetSize(dsType: string, startTs: int, endTs: int, step: int): int
    requires step > 0
  {
    (endTs - startTs) / step + if dsType == GAUGE then 1 else 0
  }

  /** What rrdtool and a remote node promise about the points they return:
      no jumps, and the first one is the first slot of the window or earlier. */
  ghost predicate RrdContract(datas: seq<RRDData>, step: int, startTs: int)
    requires step > 0
  {
    && Series(datas, step)
    && (datas != [] ==> datas[0].timestamp <= startTs)
  }

  /** The answer, slot by slot, as an overlay of memory over storage. */
  ghost predicate IsMergedAnswer(values: seq<RRDData>, dsType: string, step: int, startTs: int, endTs: int,
                                 items: seq<GraphItem>, datas: seq<RRDData>)
    requires step > 0
  {
    && |values| == RetSize(dsType, startTs, endTs, step)
    && forall i :: 0 <= i < |values| ==>
      values[i] == RRDData(Slot(startTs, step, i),
                           Overlay(CachedAt(dsType, step, items, Slot(startTs, step, i)),
                                   ValueAt(datas, Slot(startTs, step, i))))
  }

  lemma SlotInWindow(dsType: string, step: int, startTs: int, endTs: int, i: int)
    requires step > 0 && Multiple(startTs, step) && startTs <= endTs
    requires 0 <= i < RetSize(dsType, startTs, endTs, step)
    ensures startTs <= Slot(startTs, step, i) <= endTs && Multiple(Slot(startTs, step, i), step)
  {
    hide Multiple;
    DivModIdentity(endTs - startTs, step);
    MulMonotone(0, i, step);
    MulMonotone(i, (endTs - startTs) / step, step);
    FactorMultiple(i, step);
    MultipleSum(startTs, i * step, step);
  }

  /** Last time that memory can say something about. */
  function CacheEnd(dsType: string, step: int, items: seq<GraphItem>): int
    requires items != []
  {
    if dsType == GAUGE then items[|items| - 1].timestamp else items[|items| - 1].timestamp - step
  }

  lemma CacheMeaning(items: seq<GraphItem>, dsType: string, step: int, startTs: int, endTs: int, cache: seq<RRDData>,
                     ts: int)
    requires Window(items, step, startTs, endTs)
    requires dsType == GAUGE || dsType == DERIVE || dsType == COUNTER
    requires Spans(cache, step, Max(items[0].timestamp, startTs), Min(CacheEnd(dsType, step, items), endTs))
    requires CacheSlots(cache, dsType, step, items)
    requires startTs <= ts <= endTs && Multiple(ts, step)
    ensures ValueAt(cache, ts) == CachedAt(dsType, step, items, ts)
  {
    hide Multiple;
    if cache != [] && cache[0].timestamp <= ts <= cache[|cache| - 1].timestamp {
      var k := SeriesHits(cache, step, ts);
      SeriesIncreasing(cache, step);
      assert ValueAt(cache, cache[k].timestamp) == cache[k].value;
    } else {
      SeriesIncreasing(cache, step);
      assert ValueAt(cache, ts) == None;
    }
  }

  lemma FilteredStart(datas: seq<RRDData>, step: int, startTs: int, endTs: int, rrd: seq<RRDData>)
    requires step > 0 && Multiple(startTs, step) && startTs <= endTs
    requires RrdContract(datas, step, startTs)
    requires Series(rrd, step) && Kept(datas, startTs, endTs, rrd, |datas|)
    ensures rrd != [] ==> rrd[0].timestamp == startTs
  {
    hide Multiple;
    if rrd != [] {
      SeriesIncreasing(datas, step);
      SeriesIncreasing(rrd, step);
      var k := SeriesHits(datas, step, startTs);
      assert datas[k] in rrd;
    }
  }

  method FormatCache(items: seq<GraphItem>, dsType: string, step: int, startTs: int, endTs: int)
    returns (cache: seq<RRDData>)
    requires Window(items, step, startTs, endTs)
    ensures Series(cache, step)
    ensures forall i :: 0 <= i < |cache| ==> startTs <= cache[i].timestamp
    ensures forall ts :: startTs <= ts <= endTs && Multiple(ts, step) ==>
              ValueAt(cache, ts) == CachedAt(dsType, step, items, ts)
  {
    hide Multiple, CacheSlots;
    cache := [];
    if dsType == DERIVE || dsType == COUNTER {
      cache := FormatRate(items, dsType, step, startTs, endTs);
    } else if dsType == GAUGE {
      cache := FormatGauge(items, step, startTs, endTs);
    }
    SeriesIncreasing(cache, step);
    if dsType == GAUGE || dsType == DERIVE || dsType == COUNTER {
      forall ts | startTs <= ts <= endTs && Multiple(ts, step)
        ensures ValueAt(cache, ts) == CachedAt(dsType, step, items, ts)
      {
        CacheMeaning(items, dsType, step, startTs, endTs, cache, ts);
      }
    }
  }

  lemma MergedIsAnswer(items: seq<GraphItem>, datas: seq<RRDData>, dsType: string, step: int, startTs: int, endTs: int,
                       cache: seq<RRDData>, rrd: seq<RRDData>, merged: seq<RRDData>, i: int)
    requires step > 0 && Multiple(startTs, step) && startTs <= endTs && Series(datas, step)
    requires Series(rrd, step) && Kept(datas, startTs, endTs, rrd, |datas|)
    requires forall ts :: startTs <= ts <= endTs && Multiple(ts, step) ==>
              ValueAt(cache, ts) == CachedAt(dsType, step, items, ts)
    requires forall ts :: ValueAt(merged, ts) == Overlay(ValueAt(cache, ts), ValueAt(rrd, ts))
    requires 0 <= i < RetSize(dsType, startTs, endTs, step)
    ensures ValueAt(merged, Slot(startTs, step, i)) ==
            Overlay(CachedAt(dsType, step, items, Slot(startTs, step, i)), ValueAt(datas, Slot(startTs, step, i)))
  {
    hide Multiple, CachedAt, ValueAt;
    SlotInWindow(dsType, step, startTs, endTs, i);
    KeptMeaning(datas, step, startTs, endTs, rrd, Slot(startTs, step, i));
  }

  /** Lines 201-308. */
  method MergeQuery(items: seq<GraphItem>, datas: seq<RRDData>, dsType: string, step: int, startTs: int, endTs: int)
    returns (values: seq<RRDData>)
    requires Window(items, step, startTs, endTs) && startTs <= endTs
    requires RrdContract(datas, step, startTs)
    ensures IsMergedAnswer(values, dsType, step, startTs, endTs, items, datas)
  {
    hide Multiple, Series, ValueAt, CachedAt;
    var cache := FormatCache(items, dsType, step, startTs, endTs);
    var rrd := FilterData(datas, step, startTs, endTs);
    FilteredStart(datas, step, startTs, endTs, rrd);
    var merged := MergeCache(rrd, cache, step);
    DivModIdentity(endTs - startTs, step);
    values := FormatResult(merged, step, startTs, RetSize(dsType, startTs, endTs, step));
    forall i | 0 <= i < |values|
      ensures ValueAt(merged, Slot(startTs, step, i)) ==
              Overlay(CachedAt(dsType, step, items, Slot(startTs, step, i)), ValueAt(datas, Slot(startTs, step, i)))
    {
      MergedIsAnswer(items, datas, dsType, step, startTs, endTs, cache, rrd, merged, i);
    }
  }

  /** The query merges: the window is not empty, not consolidated, and memory is not empty. */
  predicate Merges(start: int, end: int, step: int, items: seq<GraphItem>, nowTs: int)
    requires step > 0
  {
    && EndTs(end, step) - StartTs(start, step) - step >= 1
    && StartTs(start, step) >= nowTs - GoMod(nowTs, step) - RRA1_POINT_CNT * step
    && |items| > 0
  }

  // ----- The window in the caller's terms -----

  /** One slot a step, from the last multiple of the step that is not after `start` to the last one
      that is not after `end`, and for a gauge one more. */
  ghost predicate CoversWindow(values: seq<RRDData>, dsType: string, step: int, start: int, end: int)
    requires step > 0
  {
    && values != [] && values[0].timestamp <= start < values[0].timestamp + step
    && (forall i :: 0 <= i < |values| ==> Multiple(values[i].timestamp, step))
    && (forall i, j :: 0 <= i < |values| && 0 <= j < |values| && j == i + 1 ==>
          values[j].timestamp == values[i].timestamp + step)
    && (forall ts :: start <= ts <= end && Multiple(ts, step) ==>
          exists i :: 0 <= i < |values| && values[i].timestamp == ts)
    && var last := values[|values| - 1].timestamp;
       if dsType == GAUGE then end < last <= end + step else end - step < last <= end
  }

  lemma QuotientTimes(start: int, end: int, nowTs: int, step: int)
    requires step > 0 && 0 <= start && 0 <= end && 0 <= nowTs
    ensures StartTs(start, step) == start / step * step <= start < start / step * step + step
    ensures EndTs(end, step) == end / step * step + step && end / step * step <= end < end / step * step + step
    ensures EndTs(end, step) - StartTs(start, step) - step < 1 <==> start / step >= end / step
    ensures StartTs(start, step) < nowTs - GoMod(nowTs, step) - RRA1_POINT_CNT * step <==>
            start / step < nowTs / step - RRA1_POINT_CNT
  {
    DivModIdentity(start, step);
    DivModIdentity(end, step);
    DivModIdentity(nowTs, step);
    QuotientsCompare(end / step, start / step, step);
    var oldest := nowTs / step - RRA1_POINT_CNT;
    assert oldest * step == nowTs / step * step - RRA1_POINT_CNT * step;
    QuotientsCompare(oldest, start / step, step);
  }

  lemma QuotientsCompare(p: int, q: int, step: int)
    requires step > 0
    ensures p * step - q * step < 1 <==> q >= p
    ensures q * step < p * step <==> q < p
  {
    if q < p {
      MulMonotone(q + 1, p, step);
      assert (q + 1) * step == q * step + step;
    } else {
      MulMonotone(p, q, step);
    }
  }

  lemma SlotOfQuotient(a: int, step: int, i: int)
    ensures Slot(a * step, step, i) == (a + i) * step
  {
  }

  lemma AnswerSize(dsType: string, a: int, b: int, step: int)
    requires step > 0
    ensures RetSize(dsType, a * step, b * step + step, step) == b - a + 1 + if dsType == GAUGE then 1 else 0
  {
    assert b * step + step - a * step == (b - a + 1) * step;
    DivModUnique(b * step + step - a * step, b - a + 1, 0, step);
  }

  /** A multiple of the step between two times lies between their quotients. */
  lemma QuotientBetween(ts: int, start: int, end: int, step: int) returns (q: int)
    requires step > 0 && 0 <= start <= ts <= end && Multiple(ts, step)
    ensures ts == q * step && start / step <= q <= end / step
  {
    q := MultipleFactor(ts, step);
    DivModIdentity(start, step);
    DivModIdentity(end, step);
    QuotientsCompare(start / step, q, step);
    assert (end / step + 1) * step == end / step * step + step;
    QuotientsCompare(end / step + 1, q, step);
  }

  /** The slots have the times of consecutive quotients from `a` on. */
  ghost predicate TimesFrom(values: seq<RRDData>, step: int, a: int) {
    forall i :: 0 <= i < |values| ==> values[i].timestamp == (a + i) * step
  }

  lemma SlotTimes(values: seq<RRDData>, dsType: string, step: int, start: int, end: int, items: seq<GraphItem>,
                  datas: seq<RRDData>)
    requires step > 0 && 0 <= start && 0 <= end && start / step < end / step
    requires IsMergedAnswer(values, dsType, step, StartTs(start, step), EndTs(end, step), items, datas)
    ensures |values| == end / step - start / step + 1 + if dsType == GAUGE then 1 else 0
    ensures TimesFrom(values, step, start / step)
    ensures forall i :: 0 <= i < |values| ==>
              values[i].value == Overlay(CachedAt(dsType, step, items, values[i].timestamp),
                                         ValueAt(datas, values[i].timestamp))
  {
    hide CachedAt, ValueAt, Slot, StartTs, EndTs, RetSize;
    QuotientTimes(start, end, 0, step);
    AnswerSize(dsType, start / step, end / step, step);
    forall i | 0 <= i < |values| ensures Slot(StartTs(start, step), step, i) == (start / step + i) * step {
      SlotOfQuotient(start / step, step, i);
    }
  }

  lemma TimesStep(values: seq<RRDData>, step: int, a: int)
    requires step > 0 && TimesFrom(values, step, a)
    ensures forall i :: 0 <= i < |values| ==> Multiple(values[i].timestamp, step)
    ensures forall i, j :: 0 <= i < |values| && 0 <= j < |values| && j == i + 1 ==>
              values[j].timestamp == values[i].timestamp + step
  {
    hide Multiple;
    forall i | 0 <= i < |values| ensures Multiple(values[i].timestamp, step) {
      FactorMultiple(a + i, step);
    }
    forall i, j | 0 <= i < |values| && 0 <= j < |values| && j == i + 1
      ensures values[j].timestamp == values[i].timestamp + step
    {
      assert (a + j) * step == (a + i) * step + step;
    }
  }

  lemma TimeHit(values: seq<RRDData>, step: int, start: int, end: int, ts: int)
    requires step > 0 && 0 <= start <= ts <= end && Multiple(ts, step)
    requires TimesFrom(values, step, start / step) && |values| > end / step - start / step
    ensures exists i :: 0 <= i < |values| && values[i].timestamp == ts
  {
    hide Multiple;
    var q := QuotientBetween(ts, start, end, step);
    var i := q - start / step;
    assert values[i].timestamp == (start / step + i) * step;
  }

  lemma TimesCover(values: seq<RRDData>, dsType: string, step: int, start: int, end: int)
    requires step > 0 && 0 <= start && 0 <= end && start / step < end / step
    requires |values| == end / step - start / step + 1 + if dsType == GAUGE then 1 else 0
    requires TimesFrom(values, step, start / step)
    ensures CoversWindow(values, dsType, step, start, end)
  {
    hide Multiple, StartTs, EndTs;
    QuotientTimes(start, end, 0, step);
    assert values[0].timestamp == (start / step + 0) * step;
    assert values[|values| - 1].timestamp == (start / step + (|values| - 1)) * step;
    assert (end / step + 1) * step == end / step * step + step;
    TimesStep(values, step, start / step);
    forall ts | start <= ts <= end && Multiple(ts, step)
      ensures exists i :: 0 <= i < |values| && values[i].timestamp == ts
    {
      TimeHit(values, step, start, end, ts);
    }
    hide TimesFrom;
  }

  method Query(typeAndStep: Option<(string, int)>, start: int, end: int, items: seq<GraphItem>,
               migrateEnabled: bool, miss: bool, remote: seq<RRDData>, local: seq<RRDData>, nowTs: int)
    returns (values: seq<RRDData>)
    requires typeAndStep.Some? ==>
               var step := typeAndStep.value.1;
               && step > 0 && Ascending(items) && Aligned(items, step)
               && (Merges(start, end, step, items, nowTs) ==>
                     RrdContract(if migrateEnabled && miss then remote else local, step, StartTs(start, step)))
    ensures typeAndStep.None? ==> values == []
    ensures typeAndStep.Some? ==>
              var (dsType, step) := typeAndStep.value;
              var datas := if migrateEnabled && miss then remote else local;
              if EndTs(end, step) - StartTs(start, step) - step < 1 then values == []
              else if !Merges(start, end, step, items, nowTs) then values == datas
              else IsMergedAnswer(values, dsType, step, StartTs(start, step), EndTs(end, step), items, datas)
    ensures typeAndStep.Some? && 0 <= start && 0 <= end && 0 <= nowTs ==>
              var (dsType, step) := typeAndStep.value;
              var datas := if migrateEnabled && miss then remote else local;
              if start / step >= end / step then values == []
              else if items == [] || start / step < nowTs / step - RRA1_POINT_CNT then values == datas
              else
                && CoversWindow(values, dsType, step, start, end)
                && forall i :: 0 <= i < |values| ==>
                     values[i].value == Overlay(CachedAt(dsType, step, items, values[i].timestamp),
                                                ValueAt(datas, values[i].timestamp))
  {
    hide Multiple, IsMergedAnswer, Series, CoversWindow, CachedAt, ValueAt;
    if typeAndStep.None? {
      return [];
    }
    var (dsType, step) := typeAndStep.value;
    if 0 <= start && 0 <= end && 0 <= nowTs {
      QuotientTimes(start, end, nowTs, step);
    }
    var startTs := start - GoMod(start, step);
    var endTs := end - GoMod(end, step) + step;
    if endTs - startTs - step < 1 {
      return [];
    }
    var datas: seq<RRDData>;
    if migrateEnabled && miss {
      datas := remote;
    } else {
      datas := local;
    }
    var lastUpTs := nowTs - GoMod(nowTs, step);
    var rra1StartTs := lastUpTs - RRA1_POINT_CNT * step;
    if startTs < rra1StartTs {
      return datas;
    }
    if |items| < 1 {
      return datas;
    }
    AlignDown(start, step);
    AlignDown(end, step);
    MultipleStep(end - GoMod(end, step), step);
    values := MergeQuery(items, datas, dsType, step, startTs, endTs);
    if 0 <= start && 0 <= end && 0 <= nowTs {
      SlotTimes(values, dsType, step, start, end, items, datas);
      TimesCover(values, dsType, step, start, end);
    }
  }

  // ----- Answers of answers -----

  /** A merged answer keeps the promise that a query expects of its source, so a node
      that still misses a key may answer from another node's answer. */
  lemma AnswerMeetsContract(values: seq<RRDData>, dsType: string, step: int, startTs: int, endTs: int,
                            items: seq<GraphItem>, datas: seq<RRDData>, i: int)
    requires step > 0 && Multiple(startTs, step)
    requires IsMergedAnswer(values, dsType, step, startTs, endTs, items, datas)
    ensures RrdContract(values, step, startTs)
    ensures 0 <= i < |values| ==> ValueAt(values, Slot(startTs, step, i)) == values[i].value
  {
    hide Multiple, CachedAt;
    forall j, k | 0 <= j < |values| && 0 <= k < |values| && k == j + 1
      ensures values[k].timestamp == values[j].timestamp + step
    {
      assert (j + 1) * step == j * step + step;
    }
    assert values != [] ==> Slot(startTs, step, 0) == startTs;
    SeriesIncreasing(values, step);
    if 0 <= i < |values| {
      assert values[i].timestamp == Slot(startTs, step, i);
    }
  }

  /** Asking another node first stacks its memory and storage under this node's memory. */
  lemma RemoteComposition(values: seq<RRDData>, remote: seq<RRDData>, dsType: string, step: int,
                          startTs: int, endTs: int,
                          here: seq<GraphItem>, there: seq<GraphItem>, stored: seq<RRDData>, i: int)
    requires step > 0 && Multiple(startTs, step)
    requires IsMergedAnswer(remote, dsType, step, startTs, endTs, there, stored)
    requires IsMergedAnswer(values, dsType, step, startTs, endTs, here, remote)
    requires 0 <= i < |values|
    ensures var ts := Slot(startTs, step, i);
            values[i] == RRDData(ts, Overlay(CachedAt(dsType, step, here, ts),
                                             Overlay(CachedAt(dsType, step, there, ts), ValueAt(stored, ts))))
  {
    hide Multiple, CachedAt, ValueAt, RrdContract;
    AnswerMeetsContract(remote, dsType, step, startTs, endTs, there, stored, i);
  }

  // ----- Splitting the items -----

  /** What memory knows from older items `xs` and newer ones `ys`; for a gauge nothing is lost. */
  lemma GaugeSplit(xs: seq<GraphItem>, ys: seq<GraphItem>, step: int, ts: int)
    requires step > 0 && Ascending(xs + ys)
    ensures CachedAt(GAUGE, step, xs + ys, ts) == Overlay(CachedAt(GAUGE, step, ys, ts), CachedAt(GAUGE, step, xs, ts))
    ensures CachedAt(GAUGE, step, ys, ts).None? || CachedAt(GAUGE, step, xs, ts).None?
  {
    var all := xs + ys;
    assert forall k :: 0 <= k < |xs| ==> all[k] == xs[k];
    assert forall k :: 0 <= k < |ys| ==> all[|xs| + k] == ys[k];
    if k :| 0 <= k < |all| && all[k].timestamp == ts {
      if k < |xs| {
        assert xs[k].timestamp == ts;
      } else {
        assert ys[k - |xs|].timestamp == ts;
      }
    }
  }

  /** The pair of the last old and the first new item forms a rate at `ts`. */
  ghost predicate JunctionAt(xs: seq<GraphItem>, ys: seq<GraphItem>, step: int, ts: int) {
    xs != [] && ys != [] && RateAt(xs + ys, step, ts, |xs| - 1)
  }

  lemma RateIndices(xs: seq<GraphItem>, ys: seq<GraphItem>, step: int, ts: int)
    requires step > 0 && Ascending(xs + ys)
    ensures forall k :: RateAt(xs, step, ts, k) ==> RateAt(xs + ys, step, ts, k)
    ensures forall k :: RateAt(ys, step, ts, k) ==> RateAt(xs + ys, step, ts, |xs| + k)
    ensures forall k :: RateAt(xs + ys, step, ts, k) && k != |xs| - 1 ==>
                          RateAt(xs, step, ts, k) || RateAt(ys, step, ts, k - |xs|)
    ensures forall j, k :: RateAt(xs + ys, step, ts, j) && RateAt(xs + ys, step, ts, k) ==> j == k
  {
  }

  /** A pair one step apart that does not fall is the rate of its time. */
  lemma RateIs(dsType: string, step: int, items: seq<GraphItem>, ts: int, k: int)
    requires step > 0 && (dsType == DERIVE || dsType == COUNTER) && Ascending(items) && RateAt(items, step, ts, k)
    ensures CachedAt(dsType, step, items, ts) == Some((items[k + 1].value - items[k].value) / (step as real))
  {
    assert forall j :: RateAt(items, step, ts, j) ==> j == k;
  }

  lemma NoRate(dsType: string, step: int, items: seq<GraphItem>, ts: int)
    requires step > 0 && (dsType == DERIVE || dsType == COUNTER)
    requires forall k :: !RateAt(items, step, ts, k)
    ensures CachedAt(dsType, step, items, ts) == None
  {
  }

  /** The rate across the split is known to neither part. */
  lemma RateAcross(xs: seq<GraphItem>, ys: seq<GraphItem>, dsType: string, step: int, ts: int)
    requires step > 0 && Ascending(xs + ys) && JunctionAt(xs, ys, step, ts)
    requires dsType == DERIVE || dsType == COUNTER
    ensures CachedAt(dsType, step, xs, ts).None? && CachedAt(dsType, step, ys, ts).None?
    ensures CachedAt(dsType, step, xs + ys, ts) == Some((ys[0].value - xs[|xs| - 1].value) / (step as real))
  {
    hide CachedAt;
    RateIndices(xs, ys, step, ts);
    RateIs(dsType, step, xs + ys, ts, |xs| - 1);
    forall k ensures !RateAt(xs, step, ts, k) && !RateAt(ys, step, ts, k) {
    }
    NoRate(dsType, step, xs, ts);
    NoRate(dsType, step, ys, ts);
  }

  /** Every other rate of the whole is a rate of one part. */
  lemma RateWithin(xs: seq<GraphItem>, ys: seq<GraphItem>, dsType: string, step: int, ts: int, k: int)
    requires step > 0 && Ascending(xs + ys) && RateAt(xs + ys, step, ts, k) && k != |xs| - 1
    requires dsType == DERIVE || dsType == COUNTER
    ensures CachedAt(dsType, step, xs + ys, ts) ==
            Overlay(CachedAt(dsType, step, ys, ts), CachedAt(dsType, step, xs, ts))
  {
    hide CachedAt;
    RateIndices(xs, ys, step, ts);
    PartsAscending(xs, ys);
    RateIs(dsType, step, xs + ys, ts, k);
    if k < |xs| {
      RateIs(dsType, step, xs, ts, k);
      NoRate(dsType, step, ys, ts);
    } else {
      RateIs(dsType, step, ys, ts, k - |xs|);
    }
  }

  lemma PartsAscending(xs: seq<GraphItem>, ys: seq<GraphItem>)
    requires Ascending(xs + ys)
    ensures Ascending(xs) && Ascending(ys)
  {
    assert forall k :: 0 <= k < |xs| ==> (xs + ys)[k] == xs[k];
    assert forall k :: 0 <= k < |ys| ==> (xs + ys)[|xs| + k] == ys[k];
  }

  /** For rates only the one across the split is lost. */
  lemma RateSplit(xs: seq<GraphItem>, ys: seq<GraphItem>, dsType: string, step: int, ts: int)
    requires step > 0 && Ascending(xs + ys)
    requires dsType == DERIVE || dsType == COUNTER
    ensures JunctionAt(xs, ys, step, ts) ==>
              && CachedAt(dsType, step, xs, ts).None? && CachedAt(dsType, step, ys, ts).None?
              && CachedAt(dsType, step, xs + ys, ts) == Some((ys[0].value - xs[|xs| - 1].value) / (step as real))
    ensures !JunctionAt(xs, ys, step, ts) ==>
              CachedAt(dsType, step, xs + ys, ts) ==
                Overlay(CachedAt(dsType, step, ys, ts), CachedAt(dsType, step, xs, ts))
  {
    hide CachedAt;
    RateIndices(xs, ys, step, ts);
    if JunctionAt(xs, ys, step, ts) {
      RateAcross(xs, ys, dsType, step, ts);
    } else if k :| RateAt(xs + ys, step, ts, k) && k != |xs| - 1 {
      RateWithin(xs, ys, dsType, step, ts, k);
    } else {
      NoRate(dsType, step, xs + ys, ts);
      NoRate(dsType, step, xs, ts);
      NoRate(dsType, step, ys, ts);
    }
  }
}
