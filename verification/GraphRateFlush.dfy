/** What a flush of a counter does to the answers of queries (graph/rrdtool/rrdtool.go,
    graph/api/graph.go). Memory names a rate by the earlier of its two items, the rows that fetch
    reads by the end of their interval. */
module GraphRateFlush {
  import opened Wrappers
  import opened GoInts
  import opened GraphModel
  import opened GraphQuery
  import opened GraphUpdate

  // ----- What storage makes of neighbours -----

  /** Items `k` and `k + 1` are one step apart. */
  ghost predicate PairAt(items: seq<GraphItem>, step: int, ts: int, k: int) {
    0 <= k < |items| - 1 && items[k].timestamp == ts && items[k + 1].timestamp == ts + step
  }

  /** The rate between two counter values; None for a counter that fell. */
  function RateBetween(a: real, b: real, step: int): Option<real>
    requires step > 0
  {
    if b >= a then Some((b - a) / (step as real)) else None
  }

  /** What storage makes of two items: nothing if one of them is left out, else the rate of the
      truncated values. */
  function StoredRate(p: GraphItem, q: GraphItem, step: int): Option<real>
    requires step > 0
  {
    if Extreme(p.value) || Extreme(q.value) then None else RateBetween(Truncated(p.value), Truncated(q.value), step)
  }

  lemma PairRate(dsType: string, step: int, items: seq<GraphItem>, ts: int, k: int)
    requires step > 0 && IsRate(dsType) && Ascending(items) && PairAt(items, step, ts, k)
    ensures CachedAt(dsType, step, items, ts) == RateBetween(items[k].value, items[k + 1].value, step)
  {
    hide CachedAt;
    if RateAt(items, step, ts, k) {
      RateIs(dsType, step, items, ts, k);
    } else {
      forall j ensures !RateAt(items, step, ts, j) {
        assert RateAt(items, step, ts, j) ==> j == k;
      }
      NoRate(dsType, step, items, ts);
    }
  }

  /** The points for the first `n` items come first. */
  lemma {:induction false} HandedPrefix(items: seq<GraphItem>, n: nat)
    requires n <= |items|
    ensures Handed(items[..n]) <= Handed(items)
  {
    hide Extreme, Recorded;
    if n < |items| {
      var front := items[..|items| - 1];
      HandedPrefix(front, n);
      assert front[..n] == items[..n];
    } else {
      assert items[..n] == items;
    }
  }

  lemma HandedTwo(items: seq<GraphItem>, k: int) returns (at: nat)
    requires 0 <= k < |items| - 1 && !Extreme(items[k].value) && !Extreme(items[k + 1].value)
    ensures at + 1 < |Handed(items)|
    ensures Handed(items)[at] == Recorded(items[k]) && Handed(items)[at + 1] == Recorded(items[k + 1])
  {
    hide Extreme, Recorded;
    at := |Handed(items[..k])|;
    assert items[..k + 1][..k] == items[..k] && items[..k + 2][..k + 1] == items[..k + 1];
    assert Handed(items[..k + 2]) == Handed(items[..k]) + [Recorded(items[k])] + [Recorded(items[k + 1])];
    HandedPrefix(items, k + 2);
  }

  /** The items that two points one step apart come from. */
  lemma RateOrigins(xs: seq<GraphItem>, step: int, ts: int, j: int) returns (a: int, b: int)
    requires RateAt(Handed(xs), step, ts, j)
    ensures 0 <= a < |xs| && xs[a].timestamp == ts && !Extreme(xs[a].value)
    ensures 0 <= b < |xs| && xs[b].timestamp == ts + step && !Extreme(xs[b].value)
  {
    hide Extreme, Handed;
    a := HandedAt(xs, Handed(xs)[j]);
    b := HandedAt(xs, Handed(xs)[j + 1]);
  }

  lemma OriginsArePair(xs: seq<GraphItem>, step: int, ts: int, j: int) returns (a: int)
    requires step > 0 && Ascending(xs) && Aligned(xs, step) && RateAt(Handed(xs), step, ts, j)
    ensures PairAt(xs, step, ts, a)
  {
    hide Extreme, Handed, Multiple;
    var b: int;
    a, b := RateOrigins(xs, step, ts, j);
    assert a < b;
    MultipleGap(xs[a].timestamp, xs[a + 1].timestamp, step);
  }

  /** Two neighbours reach storage as the rate of their truncated values. */
  lemma PairHanded(xs: seq<GraphItem>, dsType: string, step: int, ts: int, k: int)
    requires step > 0 && IsRate(dsType) && Ascending(xs) && PairAt(xs, step, ts, k)
    requires Typed(xs, dsType)
    ensures CachedAt(dsType, step, Handed(xs), ts) == StoredRate(xs[k], xs[k + 1], step)
  {
    hide CachedAt, Extreme, Handed, Truncated;
    HandedAscending(xs);
    if Extreme(xs[k].value) || Extreme(xs[k + 1].value) {
      forall j ensures !RateAt(Handed(xs), step, ts, j) {
        if RateAt(Handed(xs), step, ts, j) {
          var a, b := RateOrigins(xs, step, ts, j);
        }
      }
      NoRate(dsType, step, Handed(xs), ts);
    } else {
      var at := HandedTwo(xs, k);
      PairRate(dsType, step, Handed(xs), ts, at);
    }
  }

  /** Nothing else makes a rate in storage: points one step apart were neighbours in memory. */
  lemma NoPairHanded(xs: seq<GraphItem>, dsType: string, step: int, ts: int)
    requires step > 0 && IsRate(dsType) && Ascending(xs) && Aligned(xs, step)
    requires forall k :: !PairAt(xs, step, ts, k)
    ensures CachedAt(dsType, step, Handed(xs), ts) == None && CachedAt(dsType, step, xs, ts) == None
  {
    hide CachedAt, Extreme, Handed, Recorded, Multiple;
    forall j ensures !RateAt(Handed(xs), step, ts, j) {
      if RateAt(Handed(xs), step, ts, j) {
        var a := OriginsArePair(xs, step, ts, j);
      }
    }
    NoRate(dsType, step, Handed(xs), ts);
    forall j ensures !RateAt(xs, step, ts, j) {
      assert RateAt(xs, step, ts, j) ==> PairAt(xs, step, ts, j);
    }
    NoRate(dsType, step, xs, ts);
  }

  // ----- Rates by time -----

  /** The rate that a list of items knows at a time. */
  ghost function MemoryRate(items: seq<GraphItem>, step: int, ts: int): Option<real>
    requires step > 0
  {
    if k :| PairAt(items, step, ts, k) then RateBetween(items[k].value, items[k + 1].value, step) else None
  }

  /** The rate that storage makes of them at a time. */
  ghost function FileRate(items: seq<GraphItem>, step: int, ts: int): Option<real>
    requires step > 0
  {
    if k :| PairAt(items, step, ts, k) then StoredRate(items[k], items[k + 1], step) else None
  }

  lemma MemoryRateIs(items: seq<GraphItem>, dsType: string, step: int, ts: int)
    requires step > 0 && IsRate(dsType) && Ascending(items)
    ensures CachedAt(dsType, step, items, ts) == MemoryRate(items, step, ts)
  {
    hide CachedAt, RateBetween;
    if k :| PairAt(items, step, ts, k) {
      OnePair(items, step, ts, k);
      PairRate(dsType, step, items, ts, k);
    } else {
      forall j ensures !RateAt(items, step, ts, j) {
        assert RateAt(items, step, ts, j) ==> PairAt(items, step, ts, j);
      }
      NoRate(dsType, step, items, ts);
    }
  }

  lemma FileRateIs(items: seq<GraphItem>, dsType: string, step: int, ts: int)
    requires step > 0 && IsRate(dsType) && Ascending(items) && Aligned(items, step)
    requires Typed(items, dsType)
    ensures CachedAt(dsType, step, Handed(items), ts) == FileRate(items, step, ts)
  {
    hide CachedAt, Handed, Ascending, Aligned, Typed, Extreme, Truncated;
    if k :| PairAt(items, step, ts, k) {
      OnePair(items, step, ts, k);
      PairHanded(items, dsType, step, ts, k);
    } else {
      NoPairHanded(items, dsType, step, ts);
    }
  }

  lemma OnePair(items: seq<GraphItem>, step: int, ts: int, k: int)
    requires Ascending(items) && PairAt(items, step, ts, k)
    ensures forall j :: PairAt(items, step, ts, j) ==> j == k
  {
  }

  /** The last recorded point counts as one more flushed item. */
  lemma {:induction false} HandedAfter(last: seq<GraphItem>, xs: seq<GraphItem>, dsType: string)
    requires LastPoint(last, dsType)
    ensures Handed(last + xs) == last + Handed(xs)
  {
    hide Extreme, Recorded, Plain;
    if xs == [] {
      forall k | 0 <= k < |last| ensures Plain(last[k]) {
        assert last[k] in last;
      }
      HandedUnchanged(last);
      assert last + xs == last;
    } else {
      var n := |xs| - 1;
      HandedAfter(last, xs[..n], dsType);
      assert (last + xs)[..|last + xs| - 1] == last + xs[..n];
    }
  }

  lemma PartsOfThree(last: seq<GraphItem>, xs: seq<GraphItem>, ys: seq<GraphItem>)
    requires Ascending(last + (xs + ys))
    ensures Ascending(last + xs) && Ascending(xs + ys) && Ascending(ys)
  {
    assert last + (xs + ys) == (last + xs) + ys;
    PartsAscending(last + xs, ys);
    PartsAscending(last, xs + ys);
    PartsAscending(xs, ys);
  }

  lemma TypedParts(last: seq<GraphItem>, xs: seq<GraphItem>, dsType: string)
    requires LastPoint(last, dsType) && Typed(xs, dsType)
    ensures Typed(last + xs, dsType)
  {
    hide Plain;
    forall k | 0 <= k < |last + xs| ensures (last + xs)[k].dsType == dsType {
      if k < |last| {
        assert (last + xs)[k] == last[k] && last[k] in last;
      }
    }
  }

  /** For counters of any values and either naming of the rows, what a flush does to a slot: memory
      no longer knows the rates from flushed items on, and storage knows those that it makes of the
      flushed items and of the point before them. */
  lemma RateFlushIff(v0: seq<RRDData>, v1: seq<RRDData>, dsType: string, step: int, startTs: int, endTs: int,
                     last: seq<GraphItem>, xs: seq<GraphItem>, ys: seq<GraphItem>, datas: seq<RRDData>,
                     rows: seq<RRDData>, lag: int, i: int)
    requires step > 0 && IsRate(dsType)
    requires FlushedBetween(v0, v1, dsType, step, startTs, endTs, last, xs, ys, datas, rows, lag)
    requires Aligned(last + xs, step) && 0 <= i < |v0|
    ensures |v1| == |v0|
    ensures var ts := Slot(startTs, step, i);
            var stored := ValueAt(datas, ts);
            v0[i] != v1[i] <==>
            Overlay(MemoryRate(xs + ys, step, ts), stored) !=
            Overlay(MemoryRate(ys, step, ts), Overlay(FileRate(last + xs, step, ts - lag), stored))
  {
    hide CachedAt, ValueAt, Handed, Slot, Multiple, LastPoint, MemoryRate, FileRate, Ascending, IsMergedAnswer, Typed;
    hide StoredAfter, Aligned;
    SlotsOfBoth(v0, v1, dsType, step, startTs, endTs, last, xs, ys, datas, rows, lag, i);
    var ts := Slot(startTs, step, i);
    PartsOfThree(last, xs, ys);
    MemoryRateIs(xs + ys, dsType, step, ts);
    MemoryRateIs(ys, dsType, step, ts);
    HandedAfter(last, xs, dsType);
    TypedParts(last, xs, dsType);
    FileRateIs(last + xs, dsType, step, ts - lag);
  }

  // ----- Rows named by the end of their interval -----

  /** The rate from item `k` to the next one. */
  function Leaving(items: seq<GraphItem>, step: int, k: int): Option<real>
    requires step > 0 && 0 <= k < |items|
  {
    if k + 1 < |items| && items[k + 1].timestamp == items[k].timestamp + step
    then RateBetween(items[k].value, items[k + 1].value, step)
    else None
  }

  /** What storage makes of item `k` and the one before it. */
  function Arriving(items: seq<GraphItem>, step: int, k: int): Option<real>
    requires step > 0 && 0 <= k < |items|
  {
    if k > 0 && items[k - 1].timestamp == items[k].timestamp - step then StoredRate(items[k - 1], items[k], step)
    else None
  }

  /** Memory showed `m` over the stored value, storage now shows `f` over it. */
  predicate Differ(m: Option<real>, f: Option<real>, stored: Option<real>) {
    || (m.Some? && f.Some? && m != f)
    || (m.Some? && f.None? && m != stored)
    || (m.None? && f.Some? && f != stored)
  }

  lemma LeavingIs(items: seq<GraphItem>, step: int, k: int)
    requires step > 0 && Ascending(items) && 0 <= k < |items|
    ensures MemoryRate(items, step, items[k].timestamp) == Leaving(items, step, k)
  {
    hide RateBetween;
    var ts := items[k].timestamp;
    if PairAt(items, step, ts, k) {
      OnePair(items, step, ts, k);
    } else {
      forall j ensures !PairAt(items, step, ts, j) {
        assert PairAt(items, step, ts, j) ==> j == k;
      }
    }
  }

  lemma ArrivingIs(items: seq<GraphItem>, step: int, k: int)
    requires step > 0 && Ascending(items) && 0 <= k < |items|
    ensures FileRate(items, step, items[k].timestamp - step) == Arriving(items, step, k)
  {
    hide StoredRate;
    var ts := items[k].timestamp - step;
    if PairAt(items, step, ts, k - 1) {
      OnePair(items, step, ts, k - 1);
    } else {
      forall j ensures !PairAt(items, step, ts, j) {
        assert PairAt(items, step, ts, j) ==> j + 1 == k;
      }
    }
  }

  /** At the time of a flushed item. */
  lemma AtFlushed(last: seq<GraphItem>, xs: seq<GraphItem>, ys: seq<GraphItem>, step: int, k: int)
    requires step > 0 && Ascending(last + (xs + ys)) && 0 <= k < |xs|
    ensures var ts := xs[k].timestamp;
            && MemoryRate(xs + ys, step, ts) == Leaving(xs + ys, step, k)
            && MemoryRate(ys, step, ts) == None
            && FileRate(last + xs, step, ts - step) == Arriving(last + xs, step, |last| + k)
  {
    hide MemoryRate, FileRate, Leaving, Arriving, Ascending;
    PartsOfThree(last, xs, ys);
    assert (xs + ys)[k] == xs[k] && (last + xs)[|last| + k] == xs[k];
    LeavingIs(xs + ys, step, k);
    ArrivingIs(last + xs, step, |last| + k);
    KeptAreNewer(xs, ys, step, k);
  }

  lemma KeptAreNewer(xs: seq<GraphItem>, ys: seq<GraphItem>, step: int, k: int)
    requires step > 0 && Ascending(xs + ys) && 0 <= k < |xs|
    ensures MemoryRate(ys, step, xs[k].timestamp) == None
  {
    var all := xs + ys;
    forall j ensures !PairAt(ys, step, xs[k].timestamp, j) {
      assert 0 <= j < |ys| ==> all[|xs| + j] == ys[j] && all[k] == xs[k];
    }
  }

  /** At any other time a flush changes nothing. */
  lemma AtOther(last: seq<GraphItem>, xs: seq<GraphItem>, ys: seq<GraphItem>, step: int, ts: int)
    requires step > 0 && |last| <= 1 && Ascending(xs + ys) && forall k :: 0 <= k < |xs| ==> xs[k].timestamp != ts
    ensures MemoryRate(xs + ys, step, ts) == MemoryRate(ys, step, ts)
    ensures FileRate(last + xs, step, ts - step) == None
  {
    hide RateBetween, StoredRate;
    var all, past := xs + ys, last + xs;
    var from := ts - step;
    forall j ensures !PairAt(past, step, from, j) {
      assert 0 <= j < |past| - 1 ==> past[j + 1] == xs[j + 1 - |last|];
    }
    PartsAscending(xs, ys);
    assert forall m :: 0 <= m < |ys| ==> all[|xs| + m] == ys[m];
    assert forall m :: 0 <= m < |xs| ==> all[m] == xs[m];
    if j :| PairAt(all, step, ts, j) {
      OnePair(all, step, ts, j);
      assert PairAt(ys, step, ts, j - |xs|);
      OnePair(ys, step, ts, j - |xs|);
    } else {
      forall j ensures !PairAt(ys, step, ts, j) {
        assert PairAt(ys, step, ts, j) ==> PairAt(all, step, ts, |xs| + j);
      }
    }
  }

  /** As the code names its rows, exactly which slots of a counter a flush changes: those at the time
      of a flushed item for which the rate to its successor, as memory knew it, and the rate from its
      predecessor, as storage makes it, differ, or just one of them is known and storage held
      something else. */
  lemma EndLabelsIff(v0: seq<RRDData>, v1: seq<RRDData>, dsType: string, step: int, startTs: int, endTs: int,
                     last: seq<GraphItem>, xs: seq<GraphItem>, ys: seq<GraphItem>, datas: seq<RRDData>,
                     rows: seq<RRDData>, i: int)
    requires step > 0 && IsRate(dsType)
    requires FlushedBetween(v0, v1, dsType, step, startTs, endTs, last, xs, ys, datas, rows, step)
    requires Aligned(last + xs, step) && 0 <= i < |v0|
    ensures |v1| == |v0|
    ensures v0[i] != v1[i] <==>
            exists k :: 0 <= k < |xs| && xs[k].timestamp == Slot(startTs, step, i) &&
              Differ(Leaving(xs + ys, step, k), Arriving(last + xs, step, |last| + k),
                     ValueAt(datas, Slot(startTs, step, i)))
  {
    hide ValueAt, Handed, Slot, MemoryRate, FileRate, Leaving, Arriving, IsMergedAnswer, StoredAfter, Plain, Typed;
    hide Ascending, Aligned;
    RateFlushIff(v0, v1, dsType, step, startTs, endTs, last, xs, ys, datas, rows, step, i);
    var ts := Slot(startTs, step, i);
    PartsOfThree(last, xs, ys);
    if k :| 0 <= k < |xs| && xs[k].timestamp == ts {
      AtFlushed(last, xs, ys, step, k);
      OneAt(xs, ys, k);
    } else {
      AtOther(last, xs, ys, step, ts);
    }
  }

  lemma OneAt(xs: seq<GraphItem>, ys: seq<GraphItem>, k: int)
    requires Ascending(xs + ys) && 0 <= k < |xs|
    ensures forall j :: 0 <= j < |xs| && xs[j].timestamp == xs[k].timestamp ==> j == k
  {
    PartsAscending(xs, ys);
  }

  /** In particular, between three neighbours one rate takes the place of the next: with whole
      numbers of ordinary size the slot stays the same if and only if the two rates are equal. */
  lemma EndLabelsShift(v0: seq<RRDData>, v1: seq<RRDData>, dsType: string, step: int, startTs: int, endTs: int,
                       last: seq<GraphItem>, xs: seq<GraphItem>, ys: seq<GraphItem>, datas: seq<RRDData>,
                       rows: seq<RRDData>, i: int, k: int)
    requires step > 0 && IsRate(dsType) && 0 <= i < |v0| && 0 < k < |xs| - 1
    requires FlushedBetween(v0, v1, dsType, step, startTs, endTs, last, xs, ys, datas, rows, step)
    requires Aligned(last + xs, step) && Plain(xs[k - 1]) && Plain(xs[k])
    requires xs[k].timestamp == Slot(startTs, step, i)
    requires RateAt(xs, step, xs[k].timestamp, k) && RateAt(xs, step, xs[k - 1].timestamp, k - 1)
    ensures |v1| == |v0|
    ensures v0[i] == v1[i] <==> xs[k + 1].value - xs[k].value == xs[k].value - xs[k - 1].value
  {
    hide ValueAt, Handed, Slot, IsMergedAnswer, StoredAfter, Plain, LastPoint, Typed, Ascending, Aligned, RateAt;
    hide Leaving, Arriving;
    EndLabelsIff(v0, v1, dsType, step, startTs, endTs, last, xs, ys, datas, rows, i);
    PartsOfThree(last, xs, ys);
    OneAt(xs, ys, k);
    TypedAt(xs, dsType, k - 1);
    TypedAt(xs, dsType, k);
    PlainNeighbours(last, xs, ys, step, k);
    SameQuotient(xs[k + 1].value - xs[k].value, xs[k].value - xs[k - 1].value, step as real);
  }

  lemma PlainNeighbours(last: seq<GraphItem>, xs: seq<GraphItem>, ys: seq<GraphItem>, step: int, k: int)
    requires step > 0 && 0 < k < |xs| - 1 && Plain(xs[k - 1]) && Plain(xs[k])
    requires IsRate(xs[k - 1].dsType) && IsRate(xs[k].dsType)
    requires RateAt(xs, step, xs[k].timestamp, k) && RateAt(xs, step, xs[k - 1].timestamp, k - 1)
    ensures Leaving(xs + ys, step, k) == Some((xs[k + 1].value - xs[k].value) / (step as real))
    ensures Arriving(last + xs, step, |last| + k) == Some((xs[k].value - xs[k - 1].value) / (step as real))
  {
    hide Extreme, Truncated;
    assert (last + xs)[|last| + k] == xs[k] && (last + xs)[|last| + k - 1] == xs[k - 1];
  }

  lemma TypedAt(items: seq<GraphItem>, dsType: string, k: int)
    requires Typed(items, dsType) && 0 <= k < |items|
    ensures items[k].dsType == dsType
  {
  }

  lemma SameQuotient(a: real, b: real, c: real)
    requires c > 0.0
    ensures a / c == b / c <==> a == b
  {
    assert a == (a / c) * c && b == (b / c) * c;
  }

  // ----- Rows named by the start of their interval -----

  /** If rows were named like memory names them, a flush of whole numbers of ordinary size would
      change just the rate across its end, unless storage held it, and add the one across its
      start. */
  lemma WholeRateFlushIff(v0: seq<RRDData>, v1: seq<RRDData>, dsType: string, step: int, startTs: int, endTs: int,
                          last: seq<GraphItem>, xs: seq<GraphItem>, ys: seq<GraphItem>, datas: seq<RRDData>,
                          rows: seq<RRDData>, i: int)
    requires step > 0 && IsRate(dsType)
    requires FlushedBetween(v0, v1, dsType, step, startTs, endTs, last, xs, ys, datas, rows, 0)
    requires forall k :: 0 <= k < |xs| ==> Plain(xs[k])
    requires 0 <= i < |v0|
    ensures |v1| == |v0|
    ensures var ts := Slot(startTs, step, i);
            var stored := ValueAt(datas, ts);
            v0[i] != v1[i] <==>
            || (JunctionAt(xs, ys, step, ts) && stored != RateBetween(xs[|xs| - 1].value, ys[0].value, step))
            || (JunctionAt(last, xs, step, ts) && stored != RateBetween(last[|last| - 1].value, xs[0].value, step))
  {
    hide CachedAt, ValueAt, Handed, Slot, JunctionAt, Plain, Ascending, IsMergedAnswer, Multiple, StoredAfter, Typed;
    HandedUnchanged(xs);
    SlotsOfBoth(v0, v1, dsType, step, startTs, endTs, last, xs, ys, datas, rows, 0, i);
    var ts := Slot(startTs, step, i);
    PartsOfThree(last, xs, ys);
    RateSplit(xs, ys, dsType, step, ts);
    RateSplit(last, xs, dsType, step, ts);
    JunctionRate(xs, ys, step, ts);
    JunctionRate(last, xs, step, ts);
    BeforeFlushed(last, xs, ys, dsType, step, ts);
  }

  lemma JunctionRate(xs: seq<GraphItem>, ys: seq<GraphItem>, step: int, ts: int)
    requires step > 0
    ensures JunctionAt(xs, ys, step, ts) ==>
              RateBetween(xs[|xs| - 1].value, ys[0].value, step) ==
              Some((ys[0].value - xs[|xs| - 1].value) / (step as real))
  {
  }

  /** The last recorded point has no rate of its own, and at its time memory knows none. */
  lemma BeforeFlushed(last: seq<GraphItem>, xs: seq<GraphItem>, ys: seq<GraphItem>, dsType: string, step: int, ts: int)
    requires step > 0 && IsRate(dsType) && |last| <= 1 && Ascending(last + (xs + ys))
    ensures CachedAt(dsType, step, last, ts) == None
    ensures JunctionAt(last, xs, step, ts) ==>
              CachedAt(dsType, step, xs + ys, ts) == None && CachedAt(dsType, step, ys, ts) == None &&
              !JunctionAt(xs, ys, step, ts)
  {
    hide CachedAt;
    NoRate(dsType, step, last, ts);
    if JunctionAt(last, xs, step, ts) {
      var all := last + (xs + ys);
      assert last + xs + ys == all;
      assert forall m :: 0 <= m < |xs + ys| ==> all[|last| + m] == (xs + ys)[m];
      assert forall m :: 0 <= m < |ys| ==> (xs + ys)[|xs| + m] == ys[m];
      assert (last + xs)[|last| - 1] == all[|last| - 1];
      forall j ensures !RateAt(xs + ys, step, ts, j) && !RateAt(ys, step, ts, j) {
      }
      NoRate(dsType, step, xs + ys, ts);
      NoRate(dsType, step, ys, ts);
    }
  }

  // ----- Two flushes that show -----

  function Sample(ts: int, value: real): GraphItem { GraphItem("", "", "", DERIVE, 60, ts, value) }

  lemma SampleHanded(front: seq<GraphItem>, ts: int, value: real)
    requires 0.0 == value || 1.0 <= value <= 10.0
    ensures Handed(front + [Sample(ts, value)]) == Handed(front) + [Sample(ts, Truncated(value))]
  {
    hide Truncated, Power10;
    var items := front + [Sample(ts, value)];
    assert items[..|items| - 1] == front;
    SmallPower();
  }

  lemma SmallPower()
    ensures Power10(300) >= 10.0 && 0.0 < 1.0 / Power10(300) <= 0.1
  {
    var p := Power10(300);
    assert 1.0 / p * p == 1.0;
  }

  lemma RateOf(items: seq<GraphItem>, ts: int, k: int)
    requires Ascending(items) && RateAt(items, 60, ts, k)
    ensures CachedAt(DERIVE, 60, items, ts) == Some((items[k + 1].value - items[k].value) / 60.0)
  {
    RateIs(DERIVE, 60, items, ts, k);
  }

  lemma OneSlot(v: seq<RRDData>, startTs: int, items: seq<GraphItem>, datas: seq<RRDData>)
    requires v == [RRDData(startTs, Overlay(CachedAt(DERIVE, 60, items, startTs), ValueAt(datas, startTs)))]
    ensures IsMergedAnswer(v, DERIVE, 60, startTs, startTs + 60, items, datas)
  {
    hide CachedAt, ValueAt;
    assert Slot(startTs, 60, 0) == startTs;
  }

  /** Truncation shows: of 1.5, 2.9 and 4.3, a minute apart, memory makes 1.4 a minute twice, so that
      naming the rows differently would not matter; storage, which is handed 1, 2 and 4, makes 1 of
      the first two. */
  lemma TruncationShows() returns (v0: seq<RRDData>, v1: seq<RRDData>, rows: seq<RRDData>)
    ensures var xs := [Sample(0, 1.5), Sample(60, 2.9), Sample(120, 4.3)];
            var ys := [Sample(180, 5.7)];
            && FlushedBetween(v0, v1, DERIVE, 60, 60, 120, [], xs, ys, [], rows, 60)
            && v0 == [RRDData(60, Some(1.4 / 60.0))] && v1 == [RRDData(60, Some(1.0 / 60.0))]
  {
    hide CachedAt, ValueAt, Handed, IsMergedAnswer, FlushedBetween, StoredAfter;
    var xs, ys := [Sample(0, 1.5), Sample(60, 2.9), Sample(120, 4.3)], [Sample(180, 5.7)];
    FractionsHanded();
    rows := [RRDData(60, Some(1.0 / 60.0)), RRDData(120, Some(2.0 / 60.0))];
    v0, v1 := [RRDData(60, Some(1.4 / 60.0))], [RRDData(60, Some(1.0 / 60.0))];
    assert xs + ys == [Sample(0, 1.5), Sample(60, 2.9), Sample(120, 4.3), Sample(180, 5.7)];
    RateOf(xs + ys, 60, 1);
    RowsOfThree(rows, [Sample(0, 1.0), Sample(60, 2.0), Sample(120, 4.0)]);
    FlushOfThree(v0, v1, xs, ys, rows);
  }

  /** A flush of three items, seen in a window of one slot. */
  lemma FlushOfThree(v0: seq<RRDData>, v1: seq<RRDData>, xs: seq<GraphItem>, ys: seq<GraphItem>, rows: seq<RRDData>)
    requires Ascending(xs + ys) && Typed(xs, DERIVE) && |ys| == 1 && |rows| == 2
    requires StoredAfter(rows, [], DERIVE, 60, Handed(xs), 60, 60, 120)
    requires rows[0].timestamp == 60 && rows[1].timestamp == 120
    requires v0 == [RRDData(60, CachedAt(DERIVE, 60, xs + ys, 60))] && v1 == [rows[0]]
    ensures FlushedBetween(v0, v1, DERIVE, 60, 60, 120, [], xs, ys, [], rows, 60)
  {
    hide CachedAt, ValueAt, Handed, Multiple, IsMergedAnswer, StoredAfter, Ascending, Typed;
    assert [] + (xs + ys) == xs + ys && [] + Handed(xs) == Handed(xs);
    ZeroIsMultiple();
    RowsOf([], 60);
    TwoRows(rows, 60);
    NoRate(DERIVE, 60, ys, 60);
    OneSlot(v0, 60, xs + ys, []);
    OneSlot(v1, 60, ys, rows);
  }

  /** Three items a minute apart, and the two rows that they become. */
  lemma RowsOfThree(rows: seq<RRDData>, items: seq<GraphItem>)
    requires Ascending(items) && |items| == 3
    requires RateAt(items, 60, 0, 0) && RateAt(items, 60, 60, 1)
    requires rows == [RRDData(60, Some((items[1].value - items[0].value) / 60.0)),
                      RRDData(120, Some((items[2].value - items[1].value) / 60.0))]
    ensures StoredAfter(rows, [], DERIVE, 60, items, 60, 60, 120)
  {
    hide CachedAt, ValueAt;
    forall ts | 60 <= ts <= 120
      ensures ValueAt(rows, ts) == Overlay(CachedAt(DERIVE, 60, items, ts - 60), ValueAt([], ts))
    {
      RowOfThree(rows, items, ts);
    }
  }

  lemma RowOfThree(rows: seq<RRDData>, items: seq<GraphItem>, ts: int)
    requires Ascending(items) && |items| == 3 && 60 <= ts <= 120
    requires RateAt(items, 60, 0, 0) && RateAt(items, 60, 60, 1)
    requires rows == [RRDData(60, Some((items[1].value - items[0].value) / 60.0)),
                      RRDData(120, Some((items[2].value - items[1].value) / 60.0))]
    ensures ValueAt(rows, ts) == Overlay(CachedAt(DERIVE, 60, items, ts - 60), ValueAt([], ts))
  {
    hide CachedAt, ValueAt;
    TwoRows(rows, ts);
    RowsOf([], ts);
    if ts == 60 {
      RateOf(items, 0, 0);
    } else if ts == 120 {
      RateOf(items, 60, 1);
    } else {
      NoRate(DERIVE, 60, items, ts - 60);
    }
  }

  lemma FractionsHanded()
    ensures Handed([Sample(0, 1.5), Sample(60, 2.9), Sample(120, 4.3)]) ==
            [Sample(0, 1.0), Sample(60, 2.0), Sample(120, 4.0)]
  {
    hide Truncated, Handed;
    SampleHanded([], 0, 1.5);
    SampleHanded([Sample(0, 1.5)], 60, 2.9);
    SampleHanded([Sample(0, 1.5), Sample(60, 2.9)], 120, 4.3);
    NothingHanded();
    Fractions();
    assert [] + [Sample(0, 1.5)] == [Sample(0, 1.5)];
    assert [Sample(0, 1.5)] + [Sample(60, 2.9)] == [Sample(0, 1.5), Sample(60, 2.9)];
    assert [Sample(0, 1.5), Sample(60, 2.9)] + [Sample(120, 4.3)] ==
           [Sample(0, 1.5), Sample(60, 2.9), Sample(120, 4.3)];
  }

  lemma NothingHanded()
    ensures Handed([]) == []
  {
  }

  lemma Fractions()
    ensures Truncated(1.5) == 1.0 && Truncated(2.9) == 2.0 && Truncated(4.3) == 4.0
  {
  }

  lemma ZeroIsMultiple()
    ensures Multiple(0, 60) && Multiple(60, 60)
  {
  }

  /** What a list with at most one row for a time says. */
  lemma RowsOf(rows: seq<RRDData>, ts: int)
    requires |rows| <= 1
    ensures ValueAt(rows, ts) == if |rows| == 1 && rows[0].timestamp == ts then rows[0].value else None
  {
  }

  /** The naming of rows shows: with rows named by the interval's end, the rate of the minute before
      takes the place of the one that memory knew. */
  lemma LabelsShow() returns (v0: seq<RRDData>, v1: seq<RRDData>, rows: seq<RRDData>)
    ensures var xs := [Sample(0, 0.0), Sample(60, 1.0), Sample(120, 3.0)];
            var ys := [Sample(180, 5.0)];
            && FlushedBetween(v0, v1, DERIVE, 60, 60, 120, [], xs, ys, [], rows, 60)
            && v0 == [RRDData(60, Some(2.0 / 60.0))] && v1 == [RRDData(60, Some(1.0 / 60.0))]
  {
    hide CachedAt, ValueAt, Handed, IsMergedAnswer, FlushedBetween, StoredAfter;
    var xs, ys := [Sample(0, 0.0), Sample(60, 1.0), Sample(120, 3.0)], [Sample(180, 5.0)];
    ThreeHanded();
    rows := [RRDData(60, Some(1.0 / 60.0)), RRDData(120, Some(2.0 / 60.0))];
    v0, v1 := [RRDData(60, Some(2.0 / 60.0))], [RRDData(60, Some(1.0 / 60.0))];
    assert xs + ys == [Sample(0, 0.0), Sample(60, 1.0), Sample(120, 3.0), Sample(180, 5.0)];
    RateOf(xs + ys, 60, 1);
    RowsOfThree(rows, xs);
    FlushOfThree(v0, v1, xs, ys, rows);
  }

  lemma ThreeHanded()
    ensures var xs := [Sample(0, 0.0), Sample(60, 1.0), Sample(120, 3.0)]; Handed(xs) == xs
  {
    hide Plain;
    SampleUnchanged(0, 0.0);
    SampleUnchanged(60, 1.0);
    SampleUnchanged(120, 3.0);
    HandedUnchanged([Sample(0, 0.0), Sample(60, 1.0), Sample(120, 3.0)]);
  }

  lemma SampleUnchanged(ts: int, value: real)
    requires (0.0 == value || 1.0 <= value <= 10.0) && value == value.Floor as real
    ensures Plain(Sample(ts, value))
  {
    hide Power10;
    SmallPower();
  }

  lemma TwoRows(rows: seq<RRDData>, ts: int)
    requires |rows| == 2 && rows[0].timestamp < rows[1].timestamp
    ensures ValueAt(rows, ts) ==
            if rows[0].timestamp == ts then rows[0].value else if rows[1].timestamp == ts then rows[1].value else None
  {
  }
}
