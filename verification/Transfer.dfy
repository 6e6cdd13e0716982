/** Turning reports into graph items (transfer/sender/sender.go): where the alignment comes from
    that the graph component relies on. */
module Transfer {
  import opened Wrappers
  import opened GoInts
  import opened CacheKey
  import opened GraphModel
  import opened GraphFlush

  /** A report. The canonical counter and the checksum stand for the metric, the tags and what
      the graph component derives from them. */
  datatype MetaData = MetaData(
    endpoint: string,
    counter: string,
    checksum: string,
    counterType: string,
    step: int,
    timestamp: int,
    value: real)

  /** The configured smallest step, or 30 seconds. */
  function MinStep(configured: int): int {
    if configured < 1 then 30 else configured
  }

  function AlignTs(ts: int, period: int): int
    requires period > 0
  {
    ts - GoMod(ts, period)
  }

  function Convert2GraphItem(d: MetaData, minStep: int): Option<GraphItem>
    requires minStep >= 1
  {
    var step := if d.step < minStep then minStep else d.step;
    if d.counterType == GAUGE then
      Some(GraphItem(d.endpoint, d.counter, d.checksum, GAUGE, step, AlignTs(d.timestamp, step), d.value))
    else if d.counterType == COUNTER || d.counterType == DERIVE then
      Some(GraphItem(d.endpoint, d.counter, d.checksum, DERIVE, step, AlignTs(d.timestamp, step), d.value))
    else None
  }

  /** Every converted report meets what the graph component relies on, exactly when its step
      fits 32 bits; its timestamp moves by less than a step and toward zero. */
  lemma ConvertedIsWellSent(d: MetaData, configured: int)
    requires |d.checksum| >= 2 && '_' !in d.checksum
    ensures var item := Convert2GraphItem(d, MinStep(configured));
            && (item.Some? <==> d.counterType in {GAUGE, COUNTER, DERIVE})
            && (item.Some? ==>
                  && item.value.endpoint == d.endpoint && item.value.counter == d.counter
                  && item.value.checksum == d.checksum && item.value.value == d.value
                  && item.value.dsType == (if d.counterType == GAUGE then GAUGE else DERIVE)
                  && item.value.step == (if d.step >= MinStep(configured) then d.step else MinStep(configured))
                  && (WellSent(item.value) <==> d.step < 0x8000_0000 && MinStep(configured) < 0x8000_0000)
                  && item.value.step >= 1 && Multiple(item.value.timestamp, item.value.step)
                  && (d.timestamp >= 0 ==> d.timestamp - item.value.step < item.value.timestamp <= d.timestamp)
                  && (d.timestamp < 0 ==> d.timestamp <= item.value.timestamp < d.timestamp + item.value.step))
  {
    hide GoMod, Multiple, FormRrdCacheKey;
    var item := Convert2GraphItem(d, MinStep(configured));
    if item.Some? {
      AlignDown(d.timestamp, item.value.step);
    }
  }

  lemma AlignedQuotient(ts: int, period: int)
    requires period > 0 && ts >= 0
    ensures AlignTs(ts, period) == (ts / period) * period
  {
    DivModIdentity(ts, period);
  }

  lemma QuotientOrder(p: int, q: int, b: int)
    requires b > 0
    ensures p * b < q * b <==> p < q
  {
    if p < q {
      MulMonotone(p + 1, q, b);
      assert (p + 1) * b == p * b + b;
    } else {
      MulMonotone(q, p, b);
    }
  }

  /** When the newest item in memory came from an earlier report, the guard of the receiving side
      lets a further report of the same counter in if and only if it falls into a later period:
      at most one report a period is stored. */
  lemma OneItemPerPeriod(d0: MetaData, d1: MetaData, minStep: int, view: StoreView, isPrint: char -> bool)
    requires minStep >= 1 && d0.timestamp >= 0 && d1.timestamp >= 0
    requires Convert2GraphItem(d0, minStep).Some? && Convert2GraphItem(d1, minStep).Some?
    requires KeyOf(Convert2GraphItem(d1, minStep).value) in view
    requires var items := view[KeyOf(Convert2GraphItem(d1, minStep).value)].items;
             items != [] && items[0] == Convert2GraphItem(d0, minStep).value
    requires Convert2GraphItem(d0, minStep).value.step == Convert2GraphItem(d1, minStep).value.step
    requires IsValidString(d1.endpoint, isPrint) && IsValidString(d1.counter, isPrint)
    ensures var item := Convert2GraphItem(d1, minStep).value;
            Accepts(view, item, isPrint) <==> d0.timestamp / item.step < d1.timestamp / item.step
  {
    hide IsValidString, FormRrdCacheKey, AlignTs;
    var step := Convert2GraphItem(d1, minStep).value.step;
    AlignedQuotient(d0.timestamp, step);
    AlignedQuotient(d1.timestamp, step);
    QuotientOrder(d0.timestamp / step, d1.timestamp / step, step);
  }
}
