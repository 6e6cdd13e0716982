/** Entities shared by the graph component: stored items, RRD points and the
    constants of graph/g/g.go. */
module GraphModel {
  import opened Wrappers
  import opened GoInts

  const GAUGE := "GAUGE"
  const DERIVE := "DERIVE"
  const COUNTER := "COUNTER"

  const FLUSH_MIN_COUNT := 6
  const FLUSH_MAX_WAIT := 86400
  const RRA1_POINT_CNT := 720

  /** One reported value. The canonical counter string and the checksum that the
      original derives from metric and tags are carried as data. */
  datatype GraphItem = GraphItem(
    endpoint: string,
    counter: string,
    checksum: string,
    dsType: string,
    step: int,
    timestamp: int,
    value: real)

  /** One slot of an answer; `None` stands for NaN. */
  datatype RRDData = RRDData(timestamp: int, value: Option<real>)

  ghost predicate Ascending(items: seq<GraphItem>) {
    forall i, j :: 0 <= i < j < |items| ==> items[i].timestamp < items[j].timestamp
  }

  ghost predicate Aligned(items: seq<GraphItem>, step: int)
    requires step > 0
  {
    forall i :: 0 <= i < |items| ==> Multiple(items[i].timestamp, step)
  }
}
