/** The migration protocol for one key (graph/rrdtool/migrate.go): a state machine whose
    steps are the atomic store operations, rpc attempts and file operations of the tasks,
    interleaved with newly received items and unforced flush passes. */
module Migration {
  import opened Wrappers
  import opened GraphModel
  import opened GraphStore
  import opened GraphFlush

  /** How an attempt ended; `isNotExist` is os.IsNotExist of the error. */
  datatype RpcOutcome = RpcOk | RpcErr(isNotExist: bool)

  /** writeFile creates the file exclusively, so it can fail before or after creating it. */
  datatype WriteOutcome = WriteOk | WriteErr(isNotExist: bool, leftPartial: bool)

  datatype Fetched = Success | NotExist | OtherErr

  /** What a task still has to do; `flag` is the value it read when it started. */
  datatype Task =
    | SendFlagged(flag: bv32)
    | Sending(flag: bv32, items: seq<GraphItem>, attempt: nat)
    | SendDone(flag: bv32)
    | Fetching(flag: bv32, attempt: nat)
    | FetchGot(flag: bv32)
    | FetchDone(flag: bv32, outcome: Fetched)
    | TakenAsAbsent
    | Committing

  /** What has happened to the file of a key: whether it was there when the key was new, was
      installed, was left half-written; whether the last attempt of a fetch said that the old node
      has no file, and whether an install failed with an error of that kind. */
  datatype Past = Past(bornWithFile: bool, installed: bool, reported: bool, refused: bool, partial: bool)

  /** A node's view of one key, with logs: `accepted` in acceptance order, `out` for everything
      that left memory (acknowledged by the old node or handed to the local file), `local` for the
      local part of it. */
  datatype Node = Node(
    list: Option<ListState>,
    file: bool,
    tasks: seq<Task>,
    accepted: seq<GraphItem>,
    out: seq<GraphItem>,
    local: seq<GraphItem>,
    past: Past)

  datatype Step =
    /** handleItems for an item of this key. */
    | Receive(item: GraphItem)
    /** FlushRRD reaches this key: `busy` is flushrrd_timeout when the task is picked up,
        `created` whether a local flush leaves a file behind. */
    | Visit(now: int, busy: bool, created: bool)
    /** Task `i` performs its next action. */
    | Advance(i: nat, rpc: RpcOutcome, write: WriteOutcome, created: bool)

  function Init(file: bool): Node {
    Node(None, file, [], [], [], [], Past(file, false, false, false, false))
  }

  predicate HasMiss(flag: bv32) { flag & GRAPH_F_MISS != 0 }

  function Raise(flag: bv32, bit: bv32): bv32 { flag | bit }

  function Lower(flag: bv32, bit: bv32): bv32 { flag & !bit }

  // ----- Steps -----

  function Memory(s: Node): seq<GraphItem> {
    if s.list.Some? then Reversed(s.list.value.items) else []
  }

  function ReceiveStep(s: Node, item: GraphItem): Node {
    match s.list
    case None =>
      var flag := if !s.file then GRAPH_F_MISS else 0;
      s.(list := Some(ListState(flag, [item])), accepted := s.accepted + [item],
         past := s.past.(bornWithFile := s.file))
    case Some(l) =>
      if l.items != [] && item.timestamp <= l.items[0].timestamp then s
      else s.(list := Some(ListState(l.flag, [item] + l.items)), accepted := s.accepted + [item])
  }

  /** CommitByKey on a node. */
  function CommitStep(s: Node, created: bool): (n: Node)
    ensures n.tasks == s.tasks
  {
    if Memory(s) == [] then s
    else s.(list := Some(Drained(s.list.value)), out := s.out + Memory(s), local := s.local + Memory(s),
            file := s.file || created)
  }

  function WithFlag(s: Node, flag: bv32): Node {
    if s.list.Some? then s.(list := Some(ListState(flag, s.list.value.items))) else s
  }

  function StartTask(s: Node, busy: bool): Node
    requires s.list.Some?
  {
    var flag := s.list.value.flag;
    if busy then WithFlag(s, Raise(flag, GRAPH_F_SENDING)).(tasks := s.tasks + [SendFlagged(flag)])
    else WithFlag(s, Raise(flag, GRAPH_F_FETCHING)).(tasks := s.tasks + [Fetching(flag, 0)])
  }

  function VisitStep(s: Node, now: int, busy: bool, created: bool): Node {
    if s.list.None? then s
    else if Missing(s.list.value) then (if s.list.value.items != [] then StartTask(s, busy) else s)
    else if ShouldFlush(s.list.value.items, now) then CommitStep(s, created)
    else s
  }

  /** The effect of an action on the rest of the node, and what the task does next, if anything. */
  datatype Acted = Acted(node: Node, next: Option<Task>)

  /** send_data: take everything, try three times, put everything back on failure. */
  function SendAct(s: Node, t: Task, rpc: RpcOutcome): Acted
    requires t.SendFlagged? || t.Sending? || t.SendDone?
  {
    match t
    case SendFlagged(flag) =>
      var items := Memory(s);
      var s1 := if s.list.Some? then s.(list := Some(Drained(s.list.value))) else s;
      Acted(s1, Some(if items == [] then SendDone(flag) else Sending(flag, items, 0)))
    case Sending(flag, items, attempt) =>
      if rpc.RpcOk? then Acted(s.(out := s.out + items), Some(SendDone(flag)))
      else if attempt + 1 < 3 then Acted(s, Some(Sending(flag, items, attempt + 1)))
      else Acted(Restored(s, items), Some(SendDone(flag)))
    case SendDone(flag) =>
      Acted(WithFlag(s, Lower(flag, GRAPH_F_SENDING)), None)
  }

  /** PushAll on a node. */
  function Restored(s: Node, items: seq<GraphItem>): Node {
    if s.list.Some? then s.(list := Some(ListState(s.list.value.flag, s.list.value.items + Reversed(items)))) else s
  }

  function Heard(p: Past, isNotExist: bool): Past { p.(reported := p.reported || isNotExist) }

  function Failed(p: Past, isNotExist: bool, leftPartial: bool): Past {
    p.(refused := p.refused || isNotExist, partial := p.partial || leftPartial)
  }

  /** fetch_rrd: ask three times, then install the file; an install error is not retried. */
  function FetchAct(s: Node, t: Task, rpc: RpcOutcome, write: WriteOutcome): Acted
    requires t.Fetching? || t.FetchGot? || t.FetchDone?
  {
    match t
    case Fetching(flag, attempt) =>
      (match rpc
       case RpcOk => Acted(s, Some(FetchGot(flag)))
       case RpcErr(isNotExist) =>
         if attempt + 1 < 3 then Acted(s, Some(Fetching(flag, attempt + 1)))
         else Acted(s.(past := Heard(s.past, isNotExist)),
           Some(FetchDone(flag, if isNotExist then NotExist else OtherErr))))
    case FetchGot(flag) =>
      if s.file then Acted(s, Some(FetchDone(flag, OtherErr)))
      else
        (match write
         case WriteOk =>
           Acted(s.(file := true, past := s.past.(installed := true)),
             Some(FetchDone(Lower(flag, GRAPH_F_MISS), Success)))
         case WriteErr(isNotExist, leftPartial) =>
           Acted(s.(file := leftPartial, past := Failed(s.past, isNotExist, leftPartial)),
                 Some(FetchDone(flag, if isNotExist then NotExist else OtherErr))))
    case FetchDone(flag, outcome) =>
      Acted(WithFlag(s, Lower(flag, GRAPH_F_FETCHING)), if outcome == NotExist then Some(TakenAsAbsent) else None)
  }

  /** One action of a task; after a fetch that is taken for an absent file, the dispatcher clears
      the flag and commits. */
  function Act(s: Node, t: Task, rpc: RpcOutcome, write: WriteOutcome, created: bool): Acted {
    if t.TakenAsAbsent? then Acted(WithFlag(s, 0), Some(Committing))
    else if t.Committing? then Acted(CommitStep(s, created), None)
    else if t.SendFlagged? || t.Sending? || t.SendDone? then SendAct(s, t, rpc)
    else FetchAct(s, t, rpc, write)
  }

  function AdvanceStep(s: Node, i: nat, rpc: RpcOutcome, write: WriteOutcome, created: bool): Node
    requires i < |s.tasks|
  {
    var acted := Act(s, s.tasks[i], rpc, write, created);
    acted.node.(tasks := if acted.next.Some? then s.tasks[i := acted.next.value] else s.tasks[..i] + s.tasks[i + 1..])
  }

  function Next(s: Node, step: Step): (n: Node) {
    match step
    case Receive(item) => ReceiveStep(s, item)
    case Visit(now, busy, created) => VisitStep(s, now, busy, created)
    case Advance(i, rpc, write, created) => if i < |s.tasks| then AdvanceStep(s, i, rpc, write, created) else s
  }

  function Run(s: Node, steps: seq<Step>): Node {
    if steps == [] then s else Next(Run(s, steps[..|steps| - 1]), steps[|steps| - 1])
  }

  /** At most one task in flight, at every point of the run. */
  ghost predicate SingleFlight(s: Node, steps: seq<Step>) {
    && |Run(s, steps).tasks| <= 1
    && (steps != [] ==> SingleFlight(s, steps[..|steps| - 1]))
  }

  /** The node after an action of its only task. */
  function Only(acted: Acted): Node {
    acted.node.(tasks := if acted.next.Some? then [acted.next.value] else [])
  }

  lemma AdvanceOnly(s: Node, rpc: RpcOutcome, write: WriteOutcome, created: bool)
    requires |s.tasks| == 1
    ensures AdvanceStep(s, 0, rpc, write, created) == Only(Act(s, s.tasks[0], rpc, write, created))
  {
    hide Act;
    assert s.tasks[..0] + s.tasks[1..] == [];
    forall t ensures s.tasks[0 := t] == [t] {
    }
  }
}
