/** The migration machine and the node do the same: what a pass (graph/rrdtool/rrdtool.go, FlushRRD)
    and the receiving of an item (graph/api/graph.go, handleItems) are for one key. */
module MigrationNode {
  import opened Wrappers
  import opened GraphModel
  import opened CacheKey
  import opened GraphStore
  import opened GraphFlush
  import opened Migration

  // ----- A pass, by the flag bit and the file of a key -----

  lemma {:induction false} PullsIff(view: StoreView, order: seq<string>, migrateEnabled: bool, k: string)
    requires forall key :: key in order ==> key in view
    ensures k in PassPulls(view, order, false, migrateEnabled) <==>
            k in order && migrateEnabled && view[k].flag & GRAPH_F_MISS != 0 && view[k].items != []
  {
    if order != [] {
      var n := |order| - 1;
      assert order == order[..n] + [order[n]];
      PullsIff(view, order[..n], migrateEnabled, k);
    }
  }

  lemma {:induction false} ForcedPullsNothing(view: StoreView, order: seq<string>, migrateEnabled: bool)
    requires forall key :: key in order ==> key in view
    ensures PassPulls(view, order, true, migrateEnabled) == []
  {
    if order != [] {
      ForcedPullsNothing(view, order[..|order| - 1], migrateEnabled);
    }
  }

  lemma SomethingInMemory(view: StoreView, k: string)
    requires k in view
    ensures |InMemory(view, k)| == |view[k].items|
  {
  }

  /** An unforced pass over a visited key. While migration is on and the flag has MISS, the list stays
      as it is, nothing goes to the file, and the key is pulled if and only if it has an item. Any
      other key is not pulled; with six items or an overdue oldest one the whole list goes to its file
      in one call, and otherwise nothing happens. */
  lemma UnforcedPass(e: Effects, baseDir: string, order: seq<string>, migrateEnabled: bool, now: int, k: string)
    requires Distinct(order) && k in order
    requires forall key :: key in order ==> key in e.view && Formed(key)
    ensures var e' := VisitAll(e, baseDir, order, false, migrateEnabled, now);
            var list := e.view[k];
            var before := BatchesFor(e.calls, KeyFile(baseDir, k));
            var after := BatchesFor(e'.calls, KeyFile(baseDir, k));
            && k in e'.view && e.pulls <= e'.pulls
            && if migrateEnabled && list.flag & GRAPH_F_MISS != 0 then
                 && e'.view[k] == list && after == before
                 && (k in e'.pulls[|e.pulls|..] <==> list.items != [])
               else
                 && k !in e'.pulls[|e.pulls|..]
                 && if |list.items| >= 6
                       || (list.items != [] && list.items[|list.items| - 1].timestamp <= now - FLUSH_MAX_WAIT)
                    then e'.view[k] == ListState(list.flag, []) && after == before + [InMemory(e.view, k)]
                    else e'.view[k] == list && after == before
  {
    hide Formed, KeyFile, BatchesFor, PassCalls, PassPulls, InMemory, Distinct;
    var calls := PassCalls(e.view, baseDir, order, false, migrateEnabled, now);
    PassBatches(e.view, baseDir, order, false, migrateEnabled, now, k);
    BatchesConcat(e.calls, calls, KeyFile(baseDir, k));
    PullsIff(e.view, order, migrateEnabled, k);
    SomethingInMemory(e.view, k);
    var pulls := PassPulls(e.view, order, false, migrateEnabled);
    assert (e.pulls + pulls)[|e.pulls|..] == pulls;
    var before := BatchesFor(e.calls, KeyFile(baseDir, k));
    assert before + [] == before;
  }

  /** A forced pass pulls nothing, and hands the whole list of every visited key with an item to its
      file in one call. */
  lemma ForcedPass(e: Effects, baseDir: string, order: seq<string>, migrateEnabled: bool, now: int, k: string)
    requires Distinct(order) && k in order
    requires forall key :: key in order ==> key in e.view && Formed(key)
    ensures var e' := VisitAll(e, baseDir, order, true, migrateEnabled, now);
            && k in e'.view && e'.pulls == e.pulls && e'.view[k] == ListState(e.view[k].flag, [])
            && BatchesFor(e'.calls, KeyFile(baseDir, k)) ==
               BatchesFor(e.calls, KeyFile(baseDir, k)) +
               if e.view[k].items != [] then [InMemory(e.view, k)] else []
  {
    hide Formed, KeyFile, BatchesFor, PassCalls, PassPulls, InMemory, Distinct;
    var calls := PassCalls(e.view, baseDir, order, true, migrateEnabled, now);
    PassBatches(e.view, baseDir, order, true, migrateEnabled, now, k);
    BatchesConcat(e.calls, calls, KeyFile(baseDir, k));
    ForcedPullsNothing(e.view, order, migrateEnabled);
    SomethingInMemory(e.view, k);
    assert e.pulls + [] == e.pulls;
  }

  // ----- Agreement with the machine -----

  /** The machine's view of one key is that of the node. */
  predicate Shows(s: Node, view: StoreView, k: string) {
    s.list == if k in view then Some(view[k]) else None
  }

  /** What an unforced pass of a node with migration does to a key is a step of the machine: the key
      is pulled exactly when the machine starts a task, which then raises the task's flag, and in
      every other case list and file are those of the machine. */
  lemma PassIsVisit(e: Effects, baseDir: string, order: seq<string>, now: int, k: string, s: Node, busy: bool,
                    created: bool)
    requires Distinct(order) && k in order
    requires forall key :: key in order ==> key in e.view && Formed(key)
    requires Shows(s, e.view, k)
    ensures var e' := VisitAll(e, baseDir, order, false, true, now);
            var s' := VisitStep(s, now, busy, created);
            && (k in e'.pulls[|e.pulls|..] <==> |s'.tasks| > |s.tasks|)
            && (k in e'.pulls[|e.pulls|..] ==>
                  && e'.view[k] == e.view[k] && s'.local == s.local
                  && s'.list.Some? && s'.list.value.items == e.view[k].items
                  && s'.tasks == s.tasks + [if busy then SendFlagged(e.view[k].flag) else Fetching(e.view[k].flag, 0)])
            && (k !in e'.pulls[|e.pulls|..] ==> Shows(s', e'.view, k) && s'.tasks == s.tasks)
            && HandedTo(e'.calls, KeyFile(baseDir, k)) == HandedTo(e.calls, KeyFile(baseDir, k)) + s'.local[|s.local|..]
  {
    hide Formed, KeyFile, BatchesFor, PassCalls, PassPulls, Distinct, HandedTo, Reversed;
    UnforcedPass(e, baseDir, order, true, now, k);
    PassHands(e.view, baseDir, order, false, true, now, k);
    HandedConcat(e.calls, PassCalls(e.view, baseDir, order, false, true, now), KeyFile(baseDir, k));
    VisitWrites(s, now, busy, created);
  }

  lemma VisitWrites(s: Node, now: int, busy: bool, created: bool)
    ensures var s' := VisitStep(s, now, busy, created);
            && s.local <= s'.local
            && s'.local[|s.local|..] ==
               if s.list.Some? && !Missing(s.list.value) && ShouldFlush(s.list.value.items, now)
               then Memory(s) else []
  {
    hide ShouldFlush, Missing, Reversed;
    assert s.local[|s.local|..] == [];
    assert (s.local + Memory(s))[|s.local|..] == Memory(s);
  }

  /** Receiving an item is a step of the machine, too: the same items are accepted, and a new key gets
      the same flag. */
  lemma HandleIsReceive(view: StoreView, log: map<string, seq<GraphItem>>, item: GraphItem, isPrint: char -> bool,
                        s: Node)
    requires Shows(s, view, KeyOf(item)) && s.accepted == Accepted(log, KeyOf(item))
    requires forall c :: c in item.endpoint + item.counter ==>
               isPrint(c) && c !in {'\r', '\n', '\'', '"', '>', 26 as char}
    ensures var s' := ReceiveStep(s, item);
            if Accepts(view, item, isPrint) then
              && Shows(s', AcceptView(view, item, true, s.file), KeyOf(item))
              && s'.accepted == Accepted(AcceptLog(log, item), KeyOf(item))
            else
              s' == s
  {
    hide KeyOf;
    ValidText(item, isPrint);
  }

  lemma ValidText(item: GraphItem, isPrint: char -> bool)
    requires forall c :: c in item.endpoint + item.counter ==>
               isPrint(c) && c !in {'\r', '\n', '\'', '"', '>', 26 as char}
    ensures IsValidString(item.endpoint, isPrint) && IsValidString(item.counter, isPrint)
  {
    var both := item.endpoint + item.counter;
    forall i | 0 <= i < |item.endpoint| ensures item.endpoint[i] in both {
      assert both[i] == item.endpoint[i];
    }
    forall i | 0 <= i < |item.counter| ensures item.counter[i] in both {
      assert both[|item.endpoint| + i] == item.counter[i];
    }
  }

  /** A new key is flagged MISS exactly when migration is on and its file is absent. */
  lemma NewKeyFlag(view: StoreView, item: GraphItem, migrateEnabled: bool, rrdExists: bool)
    requires KeyOf(item) !in view
    ensures var list := AcceptView(view, item, migrateEnabled, rrdExists)[KeyOf(item)];
            && list.items == [item]
            && (list.flag & GRAPH_F_MISS != 0 <==> migrateEnabled && !rrdExists)
  {
    hide KeyOf;
  }
}
