/** Receiving items (graph/api/graph.go) and flushing them to disk
    (graph/rrdtool/rrdtool.go) over the shared item store. */
module GraphFlush {
  import opened Wrappers
  import opened GoInts
  import opened GraphModel
  import opened CacheKey
  import opened GraphStore

  // ----- Which items are accepted -----

  /** g.IsValidString; `isPrint` is unicode.IsPrint. The octal escape is a SUB character. */
  predicate IsValidString(str: string, isPrint: char -> bool) {
    forall i :: 0 <= i < |str| ==> str[i] !in {'\r', '\n', '\'', '"', '>', 26 as char} && isPrint(str[i])
  }

  function KeyOf(item: GraphItem): string {
    FormRrdCacheKey(item.checksum, item.dsType, item.step)
  }

  /** What the senders guarantee about an item: a real checksum, a plain type, a 32-bit
      positive step and an aligned timestamp. */
  ghost predicate WellSent(item: GraphItem) {
    && FormedFrom(KeyOf(item), item.checksum, item.dsType, item.step)
    && item.step > 0 && Multiple(item.timestamp, item.step)
  }

  type StoreView = map<string, ListState>

  /** The order guard looks at the newest item still in memory and at nothing else. */
  predicate Accepts(view: StoreView, item: GraphItem, isPrint: char -> bool) {
    && IsValidString(item.endpoint, isPrint)
    && IsValidString(item.counter, isPrint)
    && (KeyOf(item) in view && view[KeyOf(item)].items != [] ==> item.timestamp > view[KeyOf(item)].items[0].timestamp)
  }

  // ----- What leaves memory -----

  /** One call of FlushFile. */
  datatype FlushCall = FlushCall(filename: string, md5: string, items: seq<GraphItem>)

  /** Everything handed to FlushFile for one file, in order. */
  function HandedTo(calls: seq<FlushCall>, filename: string): seq<GraphItem> {
    if calls == [] then []
    else HandedTo(calls[..|calls| - 1], filename) +
         if calls[|calls| - 1].filename == filename then calls[|calls| - 1].items else []
  }

  function CallFor(baseDir: string, key: string, items: seq<GraphItem>): FlushCall
    requires SplitRrdCacheKey(key).Some? && |SplitRrdCacheKey(key).value.md5| >= 2
  {
    var parts := SplitRrdCacheKey(key).value;
    FlushCall(FileOf(baseDir, parts), parts.md5, items)
  }

  function InMemory(view: StoreView, key: string): seq<GraphItem> {
    if key in view then Reversed(view[key].items) else []
  }

  function Accepted(log: map<string, seq<GraphItem>>, key: string): seq<GraphItem> {
    if key in log then log[key] else []
  }

  ghost predicate KeysFormed(view: StoreView) {
    forall k :: k in view ==> Formed(k)
  }

  /** Nothing is lost, duplicated or reordered: what was handed to disk for a key, followed
      by what memory still holds, is what was accepted. */
  ghost predicate Conserved(view: StoreView, calls: seq<FlushCall>, log: map<string, seq<GraphItem>>, baseDir: string) {
    forall k :: Formed(k) ==> ConservedAt(view, calls, log, baseDir, k)
  }

  ghost predicate ConservedAt(view: StoreView, calls: seq<FlushCall>, log: map<string, seq<GraphItem>>,
                              baseDir: string, k: string)
    requires Formed(k)
  {
    HandedTo(calls, KeyFile(baseDir, k)) + InMemory(view, k) == Accepted(log, k)
  }

  /** Every list is strictly ordered in time, aligned, and belongs to its key. */
  ghost predicate Ordered(view: StoreView) {
    forall k :: k in view ==> OrderedList(k, view[k].items)
  }

  ghost predicate OrderedList(key: string, items: seq<GraphItem>) {
    && (forall i, j :: 0 <= i < j < |items| ==> items[i].timestamp > items[j].timestamp)
    && (forall i :: 0 <= i < |items| ==> WellSent(items[i]) && KeyOf(items[i]) == key)
  }

  function AcceptView(view: StoreView, item: GraphItem, migrateEnabled: bool, rrdExists: bool): StoreView {
    view[KeyOf(item) := Pushed(view, KeyOf(item), item, migrateEnabled, rrdExists)]
  }

  function AcceptLog(log: map<string, seq<GraphItem>>, item: GraphItem): map<string, seq<GraphItem>> {
    log[KeyOf(item) := Accepted(log, KeyOf(item)) + [item]]
  }

  lemma AcceptKeepsOrder(view: StoreView, item: GraphItem, isPrint: char -> bool, migrateEnabled: bool, rrdExists: bool)
    requires Ordered(view) && KeysFormed(view) && WellSent(item) && Accepts(view, item, isPrint)
    ensures Ordered(AcceptView(view, item, migrateEnabled, rrdExists))
    ensures KeysFormed(AcceptView(view, item, migrateEnabled, rrdExists))
  {
    hide WellSent, IsValidString, FormRrdCacheKey;
    var key := KeyOf(item);
    assert Formed(key) by {
      FormedKey(item);
    }
    var after := AcceptView(view, item, migrateEnabled, rrdExists);
    assert OrderedList(key, after[key].items);
  }

  lemma FormedKey(item: GraphItem)
    requires WellSent(item)
    ensures Formed(KeyOf(item))
  {
    assert FormedFrom(KeyOf(item), item.checksum, item.dsType, item.step);
  }

  lemma AcceptConserves(view: StoreView, calls: seq<FlushCall>, log: map<string, seq<GraphItem>>, baseDir: string,
                        item: GraphItem, migrateEnabled: bool, rrdExists: bool)
    requires Conserved(view, calls, log, baseDir)
    ensures Conserved(AcceptView(view, item, migrateEnabled, rrdExists), calls, AcceptLog(log, item), baseDir)
  {
    hide Formed, KeyOf, KeyFile, HandedTo, InMemory, AcceptView, AcceptLog;
    var view' := AcceptView(view, item, migrateEnabled, rrdExists);
    forall k | Formed(k) ensures ConservedAt(view', calls, AcceptLog(log, item), baseDir, k) {
      assert ConservedAt(view, calls, log, baseDir, k);
      AcceptAppends(view, log, item, migrateEnabled, rrdExists, k);
    }
  }

  lemma AcceptAppends(view: StoreView, log: map<string, seq<GraphItem>>, item: GraphItem, migrateEnabled: bool,
                      rrdExists: bool, k: string)
    ensures var more := if k == KeyOf(item) then [item] else [];
            && InMemory(AcceptView(view, item, migrateEnabled, rrdExists), k) == InMemory(view, k) + more
            && Accepted(AcceptLog(log, item), k) == Accepted(log, k) + more
  {
    hide KeyOf;
    if k == KeyOf(item) {
      var before := if k in view then view[k].items else [];
      assert ([item] + before)[1..] == before;
    }
  }

  // ----- Committing -----

  function Drained(list: ListState): ListState { ListState(list.flag, []) }

  /** The effect of CommitByKey on memory. */
  ghost function CommitView(view: StoreView, key: string): StoreView {
    if key in view then view[key := Drained(view[key])] else view
  }

  /** The FlushFile calls that CommitByKey makes: one, unless there is nothing to write. */
  ghost function CommitCalls(view: StoreView, baseDir: string, key: string): seq<FlushCall>
    requires Formed(key)
  {
    FormedSplits(key);
    if InMemory(view, key) == [] then [] else [CallFor(baseDir, key, InMemory(view, key))]
  }

  lemma {:induction false} HandedConcat(a: seq<FlushCall>, b: seq<FlushCall>, filename: string)
    ensures HandedTo(a + b, filename) == HandedTo(a, filename) + HandedTo(b, filename)
  {
    if b == [] {
      assert a + b == a;
    } else {
      HandedConcat(a, b[..|b| - 1], filename);
      assert (a + b)[..|a + b| - 1] == a + b[..|b| - 1];
    }
  }

  lemma HandedByCommit(view: StoreView, baseDir: string, key: string, k: string)
    requires Formed(key) && Formed(k)
    ensures HandedTo(CommitCalls(view, baseDir, key), KeyFile(baseDir, k)) ==
            if k == key then InMemory(view, key) else []
  {
    hide Formed, InMemory;
    FilesAreDistinct(baseDir, key, k);
    var calls := CommitCalls(view, baseDir, key);
    if calls != [] {
      assert calls[..0] == [];
    }
  }

  lemma CommitConserves(view: StoreView, calls: seq<FlushCall>, log: map<string, seq<GraphItem>>, baseDir: string,
                        key: string)
    requires Conserved(view, calls, log, baseDir) && Formed(key)
    ensures Conserved(CommitView(view, key), calls + CommitCalls(view, baseDir, key), log, baseDir)
  {
    hide Formed, KeyFile, HandedTo, CommitCalls;
    var extra := CommitCalls(view, baseDir, key);
    forall k | Formed(k) ensures ConservedAt(CommitView(view, key), calls + extra, log, baseDir, k) {
      HandedByCommit(view, baseDir, key, k);
      HandedConcat(calls, extra, KeyFile(baseDir, k));
      assert ConservedAt(view, calls, log, baseDir, k);
    }
  }

  lemma CommitKeepsOrder(view: StoreView, key: string)
    requires Ordered(view) && KeysFormed(view)
    ensures Ordered(CommitView(view, key)) && KeysFormed(CommitView(view, key))
  {
  }

  /** The invariant of a node. */
  ghost predicate Sound(view: StoreView, calls: seq<FlushCall>, log: map<string, seq<GraphItem>>, baseDir: string) {
    KeysFormed(view) && Ordered(view) && Conserved(view, calls, log, baseDir)
  }

  lemma AcceptSound(view: StoreView, calls: seq<FlushCall>, log: map<string, seq<GraphItem>>, baseDir: string,
                    item: GraphItem, isPrint: char -> bool, migrateEnabled: bool, rrdExists: bool)
    requires Sound(view, calls, log, baseDir) && WellSent(item) && Accepts(view, item, isPrint)
    ensures Sound(AcceptView(view, item, migrateEnabled, rrdExists), calls, AcceptLog(log, item), baseDir)
  {
    hide KeysFormed, Ordered, Conserved, WellSent, Accepts, AcceptView, AcceptLog;
    AcceptKeepsOrder(view, item, isPrint, migrateEnabled, rrdExists);
    AcceptConserves(view, calls, log, baseDir, item, migrateEnabled, rrdExists);
  }

  lemma CommitSound(view: StoreView, calls: seq<FlushCall>, log: map<string, seq<GraphItem>>, baseDir: string,
                    key: string)
    requires Sound(view, calls, log, baseDir) && Formed(key)
    ensures Sound(CommitView(view, key), calls + CommitCalls(view, baseDir, key), log, baseDir)
  {
    hide KeysFormed, Ordered, Conserved, Formed, CommitView, CommitCalls;
    CommitConserves(view, calls, log, baseDir, key);
    CommitKeepsOrder(view, key);
  }

  lemma CommitCallsAre(view: StoreView, baseDir: string, key: string)
    requires Formed(key)
    ensures SplitRrdCacheKey(key).Some? && |SplitRrdCacheKey(key).value.md5| >= 2
    ensures CommitCalls(view, baseDir, key) ==
            if InMemory(view, key) == [] then []
            else [FlushCall(KeyFile(baseDir, key), SplitRrdCacheKey(key).value.md5, InMemory(view, key))]
  {
    hide Formed, FileOf, SplitRrdCacheKey, InMemory;
    FormedSplits(key);
  }

  /** What FetchAll reads from a sound store is what Query expects: ascending and aligned. */
  lemma FetchIsQueryReady(view: StoreView, calls: seq<FlushCall>, log: map<string, seq<GraphItem>>, baseDir: string,
                          md5: string, dsType: string, step: int)
    requires Sound(view, calls, log, baseDir)
    requires step > 0 && FormedFrom(FormRrdCacheKey(md5, dsType, step), md5, dsType, step)
    ensures Ascending(InMemory(view, FormRrdCacheKey(md5, dsType, step)))
    ensures Aligned(InMemory(view, FormRrdCacheKey(md5, dsType, step)), step)
  {
    hide Formed, FormRrdCacheKey, Conserved, Multiple;
    var key := FormRrdCacheKey(md5, dsType, step);
    if key in view {
      var items := view[key].items;
      assert OrderedList(key, items);
      forall i | 0 <= i < |items|
        ensures Reversed(items)[i] == items[|items| - 1 - i] && Multiple(Reversed(items)[i].timestamp, step)
      {
        ReversedAt(items, i);
        SameKeySameStep(items[|items| - 1 - i], md5, dsType, step);
      }
    }
  }

  lemma SameKeySameStep(item: GraphItem, md5: string, dsType: string, step: int)
    requires WellSent(item) && FormedFrom(FormRrdCacheKey(md5, dsType, step), md5, dsType, step)
    requires KeyOf(item) == FormRrdCacheKey(md5, dsType, step)
    ensures item.step == step
  {
    hide FormRrdCacheKey, SplitRrdCacheKey, Multiple;
    SplitInvertsForm(item.checksum, item.dsType, item.step);
    SplitInvertsForm(md5, dsType, step);
  }

  // ----- One pass over a shard -----

  /** shouldFlush: enough items, or the oldest one has waited long enough. */
  predicate ShouldFlush(items: seq<GraphItem>, now: int) {
    |items| >= FLUSH_MIN_COUNT || (items != [] && items[|items| - 1].timestamp <= now - FLUSH_MAX_WAIT)
  }

  predicate Missing(list: ListState) { list.flag & GRAPH_F_MISS != 0 }

  /** An unforced pass asks the old node about a key that is still flagged MISS. */
  predicate Pulls(list: ListState, force: bool, migrateEnabled: bool) {
    !force && migrateEnabled && Missing(list)
  }

  predicate Commits(list: ListState, force: bool, migrateEnabled: bool, now: int) {
    !Pulls(list, force, migrateEnabled) && (force || ShouldFlush(list.items, now))
  }

  /** Memory after the keys `done` have been visited. */
  ghost function PassView(view: StoreView, done: seq<string>, force: bool, migrateEnabled: bool, now: int): StoreView {
    map k | k in view :: if k in done && Commits(view[k], force, migrateEnabled, now) then Drained(view[k]) else view[k]
  }

  /** The FlushFile calls of a pass that visits `order`. */
  ghost function PassCalls(view: StoreView, baseDir: string, order: seq<string>, force: bool, migrateEnabled: bool,
                           now: int): seq<FlushCall>
    requires forall k :: k in order ==> k in view && Formed(k)
  {
    if order == [] then [] else
      var k := order[|order| - 1];
      PassCalls(view, baseDir, order[..|order| - 1], force, migrateEnabled, now) +
      if Commits(view[k], force, migrateEnabled, now) then CommitCalls(view, baseDir, k) else []
  }

  /** The PULL tasks of a pass that visits `order`; a key with no item is not pulled. */
  function PassPulls(view: StoreView, order: seq<string>, force: bool, migrateEnabled: bool): seq<string>
    requires forall k :: k in order ==> k in view
  {
    if order == [] then [] else
      var k := order[|order| - 1];
      PassPulls(view, order[..|order| - 1], force, migrateEnabled) +
      if Pulls(view[k], force, migrateEnabled) && view[k].items != [] then [k] else []
  }

  ghost predicate Distinct(keys: seq<string>) {
    forall i, j :: 0 <= i < j < |keys| ==> keys[i] != keys[j]
  }

  lemma KeysAreFormed(view: StoreView, calls: seq<FlushCall>, log: map<string, seq<GraphItem>>, baseDir: string)
    requires Sound(view, calls, log, baseDir)
    ensures forall k :: k in view ==> Formed(k)
  {
  }

  lemma PassStart(view: StoreView, baseDir: string, force: bool, migrateEnabled: bool, now: int)
    ensures PassView(view, [], force, migrateEnabled, now) == view
    ensures PassCalls(view, baseDir, [], force, migrateEnabled, now) == []
    ensures PassPulls(view, [], force, migrateEnabled) == []
  {
  }

  /** Visiting one more key of a pass. */
  lemma PassStep(view: StoreView, baseDir: string, order: seq<string>, n: int, force: bool, migrateEnabled: bool,
                 now: int)
    requires Distinct(order) && 0 <= n < |order|
    requires forall k :: k in order ==> k in view && Formed(k)
    ensures var k := order[n];
            var before := PassView(view, order[..n], force, migrateEnabled, now);
            && k in before && before[k] == view[k]
            && PassView(view, order[..n + 1], force, migrateEnabled, now) ==
                 (if Commits(view[k], force, migrateEnabled, now) then CommitView(before, k) else before)
            && PassCalls(view, baseDir, order[..n + 1], force, migrateEnabled, now) ==
                 PassCalls(view, baseDir, order[..n], force, migrateEnabled, now) +
                 (if Commits(view[k], force, migrateEnabled, now) then CommitCalls(before, baseDir, k) else [])
            && PassPulls(view, order[..n + 1], force, migrateEnabled) ==
                 PassPulls(view, order[..n], force, migrateEnabled) +
                 (if Pulls(view[k], force, migrateEnabled) && view[k].items != [] then [k] else [])
  {
    hide Formed, Commits, Pulls, Reversed, CommitView, CommitCalls, PassView, PassCalls, PassPulls;
    PassViewStep(view, order, n, force, migrateEnabled, now);
    PassCallsStep(view, baseDir, order, n, force, migrateEnabled, now);
    CommitCallsAgree(view, PassView(view, order[..n], force, migrateEnabled, now), baseDir, order[n]);
  }

  /** What memory, the FlushFile calls and the PULL tasks are. */
  datatype Effects = Effects(view: StoreView, calls: seq<FlushCall>, pulls: seq<string>)

  /** The effects of FlushRRD on one key. */
  ghost function VisitKey(e: Effects, baseDir: string, k: string, force: bool, migrateEnabled: bool, now: int): Effects
    requires k in e.view && Formed(k)
  {
    var list := e.view[k];
    var commits := Commits(list, force, migrateEnabled, now);
    Effects(if commits then CommitView(e.view, k) else e.view,
            e.calls + if commits then CommitCalls(e.view, baseDir, k) else [],
            e.pulls + if Pulls(list, force, migrateEnabled) && list.items != [] then [k] else [])
  }

  /** The effects of a pass that visits `order`. */
  ghost function VisitAll(e: Effects, baseDir: string, order: seq<string>, force: bool, migrateEnabled: bool,
                          now: int): Effects
    requires forall k :: k in order ==> k in e.view && Formed(k)
  {
    Effects(PassView(e.view, order, force, migrateEnabled, now),
            e.calls + PassCalls(e.view, baseDir, order, force, migrateEnabled, now),
            e.pulls + PassPulls(e.view, order, force, migrateEnabled))
  }

  lemma VisitNext(e: Effects, baseDir: string, order: seq<string>, n: int, force: bool, migrateEnabled: bool, now: int)
    requires Distinct(order) && 0 <= n < |order|
    requires forall k :: k in order ==> k in e.view && Formed(k)
    ensures order[n] in VisitAll(e, baseDir, order[..n], force, migrateEnabled, now).view
    ensures VisitAll(e, baseDir, order[..n + 1], force, migrateEnabled, now) ==
            VisitKey(VisitAll(e, baseDir, order[..n], force, migrateEnabled, now),
                     baseDir, order[n], force, migrateEnabled, now)
  {
    hide Formed, Commits, Pulls, CommitView, CommitCalls, PassView, PassCalls, PassPulls, Distinct;
    PassStep(e.view, baseDir, order, n, force, migrateEnabled, now);
  }

  lemma VisitNone(e: Effects, baseDir: string, force: bool, migrateEnabled: bool, now: int)
    ensures VisitAll(e, baseDir, [], force, migrateEnabled, now) == e
  {
    hide PassView, PassCalls, PassPulls;
    PassStart(e.view, baseDir, force, migrateEnabled, now);
  }

  lemma PassViewStep(view: StoreView, order: seq<string>, n: int, force: bool, migrateEnabled: bool, now: int)
    requires Distinct(order) && 0 <= n < |order|
    requires forall k :: k in order ==> k in view
    ensures var k := order[n];
            var before := PassView(view, order[..n], force, migrateEnabled, now);
            && k in before && before[k] == view[k]
            && PassView(view, order[..n + 1], force, migrateEnabled, now) ==
                 (if Commits(view[k], force, migrateEnabled, now) then CommitView(before, k) else before)
  {
    hide Commits;
    assert order[n] !in order[..n];
    assert order[..n + 1] == order[..n] + [order[n]];
  }

  lemma PassCallsStep(view: StoreView, baseDir: string, order: seq<string>, n: int, force: bool, migrateEnabled: bool,
                      now: int)
    requires 0 <= n < |order|
    requires forall k :: k in order ==> k in view && Formed(k)
    ensures var k := order[n];
            && PassCalls(view, baseDir, order[..n + 1], force, migrateEnabled, now) ==
                 PassCalls(view, baseDir, order[..n], force, migrateEnabled, now) +
                 (if Commits(view[k], force, migrateEnabled, now) then CommitCalls(view, baseDir, k) else [])
            && PassPulls(view, order[..n + 1], force, migrateEnabled) ==
                 PassPulls(view, order[..n], force, migrateEnabled) +
                 (if Pulls(view[k], force, migrateEnabled) && view[k].items != [] then [k] else [])
  {
    hide Formed, Commits, Pulls, CommitCalls;
    assert order[..n + 1][..n] == order[..n];
  }

  lemma CommitCallsAgree(view0: StoreView, view1: StoreView, baseDir: string, key: string)
    requires Formed(key) && key in view0 && key in view1 && view0[key] == view1[key]
    ensures CommitCalls(view0, baseDir, key) == CommitCalls(view1, baseDir, key)
  {
    hide Formed, CommitCalls, Reversed;
    CommitCallsAre(view0, baseDir, key);
    CommitCallsAre(view1, baseDir, key);
  }

  // ----- What a pass achieves -----

  lemma NothingHanded(filename: string)
    ensures HandedTo([], filename) == []
  {
  }

  lemma LastVisited(order: seq<string>)
    requires order != [] && Distinct(order)
    ensures var n := |order| - 1;
            && order[..n + 1] == order && Distinct(order[..n]) && order[n] !in order[..n]
            && forall k :: k in order <==> k in order[..n] || k == order[n]
  {
    assert order == order[..|order| - 1] + [order[|order| - 1]];
  }

  /** Each file gets the whole list of its key, once, when the key commits; nothing otherwise. */
  lemma {:induction false} PassHands(view: StoreView, baseDir: string, order: seq<string>, force: bool,
                                     migrateEnabled: bool, now: int, k: string)
    requires Distinct(order) && Formed(k)
    requires forall k :: k in order ==> k in view && Formed(k)
    ensures HandedTo(PassCalls(view, baseDir, order, force, migrateEnabled, now), KeyFile(baseDir, k)) ==
            if k in order && Commits(view[k], force, migrateEnabled, now) then InMemory(view, k) else []
  {
    hide Formed, Commits, Pulls, CommitCalls, KeyFile, InMemory, PassCalls, PassPulls, Distinct, HandedTo;
    PassStart(view, baseDir, force, migrateEnabled, now);
    NothingHanded(KeyFile(baseDir, k));
    if order != [] {
      var n := |order| - 1;
      var last := order[n];
      var extra := if Commits(view[last], force, migrateEnabled, now) then CommitCalls(view, baseDir, last) else [];
      LastVisited(order);
      PassHands(view, baseDir, order[..n], force, migrateEnabled, now, k);
      PassCallsStep(view, baseDir, order, n, force, migrateEnabled, now);
      HandedByCommit(view, baseDir, last, k);
      HandedConcat(PassCalls(view, baseDir, order[..n], force, migrateEnabled, now), extra, KeyFile(baseDir, k));
    }
  }

  /** A forced pass empties every list it visits. Any other pass leaves a visited list only if
      the old node still owes its history, or the list is short and its oldest item is young. */
  lemma AfterPass(view: StoreView, order: seq<string>, force: bool, migrateEnabled: bool, now: int, k: string)
    requires k in order && k in view
    ensures var items := PassView(view, order, force, migrateEnabled, now)[k].items;
            items != [] ==>
              && !force
              && items == view[k].items
              && (Pulls(view[k], force, migrateEnabled) ||
                  (|items| < FLUSH_MIN_COUNT && items[|items| - 1].timestamp > now - FLUSH_MAX_WAIT))
  {
  }

  /** The batches handed to FlushFile for one file. */
  function BatchesFor(calls: seq<FlushCall>, filename: string): seq<seq<GraphItem>> {
    if calls == [] then []
    else BatchesFor(calls[..|calls| - 1], filename) +
         if calls[|calls| - 1].filename == filename then [calls[|calls| - 1].items] else []
  }

  lemma {:induction false} BatchesConcat(a: seq<FlushCall>, b: seq<FlushCall>, filename: string)
    ensures BatchesFor(a + b, filename) == BatchesFor(a, filename) + BatchesFor(b, filename)
  {
    if b == [] {
      assert a + b == a;
    } else {
      BatchesConcat(a, b[..|b| - 1], filename);
      assert (a + b)[..|a + b| - 1] == a + b[..|b| - 1];
    }
  }

  lemma BatchByCommit(view: StoreView, baseDir: string, key: string, k: string)
    requires Formed(key) && Formed(k)
    ensures BatchesFor(CommitCalls(view, baseDir, key), KeyFile(baseDir, k)) ==
            if k == key && InMemory(view, key) != [] then [InMemory(view, key)] else []
  {
    hide Formed, InMemory;
    FilesAreDistinct(baseDir, key, k);
    var calls := CommitCalls(view, baseDir, key);
    if calls != [] {
      assert calls[..0] == [];
    }
  }

  lemma NoBatches(filename: string)
    ensures BatchesFor([], filename) == []
  {
  }

  /** A pass calls FlushFile at most once for a file, and with the whole list. */
  lemma {:induction false} PassBatches(view: StoreView, baseDir: string, order: seq<string>, force: bool,
                                       migrateEnabled: bool, now: int, k: string)
    requires Distinct(order) && Formed(k)
    requires forall k :: k in order ==> k in view && Formed(k)
    ensures BatchesFor(PassCalls(view, baseDir, order, force, migrateEnabled, now), KeyFile(baseDir, k)) ==
            if k in order && Commits(view[k], force, migrateEnabled, now) && InMemory(view, k) != []
            then [InMemory(view, k)] else []
  {
    hide Formed, Commits, Pulls, CommitCalls, KeyFile, InMemory, PassCalls, PassPulls, Distinct, BatchesFor;
    PassStart(view, baseDir, force, migrateEnabled, now);
    NoBatches(KeyFile(baseDir, k));
    if order != [] {
      var n := |order| - 1;
      var last := order[n];
      var extra := if Commits(view[last], force, migrateEnabled, now) then CommitCalls(view, baseDir, last) else [];
      LastVisited(order);
      PassBatches(view, baseDir, order[..n], force, migrateEnabled, now, k);
      PassCallsStep(view, baseDir, order, n, force, migrateEnabled, now);
      BatchByCommit(view, baseDir, last, k);
      BatchesConcat(PassCalls(view, baseDir, order[..n], force, migrateEnabled, now), extra, KeyFile(baseDir, k));
    }
  }

  /** A forced pass over all keys commits every non-empty key in exactly one call, with its whole
      list, and leaves every list empty. */
  lemma ForcedFlushCommitsOnce(view: StoreView, baseDir: string, order: seq<string>, migrateEnabled: bool, now: int,
                               k: string)
    requires Distinct(order) && k in view
    requires forall k :: k in view ==> Formed(k)
    requires forall k :: k in order <==> k in view
    ensures InMemory(PassView(view, order, true, migrateEnabled, now), k) == []
    ensures BatchesFor(PassCalls(view, baseDir, order, true, migrateEnabled, now), KeyFile(baseDir, k)) ==
            if InMemory(view, k) != [] then [InMemory(view, k)] else []
  {
    hide Formed, PassCalls, KeyFile, BatchesFor;
    PassBatches(view, baseDir, order, true, migrateEnabled, now, k);
  }

  lemma DistinctConcat(a: seq<string>, b: seq<string>)
    requires Distinct(a) && Distinct(b) && forall k :: k in a ==> k !in b
    ensures Distinct(a + b)
  {
    var ab := a + b;
    forall i, j | 0 <= i < j < |ab| ensures ab[i] != ab[j] {
      if i < |a| <= j {
        assert ab[i] in a && ab[j] in b;
      }
    }
  }

  lemma PassComposes(view: StoreView, baseDir: string, a: seq<string>, b: seq<string>, force: bool,
                     migrateEnabled: bool, now: int)
    requires forall k :: k in a || k in b ==> k in view && Formed(k)
    requires forall k :: k in a ==> k !in b
    ensures var mid := PassView(view, a, force, migrateEnabled, now);
            && (forall k :: k in b ==> k in mid && mid[k] == view[k])
            && PassView(mid, b, force, migrateEnabled, now) == PassView(view, a + b, force, migrateEnabled, now)
  {
    hide Formed, Commits;
  }

  lemma {:induction false} PassCallsConcat(view: StoreView, mid: StoreView, baseDir: string, a: seq<string>,
                                           b: seq<string>, force: bool, migrateEnabled: bool, now: int)
    requires forall k :: k in a + b ==> k in view && Formed(k)
    requires forall k :: k in b ==> k in mid && mid[k] == view[k]
    ensures PassCalls(view, baseDir, a + b, force, migrateEnabled, now) ==
            PassCalls(view, baseDir, a, force, migrateEnabled, now) +
              PassCalls(mid, baseDir, b, force, migrateEnabled, now)
    ensures PassPulls(view, a + b, force, migrateEnabled) ==
            PassPulls(view, a, force, migrateEnabled) + PassPulls(mid, b, force, migrateEnabled)
  {
    hide Formed, Commits, CommitCalls, Pulls, PassCalls, PassPulls;
    if b == [] {
      PassStart(mid, baseDir, force, migrateEnabled, now);
      assert a + b == a;
    } else {
      var n := |b| - 1;
      var ab := a + b;
      assert ab[..|ab| - 1] == a + b[..n] && ab[..|ab| - 1 + 1] == ab && b[..n + 1] == b;
      PassCallsConcat(view, mid, baseDir, a, b[..n], force, migrateEnabled, now);
      PassCallsStep(view, baseDir, ab, |ab| - 1, force, migrateEnabled, now);
      PassCallsStep(mid, baseDir, b, n, force, migrateEnabled, now);
      CommitCallsAgree(view, mid, baseDir, b[n]);
    }
  }

  /** Two passes over different keys are one pass over all of them. */
  lemma VisitMore(e: Effects, baseDir: string, a: seq<string>, b: seq<string>, force: bool, migrateEnabled: bool,
                  now: int)
    requires forall k :: k in a || k in b ==> k in e.view && Formed(k)
    requires forall k :: k in a ==> k !in b
    ensures var mid := VisitAll(e, baseDir, a, force, migrateEnabled, now);
            && (forall k :: k in b ==> k in mid.view)
            && VisitAll(mid, baseDir, b, force, migrateEnabled, now) ==
              VisitAll(e, baseDir, a + b, force, migrateEnabled, now)
  {
    hide Formed, PassView, PassCalls, PassPulls, Commits, Pulls;
    PassComposes(e.view, baseDir, a, b, force, migrateEnabled, now);
    PassCallsConcat(e.view, PassView(e.view, a, force, migrateEnabled, now), baseDir, a, b, force, migrateEnabled, now);
  }

  /** A graph node: the store, the calls it has made, and a log of what it accepted. */
  class GraphNode {
    const store: GraphItemMap
    const baseDir: string
    const migrateEnabled: bool
    const isPrint: char -> bool
    /** All FlushFile calls so far. */
    var flushed: seq<FlushCall>
    /** The keys of all PULL tasks sent so far. */
    var pulled: seq<string>
    ghost var log: map<string, seq<GraphItem>>

    ghost predicate Valid()
      reads this, store, store.A, store.lists.Values
    {
      store.Valid() && Sound(store.View(), flushed, log, baseDir)
    }

    ghost function State(): Effects
      reads this, store, store.lists.Values
    {
      Effects(store.View(), flushed, pulled)
    }

    constructor (store: GraphItemMap, baseDir: string, migrateEnabled: bool, isPrint: char -> bool)
      requires store.Valid() && store.View() == map[]
      ensures Valid() && this.store == store && flushed == [] && pulled == [] && log == map[]
    {
      this.store := store;
      this.baseDir := baseDir;
      this.migrateEnabled := migrateEnabled;
      this.isPrint := isPrint;
      flushed, pulled, log := [], [], map[];
      new;
      assert forall k :: Formed(k) ==> ConservedAt(store.View(), flushed, log, baseDir, k);
    }

    /** The three guards of handleItems. */
    method Admits(item: GraphItem) returns (ok: bool)
      requires store.Valid()
      ensures ok == Accepts(store.View(), item, isPrint)
    {
      hide FormRrdCacheKey, IsValidString;
      if !IsValidString(item.endpoint, isPrint) {
        return false;
      }
      if !IsValidString(item.counter, isPrint) {
        return false;
      }
      var first := store.First(KeyOf(item));
      if first.Some? && item.timestamp <= first.value.timestamp {
        return false;
      }
      return true;
    }

    /** One turn of the loop in handleItems. Whatever the item is, it is pushed or ignored; an item
        as the senders make it keeps the node's promises. */
    method HandleItem(item: GraphItem, rrdExists: bool)
      requires store.Valid()
      modifies this`log, store, store.A, store.lists.Values
      ensures store.Valid() && fresh(store.lists.Values - old(store.lists.Values))
      ensures Accepts(old(store.View()), item, isPrint) ==>
                && store.View() == AcceptView(old(store.View()), item, migrateEnabled, rrdExists)
                && log == AcceptLog(old(log), item)
      ensures !Accepts(old(store.View()), item, isPrint) ==> store.View() == old(store.View()) && log == old(log)
      ensures old(Valid()) && WellSent(item) ==> Valid()
    {
      hide GraphItemMap.Valid, GraphItemMap.View, Sound, WellSent, Accepts, KeyOf, AcceptLog, Pushed;
      var ok := Admits(item);
      if !ok {
        return;
      }
      if Valid() && WellSent(item) {
        AcceptSound(store.View(), flushed, log, baseDir, item, isPrint, migrateEnabled, rrdExists);
      }
      store.PushFront(KeyOf(item), item, migrateEnabled, rrdExists);
      log := AcceptLog(log, item);
    }

    /** A key that does not split is left alone; a checksum shorter than two characters panics. */
    method CommitByKey(key: string)
      requires store.Valid()
      requires SplitRrdCacheKey(key).Some? ==> |SplitRrdCacheKey(key).value.md5| >= 2
      modifies this`flushed, store.lists.Values
      ensures store.Valid() && store.lists == old(store.lists)
      ensures SplitRrdCacheKey(key).None? ==> store.View() == old(store.View()) && flushed == old(flushed)
      ensures SplitRrdCacheKey(key).Some? ==>
                var items := InMemory(old(store.View()), key);
                && store.View() == CommitView(old(store.View()), key)
                && flushed == old(flushed) + if items == [] then [] else [CallFor(baseDir, key, items)]
      ensures old(Valid()) && Formed(key) ==> Valid()
    {
      hide GraphItemMap.Valid, Sound, Formed, FileOf, SplitRrdCacheKey, Reversed, CommitCalls;
      if Valid() && Formed(key) {
        CommitCallsAre(store.View(), baseDir, key);
        CommitSound(store.View(), flushed, log, baseDir, key);
      }
      var parts := SplitRrdCacheKey(key);
      if parts.None? {
        return;
      }
      var filename := FileOf(baseDir, parts.value);
      var items := store.PopAll(key);
      if |items| == 0 {
        assert flushed + [] == flushed;
        return;
      }
      flushed := flushed + [FlushCall(filename, parts.value.md5, items)];
    }

    /** On a key as the store holds them, it makes exactly the calls of a commit. */
    method CommitFormed(key: string)
      requires Valid() && Formed(key)
      modifies this`flushed, store.lists.Values
      ensures Valid() && store.lists == old(store.lists)
      ensures store.View() == CommitView(old(store.View()), key)
      ensures flushed == old(flushed) + CommitCalls(old(store.View()), baseDir, key)
    {
      hide GraphItemMap.Valid, Sound, Formed, SplitRrdCacheKey, Reversed;
      CommitCallsAre(store.View(), baseDir, key);
      CommitByKey(key);
    }

    /** Sends a PULL task, unless the key has no item. The ring always yields a node here,
        because migration is switched off for an empty cluster. */
    method PullByKey(key: string)
      requires store.Valid()
      modifies this`pulled
      ensures pulled == old(pulled) + if key in store.View() && store.View()[key].items != [] then [key] else []
    {
      var item := store.First(key);
      if item.None? {
        return;
      }
      pulled := pulled + [key];
    }

    method TestFlush(key: string, now: int) returns (ok: bool)
      requires store.Valid()
      ensures ok == (key in store.View() && ShouldFlush(store.View()[key].items, now))
    {
      var count := store.ItemCnt(key);
      if count >= FLUSH_MIN_COUNT {
        return true;
      }
      var deadline := now - FLUSH_MAX_WAIT;
      var back := store.Back(key);
      if back.Some? && back.value.timestamp <= deadline {
        return true;
      }
      return false;
    }

    /** One key of a pass. */
    method FlushKey(key: string, force: bool, now: int)
      requires Valid() && key in store.View() && Formed(key)
      modifies this`flushed, this`pulled, store.lists.Values
      ensures Valid() && store.lists == old(store.lists)
      ensures State() == VisitKey(old(State()), baseDir, key, force, migrateEnabled, now)
    {
      hide GraphItemMap.Valid, GraphItemMap.View, Sound, Formed, CommitCalls, CommitView, ShouldFlush, Reversed;
      var flag := store.GetFlag(key);
      var should := TestFlush(key, now);
      if force == false && migrateEnabled && flag.value & GRAPH_F_MISS != 0 {
        PullByKey(key);
      } else if force || should {
        CommitFormed(key);
      }
    }

    /** One pass over the shard `idx`; `order` is the order in which the map yields its keys. */
    method FlushRRD(idx: nat, force: bool, now: int) returns (ghost order: seq<string>)
      requires Valid() && idx < store.Size
      modifies this`flushed, this`pulled, store.lists.Values
      ensures Valid() && store.lists == old(store.lists)
      ensures Distinct(order) && forall k :: k in order <==> k in old(store.View()) && store.Shard(k) == idx
      ensures forall k :: k in order ==> Formed(k)
      ensures State() == VisitAll(old(State()), baseDir, order, force, migrateEnabled, now)
    {
      hide GraphItemMap.Valid, Sound, Formed, VisitAll, VisitKey;
      var keys := store.KeysByIndex(idx);
      order := keys;
      ghost var before := State();
      KeysAreFormed(store.View(), flushed, log, baseDir);
      VisitNone(before, baseDir, force, migrateEnabled, now);
      hide Valid;
      for n := 0 to |keys|
        invariant Valid() && store.lists == old(store.lists)
        invariant State() == VisitAll(before, baseDir, keys[..n], force, migrateEnabled, now)
      {
        VisitNext(before, baseDir, keys, n, force, migrateEnabled, now);
        FlushKey(keys[n], force, now);
      }
      assert keys[..|keys|] == keys;
    }

    /** Every shard in turn. The progress line divides by a tenth of the shard count. */
    method FlushAll(force: bool, now: int) returns (ghost order: seq<string>)
      requires Valid() && store.Size >= 10
      modifies this`flushed, this`pulled, store.lists.Values
      ensures Valid() && store.lists == old(store.lists)
      ensures Distinct(order) && forall k :: k in order <==> k in old(store.View())
      ensures forall k :: k in order ==> Formed(k)
      ensures State() == VisitAll(old(State()), baseDir, order, force, migrateEnabled, now)
    {
      hide GraphItemMap.Valid, Sound, Formed, VisitAll, VisitKey;
      ghost var before := State();
      order := [];
      VisitNone(before, baseDir, force, migrateEnabled, now);
      hide Valid;
      for i := 0 to store.Size
        invariant Valid() && store.lists == old(store.lists)
        invariant Distinct(order) && forall k :: k in order <==> k in before.view && store.Shard(k) < i
        invariant forall k :: k in order ==> Formed(k)
        invariant State() == VisitAll(before, baseDir, order, force, migrateEnabled, now)
      {
        ghost var shardOrder := FlushRRD(i, force, now);
        VisitMore(before, baseDir, order, shardOrder, force, migrateEnabled, now);
        DistinctConcat(order, shardOrder);
        order := order + shardOrder;
      }
    }
  }
}
