/** The bodies of the migration tasks (graph/rrdtool/migrate.go), run without interruption
    over the shared store, and their agreement with the interleaved protocol. */
module MigrateWorker {
  import opened Wrappers
  import opened GraphModel
  import opened CacheKey
  import opened GraphStore
  import opened GraphFlush
  import opened Migration

  /** A list after send_data: emptied when some attempt succeeded, otherwise as before. */
  function AfterSend(l: ListState, calls: seq<RpcOutcome>): ListState {
    ListState(Lower(l.flag, GRAPH_F_SENDING), if RpcOk in calls then [] else l.items)
  }

  /** How the install of a fetched file ends. */
  function InstallResult(file: bool, write: WriteOutcome): Fetched {
    if file then OtherErr else if write.WriteOk? then Success else if write.isNotExist then NotExist else OtherErr
  }

  /** The last attempt decides how a failed fetch is classified. */
  function FetchResult(file: bool, calls: seq<RpcOutcome>, write: WriteOutcome): Fetched
    requires |calls| == 3
  {
    if RpcOk in calls then InstallResult(file, write)
    else if calls[2].isNotExist then NotExist
    else OtherErr
  }

  /** A list after fetch_rrd: only a successful install lowers MISS. */
  function AfterFetch(l: ListState, result: Fetched): ListState {
    ListState(Lower(if result == Success then Lower(l.flag, GRAPH_F_MISS) else l.flag, GRAPH_F_FETCHING), l.items)
  }

  /** The retry loop: at most three attempts, stopping at the first success. */
  method TryThreeTimes(calls: seq<RpcOutcome>) returns (last: RpcOutcome)
    requires |calls| == 3
    ensures last == if RpcOk in calls then RpcOk else calls[2]
  {
    var i := 0;
    last := RpcErr(false);
    while i < 3
      invariant 0 <= i <= 3 && RpcOk !in calls[..i]
      invariant i > 0 ==> last == calls[i - 1]
    {
      last := calls[i];
      if last.RpcOk? {
        return;
      }
      i := i + 1;
    }
    assert calls[..3] == calls;
  }

  lemma RestoresAll(items: seq<GraphItem>)
    ensures [] + Reversed(Reversed(items)) == items
  {
    ReversedTwice(items);
  }

  /** The middle of send_data: pop everything, try to send it, put it back on failure. */
  method Deliver(store: GraphItemMap, key: string, calls: seq<RpcOutcome>) returns (err: bool, sent: seq<GraphItem>)
    requires store.Valid() && |calls| == 3 && key in store.View()
    modifies if key in store.lists then {store.lists[key]} else {}
    ensures store.Valid()
    ensures var l := old(store.View())[key];
            && store.View() == old(store.View())[key := ListState(l.flag, if RpcOk in calls then [] else l.items)]
            && sent == (if RpcOk in calls then Reversed(l.items) else [])
            && err == (l.items != [] && RpcOk !in calls)
  {
    hide GraphItemMap.Valid, GraphItemMap.View, Reversed;
    ghost var l := store.View()[key];
    RestoresAll(l.items);
    sent, err := [], false;
    var items := store.PopAll(key);
    if |items| != 0 {
      var last := TryThreeTimes(calls);
      err := !last.RpcOk?;
      if err {
        var _ := store.PushAll(key, items);
      } else {
        sent := items;
      }
    }
  }

  /** Only the last of two writes to a key shows. */
  lemma LastWrite(view: StoreView, key: string, a: ListState, b: ListState)
    requires key in view
    ensures view[key := a][key := b] == view[key := b]
    ensures view[key := a][key] == a && key in view[key := a]
  {
  }

  /** send_data. `calls` are the outcomes of the attempts; `sent` is what the old node
      acknowledged. */
  method SendData(store: GraphItemMap, key: string, calls: seq<RpcOutcome>) returns (err: bool, sent: seq<GraphItem>)
    requires store.Valid() && |calls| == 3
    modifies if key in store.lists then {store.lists[key]} else {}
    ensures store.Valid()
    ensures key !in old(store.View()) ==> err && sent == [] && store.View() == old(store.View())
    ensures key in old(store.View()) ==>
              var l := old(store.View())[key];
              && store.View() == old(store.View())[key := AfterSend(l, calls)]
              && sent == (if RpcOk in calls then Reversed(l.items) else [])
              && err == (l.items != [] && RpcOk !in calls)
  {
    hide GraphItemMap.Valid, GraphItemMap.View, Reversed, Raise, Lower;
    var found := store.GetFlag(key);
    if found.None? {
      return true, [];
    }
    var flag := found.value;
    ghost var view := store.View();
    ghost var l := view[key];
    var _ := store.SetFlag(key, Raise(flag, GRAPH_F_SENDING));
    ghost var raised := ListState(Raise(flag, GRAPH_F_SENDING), l.items);
    LastWrite(view, key, raised, l);
    err, sent := Deliver(store, key, calls);
    ghost var delivered := raised.(items := if RpcOk in calls then [] else l.items);
    LastWrite(view, key, raised, delivered);
    var _ := store.SetFlag(key, Lower(flag, GRAPH_F_SENDING));
    LastWrite(view, key, delivered, AfterSend(l, calls));
  }

  /** fetch_rrd. `file` says whether the local file is in the way of the exclusive create. */
  method FetchRrd(store: GraphItemMap, key: string, file: bool, calls: seq<RpcOutcome>, write: WriteOutcome)
    returns (result: Fetched)
    requires store.Valid() && |calls| == 3
    modifies if key in store.lists then {store.lists[key]} else {}
    ensures store.Valid()
    ensures key !in old(store.View()) ==> result == OtherErr && store.View() == old(store.View())
    ensures key in old(store.View()) ==>
              && result == FetchResult(file, calls, write)
              && store.View() == old(store.View())[key := AfterFetch(old(store.View())[key], result)]
  {
    hide GraphItemMap.Valid, GraphItemMap.View, Raise, Lower;
    var found := store.GetFlag(key);
    if found.None? {
      return OtherErr;
    }
    var flag := found.value;
    ghost var view := store.View();
    ghost var l := view[key];
    var _ := store.SetFlag(key, Raise(flag, GRAPH_F_FETCHING));
    ghost var raised := ListState(Raise(flag, GRAPH_F_FETCHING), l.items);
    LastWrite(view, key, raised, l);
    var last := TryThreeTimes(calls);
    if last.RpcOk? {
      if file {
        result := OtherErr;
      } else if write.WriteOk? {
        result := Success;
        flag := Lower(flag, GRAPH_F_MISS);
      } else {
        result := if write.isNotExist then NotExist else OtherErr;
      }
    } else {
      result := if last.isNotExist then NotExist else OtherErr;
    }
    var _ := store.SetFlag(key, Lower(flag, GRAPH_F_FETCHING));
    LastWrite(view, key, raised, AfterFetch(l, result));
  }

  /** The PULL branch of net_task_worker: while a pass is running late the items are sent to
      the old node, otherwise the history is fetched; an error classified as not-exist, be it the
      last answer of the old node or the failure of the local install, commits the items. */
  method PullTask(node: GraphNode, key: string, busy: bool, file: bool, calls: seq<RpcOutcome>, write: WriteOutcome)
    returns (sent: seq<GraphItem>)
    requires node.Valid() && Formed(key) && key in node.store.View() && |calls| == 3
    modifies node`flushed, node.store.lists.Values
    ensures node.store.Valid() && node.store.lists == old(node.store.lists)
    ensures var before := old(node.store.View());
            var result := FetchResult(file, calls, write);
            if busy then
              && node.store.View() == before[key := AfterSend(before[key], calls)]
              && node.flushed == old(node.flushed)
              && sent == (if RpcOk in calls then Reversed(before[key].items) else [])
            else if result == NotExist then
              && node.store.View() == before[key := ListState(0, [])]
              && node.flushed == old(node.flushed) + CommitCalls(before, node.baseDir, key)
              && sent == []
            else
              && node.store.View() == before[key := AfterFetch(before[key], result)]
              && node.flushed == old(node.flushed)
              && sent == []
    ensures !busy ==> node.Valid()
  {
    hide GraphItemMap.Valid, GraphItemMap.View, Sound, Formed, Reversed, AfterSend, FetchResult, CommitCalls, Lower;
    sent := [];
    ghost var before := node.store.View();
    if busy {
      var _, acked := SendData(node.store, key, calls);
      sent := acked;
    } else {
      var result := FetchRrd(node.store, key, file, calls, write);
      FlagsKeepSound(before, node.store.View(), node.flushed, node.log, node.baseDir, key);
      if result == NotExist {
        var _ := node.store.SetFlag(key, 0);
        FlagsKeepSound(before, node.store.View(), node.flushed, node.log, node.baseDir, key);
        CommitOfSameItems(before, node.store.View(), node.baseDir, key);
        node.CommitFormed(key);
      }
    }
  }

  /** Flags take no part in what a node promises about items. */
  lemma FlagsKeepSound(before: StoreView, after: StoreView, calls: seq<FlushCall>, log: map<string, seq<GraphItem>>,
                       baseDir: string, key: string)
    requires Sound(before, calls, log, baseDir) && key in before && key in after
    requires after == before[key := after[key]] && after[key].items == before[key].items
    ensures Sound(after, calls, log, baseDir)
  {
    hide Formed, Reversed, KeyFile, HandedTo, OrderedList;
    forall k | Formed(k) ensures ConservedAt(after, calls, log, baseDir, k) {
      assert ConservedAt(before, calls, log, baseDir, k);
    }
  }

  lemma CommitOfSameItems(before: StoreView, after: StoreView, baseDir: string, key: string)
    requires Formed(key) && key in before && key in after && after[key].items == before[key].items
    ensures CommitCalls(after, baseDir, key) == CommitCalls(before, baseDir, key)
  {
    hide Formed, Reversed, CommitCalls;
    CommitCallsAre(before, baseDir, key);
    CommitCallsAre(after, baseDir, key);
  }

  // ----- Agreement with the protocol -----

  /** The only task runs on, one answer per action, until it is done. */
  function Alone(s: Node, rpcs: seq<RpcOutcome>, write: WriteOutcome): Node
    decreases |rpcs|
  {
    if rpcs == [] || s.tasks == [] then s
    else Alone(Next(s, Advance(0, rpcs[0], write, true)), rpcs[1..], write)
  }

  lemma AloneStep(s: Node, t: Task, rpcs: seq<RpcOutcome>, write: WriteOutcome)
    requires rpcs != [] && s.tasks == [t]
    ensures Alone(s, rpcs, write) == Alone(Only(Act(s, t, rpcs[0], write, true)), rpcs[1..], write)
  {
    hide Act, Only, AdvanceStep;
    AdvanceOnly(s, rpcs[0], write, true);
  }

  lemma AloneDone(s: Node, rpcs: seq<RpcOutcome>, write: WriteOutcome)
    requires s.tasks == []
    ensures Alone(s, rpcs, write) == s
  {
  }

  lemma SendCloses(s: Node, flag: bv32, rpcs: seq<RpcOutcome>, write: WriteOutcome)
    requires s.list.Some? && s.tasks == [SendDone(flag)] && rpcs != []
    ensures Alone(s, rpcs, write) == WithFlag(s, Lower(flag, GRAPH_F_SENDING)).(tasks := [])
  {
    hide Lower, Alone;
    AloneStep(s, SendDone(flag), rpcs, write);
    AloneDone(WithFlag(s, Lower(flag, GRAPH_F_SENDING)).(tasks := []), rpcs[1..], write);
  }

  /** The attempts from number `n` on; `rpcs` holds their answers and one more. */
  lemma {:induction false} SendRetries(s: Node, flag: bv32, items: seq<GraphItem>, n: nat, rpcs: seq<RpcOutcome>,
                                       write: WriteOutcome)
    requires s.list.Some? && s.list.value.items == [] && s.tasks == [Sending(flag, items, n)]
    requires n < 3 && |rpcs| == 4 - n
    ensures var ok := RpcOk in rpcs[..3 - n];
            Alone(s, rpcs, write) ==
            s.(list := Some(ListState(Lower(flag, GRAPH_F_SENDING), if ok then [] else Reversed(items))),
               out := if ok then s.out + items else s.out,
               tasks := [])
    decreases 3 - n
  {
    hide Lower, Reversed, Alone;
    var t := Sending(flag, items, n);
    AloneStep(s, t, rpcs, write);
    var rest := rpcs[1..];
    assert rpcs[..3 - n] == [rpcs[0]] + rest[..2 - n];
    var s1 := Only(Act(s, t, rpcs[0], write, true));
    if rpcs[0].RpcOk? {
      SendCloses(s1, flag, rest, write);
    } else if n + 1 < 3 {
      SendRetries(s1, flag, items, n + 1, rest, write);
    } else {
      assert [] + Reversed(items) == Reversed(items);
      SendCloses(s1, flag, rest, write);
    }
  }

  /** Run without interruption, the send task of the protocol does what send_data does. */
  lemma SendTaskIsSendData(s: Node, calls: seq<RpcOutcome>, write: WriteOutcome)
    requires s.list.Some? && s.tasks == [] && |calls| == 3
    ensures var end := Alone(StartTask(s, true), [RpcOk] + calls + [RpcOk], write);
            && end.tasks == []
            && end.list == Some(AfterSend(s.list.value, calls))
            && end.out == s.out + (if RpcOk in calls then Memory(s) else [])
  {
    hide Raise, Lower, Reversed, Alone;
    var l := s.list.value;
    var rpcs := [RpcOk] + calls + [RpcOk];
    var t := SendFlagged(l.flag);
    var s1 := StartTask(s, true);
    assert s1.tasks == [t];
    AloneStep(s1, t, rpcs, write);
    var rest := rpcs[1..];
    assert rest == calls + [RpcOk] && rest[..3] == calls;
    var s2 := Only(Act(s1, t, RpcOk, write, true));
    ReversedTwice(l.items);
    if Memory(s) == [] {
      SendCloses(s2, l.flag, rest, write);
    } else {
      SendRetries(s2, l.flag, Memory(s), 0, rest, write);
    }
  }

  lemma AbsentCommits(s: Node, rpcs: seq<RpcOutcome>, write: WriteOutcome)
    requires s.list.Some? && s.tasks == [TakenAsAbsent] && |rpcs| >= 2
    ensures var end := Alone(s, rpcs, write); end.tasks == [] && end.list == Some(ListState(0, []))
  {
    hide Reversed, Alone;
    AloneStep(s, TakenAsAbsent, rpcs, write);
    var s1 := WithFlag(s, 0).(tasks := [Committing]);
    AloneStep(s1, Committing, rpcs[1..], write);
    AloneDone(CommitStep(s1, true).(tasks := []), rpcs[1..][1..], write);
    NothingReversed(s1.list.value);
  }

  lemma NothingReversed(l: ListState)
    ensures Reversed(l.items) == [] ==> l.items == []
  {
  }

  /** From the last store of the flag on. */
  lemma FetchCloses(s: Node, flag: bv32, outcome: Fetched, rpcs: seq<RpcOutcome>, write: WriteOutcome)
    requires s.list.Some? && s.tasks == [FetchDone(flag, outcome)] && |rpcs| >= 3
    ensures var end := Alone(s, rpcs, write);
            && end.tasks == []
            && end.list == Some(if outcome == NotExist then ListState(0, [])
                                else ListState(Lower(flag, GRAPH_F_FETCHING), s.list.value.items))
  {
    hide Lower, Alone, Reversed;
    var t := FetchDone(flag, outcome);
    AloneStep(s, t, rpcs, write);
    var s1 := Only(Act(s, t, rpcs[0], write, true));
    if outcome == NotExist {
      AbsentCommits(s1, rpcs[1..], write);
    } else {
      AloneDone(s1, rpcs[1..], write);
    }
  }

  /** The list after a fetch that read `flag`. */
  function ListAfter(l: ListState, flag: bv32, result: Fetched): ListState {
    if result == NotExist then ListState(0, [])
    else ListState(Lower(if result == Success then Lower(flag, GRAPH_F_MISS) else flag, GRAPH_F_FETCHING), l.items)
  }

  lemma InstallCloses(s: Node, flag: bv32, rpcs: seq<RpcOutcome>, write: WriteOutcome)
    requires s.list.Some? && s.tasks == [FetchGot(flag)] && |rpcs| >= 4
    ensures var end := Alone(s, rpcs, write);
            end.tasks == [] && end.list == Some(ListAfter(s.list.value, flag, InstallResult(s.file, write)))
  {
    hide Lower, Alone, Reversed;
    AloneStep(s, FetchGot(flag), rpcs, write);
    var s1 := Only(Act(s, FetchGot(flag), rpcs[0], write, true));
    FetchCloses(s1, s1.tasks[0].flag, s1.tasks[0].outcome, rpcs[1..], write);
  }

  lemma {:induction false} FetchRetries(s: Node, flag: bv32, n: nat, rpcs: seq<RpcOutcome>, write: WriteOutcome)
    requires s.list.Some? && s.tasks == [Fetching(flag, n)] && n < 3 && |rpcs| == 7 - n
    ensures var end := Alone(s, rpcs, write);
            var result := if RpcOk in rpcs[..3 - n] then InstallResult(s.file, write)
                          else if rpcs[2 - n].isNotExist then NotExist else OtherErr;
            end.tasks == [] && end.list == Some(ListAfter(s.list.value, flag, result))
    decreases 3 - n
  {
    hide Lower, Alone, Reversed, InstallResult;
    var t := Fetching(flag, n);
    AloneStep(s, t, rpcs, write);
    var rest := rpcs[1..];
    assert rpcs[..3 - n] == [rpcs[0]] + rest[..2 - n];
    var s1 := Only(Act(s, t, rpcs[0], write, true));
    if rpcs[0].RpcOk? {
      InstallCloses(s1, flag, rest, write);
    } else if n + 1 < 3 {
      FetchRetries(s1, flag, n + 1, rest, write);
    } else {
      FetchCloses(s1, flag, s1.tasks[0].outcome, rest, write);
    }
  }

  /** Run without interruption, the fetch task does what fetch_rrd and the dispatcher do. */
  lemma FetchTaskIsFetchRrd(s: Node, calls: seq<RpcOutcome>, write: WriteOutcome)
    requires s.list.Some? && s.tasks == [] && |calls| == 3
    ensures var end := Alone(StartTask(s, false), calls + [RpcOk, RpcOk, RpcOk, RpcOk], write);
            var result := FetchResult(s.file, calls, write);
            && end.tasks == []
            && end.list == Some(if result == NotExist then ListState(0, []) else AfterFetch(s.list.value, result))
  {
    hide Raise, Lower, Alone;
    var l := s.list.value;
    var rpcs := calls + [RpcOk, RpcOk, RpcOk, RpcOk];
    var s1 := StartTask(s, false);
    assert s1.tasks == [Fetching(l.flag, 0)];
    assert rpcs[..3] == calls;
    FetchRetries(s1, l.flag, 0, rpcs, write);
  }
}
