/** When local data is written although nobody has the history of a key (graph/rrdtool/migrate.go):
    the dispatcher takes every error of the kind "does not exist" for an absent remote file. */
module MigrationHistory {
  import opened Wrappers
  import opened GraphModel
  import opened GraphStore
  import opened GraphFlush
  import opened Migration
  import opened MigrationInvariant
  import opened MigrationSafety
  import opened MigrationLimits

  /** Local data was written, yet the file was never there, never installed, and the old node has
      not said that it has none. */
  predicate Forsaken(s: Node) { s.local != [] && !Known(s) }

  /** The step hands items to the local file: the dispatcher after a fetch taken for an absent
      file, or a pass that finds MISS cleared and the list due. */
  predicate HandsOver(s: Node, step: Step) {
    && Memory(s) != []
    && match step
       case Receive(_) => false
       case Visit(now, _, _) => s.list.Some? && !Missing(s.list.value) && ShouldFlush(s.list.value.items, now)
       case Advance(i, _, _, _) => i == 0 && s.tasks == [Committing]
  }

  /** Nothing is handed to the local file while MISS is set. */
  ghost predicate LocalIsCleared(s: Node) {
    s.local != [] ==> Cleared(s)
  }

  /** What one step does to the promise: history never becomes known after local data was
      written, so the promise is broken by handing over without it, and then for good. */
  ghost predicate HistoryKept(s: Node, s': Node, handsOver: bool) {
    && LocalIsCleared(s')
    && (Forsaken(s') <==> Forsaken(s) || (handsOver && !Known(s)))
  }

  lemma ActKeepsHistory(s: Node, t: Task, rpc: RpcOutcome, write: WriteOutcome, created: bool)
    requires Inv(s) && LocalIsCleared(s) && s.tasks == [t]
    ensures HistoryKept(s, Only(Act(s, t, rpc, write, created)), t == Committing && Memory(s) != [])
  {
    hide HasMiss, Clean, Lower, Reversed, Balanced;
    if t == Committing {
      ZeroIsCleared();
    }
  }

  lemma VisitKeepsHistory(s: Node, now: int, busy: bool, created: bool)
    requires Inv(s) && LocalIsCleared(s)
    ensures HistoryKept(s, VisitStep(s, now, busy, created), HandsOver(s, Visit(now, busy, created)))
  {
    hide HasMiss, Clean, Raise, Reversed, Balanced, ShouldFlush, TaskInv;
    if s.list.Some? {
      MissingIsMiss(s.list.value);
      RaisingKeepsMiss(s.list.value.flag);
    }
  }

  lemma ReceiveKeepsHistory(s: Node, item: GraphItem)
    requires Inv(s) && LocalIsCleared(s)
    ensures HistoryKept(s, ReceiveStep(s, item), false)
  {
    hide HasMiss, Clean, Reversed, Balanced, TaskInv;
  }

  /** Exactly which steps of a run break the promise. */
  lemma NextKeepsHistory(s: Node, step: Step)
    requires Inv(s) && LocalIsCleared(s)
    ensures HistoryKept(s, Next(s, step), HandsOver(s, step))
  {
    hide Inv, HistoryKept, LocalIsCleared, Act, Only, VisitStep, ReceiveStep, AdvanceStep, Memory;
    InvTasks(s);
    match step
    case Receive(item) => ReceiveKeepsHistory(s, item);
    case Visit(now, busy, created) => VisitKeepsHistory(s, now, busy, created);
    case Advance(i, rpc, write, created) =>
      if i < |s.tasks| {
        AdvanceOnly(s, rpc, write, created);
        ActKeepsHistory(s, s.tasks[0], rpc, write, created);
      } else {
        NothingKeepsHistory(s);
      }
  }

  lemma NothingKeepsHistory(s: Node)
    requires LocalIsCleared(s)
    ensures HistoryKept(s, s, false)
  {
  }

  /** In every single-flight run, local data is there only while MISS is cleared. */
  lemma {:induction false} LocalStaysCleared(file: bool, steps: seq<Step>)
    requires SingleFlight(Init(file), steps)
    ensures LocalIsCleared(Run(Init(file), steps))
  {
    hide Inv, HandsOver, Known, Next, Cleared;
    if steps != [] {
      var front := steps[..|steps| - 1];
      LocalStaysCleared(file, front);
      InitInv(file);
      RunKeepsInv(Init(file), front);
      NextKeepsHistory(Run(Init(file), front), steps[|steps| - 1]);
    }
  }

  // ----- Where it comes from -----

  /** The remote file has come, history is unknown, and the exclusive create is refused with an
      error of the kind "does not exist". */
  predicate Refuses(s: Node, step: Step) {
    && step.Advance? && step.i == 0 && |s.tasks| == 1 && s.tasks[0].FetchGot?
    && !s.file && !Known(s)
    && step.write.WriteErr? && step.write.isNotExist
  }

  /** The task is about to have MISS cleared, or it is cleared already. */
  ghost predicate Clearing(s: Node) {
    && s.list.Some?
    && (Cleared(s) || (|s.tasks| == 1 && ClearsNext(s.tasks[0])))
  }

  predicate ClearsNext(t: Task) {
    t.TakenAsAbsent? || t.Committing? || (t.FetchDone? && t.outcome == NotExist)
  }

  /** What holds of a node in whose run an install has (`refused`) or has not been refused. */
  ghost predicate RefusalInv(s: Node, refused: bool) {
    && (s.past.refused ==> s.list.Some? && (Known(s) || refused))
    && (refused ==> !Known(s) && Clearing(s))
  }

  lemma ActKeepsRefusal(s: Node, t: Task, rpc: RpcOutcome, write: WriteOutcome, created: bool, refused: bool)
    requires Inv(s) && s.tasks == [t] && RefusalInv(s, refused)
    ensures RefusalInv(Only(Act(s, t, rpc, write, created)), refused || Refuses(s, Advance(0, rpc, write, created)))
  {
    hide HasMiss, Clean, Lower, Reversed, Balanced;
    ZeroIsCleared();
    if t.FetchDone? || t.SendDone? {
      LoweringTaskFlags(t.flag);
    }
  }

  lemma VisitKeepsRefusal(s: Node, now: int, busy: bool, created: bool, refused: bool)
    requires Inv(s) && RefusalInv(s, refused) && |VisitStep(s, now, busy, created).tasks| <= 1
    ensures RefusalInv(VisitStep(s, now, busy, created), refused)
  {
    hide HasMiss, Clean, Raise, Reversed, Balanced, ShouldFlush, TaskInv;
    if s.list.Some? {
      MissingIsMiss(s.list.value);
      RaisingKeepsMiss(s.list.value.flag);
    }
  }

  lemma ReceiveKeepsRefusal(s: Node, item: GraphItem, refused: bool)
    requires Inv(s) && RefusalInv(s, refused)
    ensures RefusalInv(ReceiveStep(s, item), refused)
  {
    hide HasMiss, Clean, Reversed, Balanced, TaskInv;
  }

  lemma NextKeepsRefusal(s: Node, step: Step, refused: bool)
    requires Inv(s) && RefusalInv(s, refused) && |Next(s, step).tasks| <= 1
    ensures RefusalInv(Next(s, step), refused || Refuses(s, step))
  {
    hide Inv, RefusalInv, Act, Only, VisitStep, ReceiveStep, AdvanceStep, Known;
    InvTasks(s);
    match step
    case Receive(item) => ReceiveKeepsRefusal(s, item, refused);
    case Visit(now, busy, created) => VisitKeepsRefusal(s, now, busy, created, refused);
    case Advance(i, rpc, write, created) =>
      if i < |s.tasks| {
        AdvanceOnly(s, rpc, write, created);
        ActKeepsRefusal(s, s.tasks[0], rpc, write, created, refused);
      }
  }

  ghost predicate RefusesAt(s: Node, steps: seq<Step>, k: int)
    requires 0 <= k < |steps|
  {
    Refuses(Run(s, steps[..k]), steps[k])
  }

  lemma {:induction false} RunKeepsRefusal(file: bool, steps: seq<Step>)
    requires SingleFlight(Init(file), steps)
    ensures RefusalInv(Run(Init(file), steps), exists k :: 0 <= k < |steps| && RefusesAt(Init(file), steps, k))
  {
    hide Inv, RefusalInv, Refuses, Next;
    var s0 := Init(file);
    if steps == [] {
      FreshRefusal(file);
    } else {
      var n := |steps| - 1;
      var front := steps[..n];
      RunKeepsRefusal(file, front);
      InitInv(file);
      RunKeepsInv(s0, front);
      forall k | 0 <= k < n ensures RefusesAt(s0, front, k) <==> RefusesAt(s0, steps, k) {
        assert front[..k] == steps[..k];
      }
      var before := exists k :: 0 <= k < n && RefusesAt(s0, front, k);
      NextKeepsRefusal(Run(s0, front), steps[n], before);
      assert RefusesAt(s0, steps, n) <==> Refuses(Run(s0, front), steps[n]);
      assert (exists k :: 0 <= k <= n && RefusesAt(s0, steps, k)) <==> before || RefusesAt(s0, steps, n);
    }
  }

  lemma FreshRefusal(file: bool)
    ensures RefusalInv(Init(file), false)
  {
  }

  /** At the end of any single-flight run local data stands there without the history if and only if
      there is local data and the install of some fetched file was refused in this way. */
  lemma ForsakenIff(file: bool, steps: seq<Step>)
    requires SingleFlight(Init(file), steps)
    ensures Forsaken(Run(Init(file), steps)) <==>
            && Run(Init(file), steps).local != []
            && exists k :: 0 <= k < |steps| && RefusesAt(Init(file), steps, k)
  {
    hide RefusesAt, Run, SingleFlight;
    RunKeepsRefusal(file, steps);
    LocalDataIsSettled(Run(Init(file), steps));
  }

  /** One such task, step by step: having got the remote file it clears MISS without the
      history being anywhere if and only if the exclusive create fails with an error of the kind
      "does not exist". */
  lemma RefusedInstallClearsIff(s: Node, flag: bv32, write: WriteOutcome)
    requires Inv(s) && s.tasks == [FetchGot(flag)] && !Known(s)
    ensures var s1 := Only(Act(s, FetchGot(flag), RpcOk, write, false));
            var s2 := Only(Act(s1, s1.tasks[0], RpcOk, write, false));
            var s3 := if s2.tasks == [] then s2 else Only(Act(s2, s2.tasks[0], RpcOk, write, false));
            Cleared(s3) && !Known(s3) <==> !s.file && write.WriteErr? && write.isNotExist
  {
    hide HasMiss, Clean, Lower, Reversed, Balanced;
    ZeroIsCleared();
    LoweringFetching(flag);
  }

  /** Such a run: the old node delivers its file, the install fails, and the only item goes to a
      new local file. */
  lemma ForsakenHappens(item: GraphItem) returns (steps: seq<Step>)
    ensures SingleFlight(Init(false), steps)
    ensures forall step :: step in steps ==> Quiet(step)
    ensures var s := Run(Init(false), steps);
            s.tasks == [] && s.local == [item] && Forsaken(s)
  {
    hide Run, SingleFlight, Lower, Reversed;
    var s0 := Init(false);
    var s2 := Fresh(9, [item], [Fetching(1, 0)], [item]);
    var s3 := s2.(tasks := [FetchGot(1)]);
    var s4 := s3.(past := NOTHING.(refused := true), tasks := [FetchDone(1, NotExist)]);
    var s5 := WithFlag(s4, Lower(1, GRAPH_F_FETCHING)).(tasks := [TakenAsAbsent]);
    var s6 := WithFlag(s5, 0).(tasks := [Committing]);
    steps := FetchStarts(item);
    steps := RunAct(s0, steps, s2, Fetching(1, 0), RpcOk, WriteOk);
    steps := RunAct(s0, steps, s3, FetchGot(1), RpcOk, WriteErr(true, false));
    steps := RunAct(s0, steps, s4, FetchDone(1, NotExist), RpcOk, WriteOk);
    steps := RunAct(s0, steps, s5, TakenAsAbsent, RpcOk, WriteOk);
    CommitsOne(s6, item);
    steps := RunAct(s0, steps, s6, Committing, RpcOk, WriteOk);
  }

  lemma CommitsOne(s: Node, item: GraphItem)
    requires s.list.Some? && s.list.value.items == [item] && s.local == []
    ensures CommitStep(s, false).local == [item] && CommitStep(s, false).past == s.past
  {
    assert Memory(s) == [item];
  }
}
