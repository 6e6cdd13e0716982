/** What every single step of the migration protocol keeps (graph/rrdtool/migrate.go). */
module MigrationInvariant {
  import opened Wrappers
  import opened GraphModel
  import opened GraphStore
  import opened GraphFlush
  import opened Migration

  predicate Clean(flag: bv32) {
    flag & GRAPH_F_SENDING == 0 && flag & GRAPH_F_FETCHING == 0
  }

  lemma RaisingKeepsMiss(flag: bv32)
    ensures HasMiss(Raise(flag, GRAPH_F_SENDING)) == HasMiss(flag)
    ensures HasMiss(Raise(flag, GRAPH_F_FETCHING)) == HasMiss(flag)
  {
  }

  lemma LoweringSending(flag: bv32)
    ensures Clean(flag) ==> Lower(flag, GRAPH_F_SENDING) == flag
  {
  }

  lemma LoweringFetching(flag: bv32)
    ensures Clean(flag) ==> Lower(flag, GRAPH_F_FETCHING) == flag
  {
  }

  lemma LoweringMiss(flag: bv32)
    ensures !HasMiss(Lower(flag, GRAPH_F_MISS))
    ensures Clean(flag) ==> Clean(Lower(flag, GRAPH_F_MISS))
  {
  }

  /** Restoring the popped items puts them before everything that arrived meanwhile. */
  lemma RestoreOrder(l: ListState, items: seq<GraphItem>)
    ensures Reversed(l.items + Reversed(items)) == items + Reversed(l.items)
  {
    ReversedTwice(items);
    ReversedConcat(l.items, Reversed(items));
  }

  /** Items that a task holds outside the list. */
  function InFlight(s: Node): seq<GraphItem> {
    if |s.tasks| == 1 && s.tasks[0].Sending? then s.tasks[0].items else []
  }

  /** History is on this node, or the old node has said that there is none. */
  predicate Known(s: Node) { s.past.bornWithFile || s.past.installed || s.past.reported }

  /** What the protocol takes for it: an install error of the same kind counts as well. */
  predicate Settled(s: Node) { Known(s) || s.past.refused }

  /** What a task in flight says about the flag of the list and about the file. */
  ghost predicate TaskInv(s: Node, t: Task)
    requires s.list.Some?
  {
    match t
    case SendFlagged(flag) => HasMiss(flag) && Clean(flag) && HasMiss(s.list.value.flag)
    case Sending(flag, items, attempt) => HasMiss(flag) && Clean(flag) && HasMiss(s.list.value.flag) && attempt < 3
    case SendDone(flag) => HasMiss(flag) && Clean(flag) && HasMiss(s.list.value.flag)
    case Fetching(flag, attempt) => HasMiss(flag) && Clean(flag) && HasMiss(s.list.value.flag) && attempt < 3
    case FetchGot(flag) => HasMiss(flag) && Clean(flag) && HasMiss(s.list.value.flag)
    case FetchDone(flag, outcome) =>
      && Clean(flag) && HasMiss(s.list.value.flag)
      && (if outcome == Success then !HasMiss(flag) && s.file && s.past.installed else HasMiss(flag))
      && (outcome == NotExist ==> s.past.reported || s.past.refused)
    case TakenAsAbsent => HasMiss(s.list.value.flag) && Clean(s.list.value.flag) && (s.past.reported || s.past.refused)
    case Committing => s.list.value.flag == 0 && (s.past.reported || s.past.refused)
  }

  ghost predicate FlagInv(s: Node)
    requires s.list.Some?
  {
    && (s.tasks == [] ==> Clean(s.list.value.flag))
    && (!HasMiss(s.list.value.flag) ==> Settled(s))
    && (HasMiss(s.list.value.flag) && s.file && !s.past.partial ==>
          |s.tasks| == 1 && s.tasks[0].FetchDone? && s.tasks[0].outcome == Success)
  }

  /** No item is lost, duplicated or reordered. */
  predicate Balanced(s: Node) {
    s.accepted == s.out + InFlight(s) + Memory(s)
  }

  ghost predicate Protocol(s: Node) {
    && (s.local != [] ==> Settled(s))
    && (s.past.partial ==> s.file)
    && (s.list.None? ==> s.tasks == [] && !s.past.partial && s.out == s.local == [])
    && (s.list.Some? ==> FlagInv(s) && (s.tasks != [] ==> TaskInv(s, s.tasks[0])))
  }

  ghost predicate Inv(s: Node) {
    |s.tasks| <= 1 && Balanced(s) && Protocol(s)
  }

  lemma ReceiveInv(s: Node, item: GraphItem)
    requires Inv(s)
    ensures Inv(ReceiveStep(s, item))
  {
    ReceiveBalanced(s, item);
    ReceiveProtocol(s, item);
  }

  lemma ReceiveBalanced(s: Node, item: GraphItem)
    requires Inv(s)
    ensures Balanced(ReceiveStep(s, item))
  {
    hide FlagInv, TaskInv;
    if s.list.Some? {
      var l := s.list.value;
      assert ([item] + l.items)[1..] == l.items;
    }
  }

  lemma ReceiveProtocol(s: Node, item: GraphItem)
    requires Inv(s)
    ensures Protocol(ReceiveStep(s, item))
  {
    hide Balanced, Reversed;
  }

  lemma CommitInv(s: Node, created: bool)
    requires Inv(s) && InFlight(s) == [] && s.list.Some? && !HasMiss(s.list.value.flag)
    ensures Inv(CommitStep(s, created))
    ensures CommitStep(s, created).list.Some? && CommitStep(s, created).list.value.flag == s.list.value.flag
  {
  }

  lemma VisitInv(s: Node, now: int, busy: bool, created: bool)
    requires Inv(s) && |VisitStep(s, now, busy, created).tasks| <= 1
    ensures Inv(VisitStep(s, now, busy, created))
  {
    hide CommitStep, ShouldFlush, Reversed, Raise;
    if s.list.Some? {
      RaisingKeepsMiss(s.list.value.flag);
      if !Missing(s.list.value) {
        CommitInv(s, created);
      }
    }
  }

  // An action of the only task; `t` is that task.

  lemma SendFlaggedInv(s: Node, t: Task, rpc: RpcOutcome)
    requires Inv(s) && s.tasks == [t] && t.SendFlagged?
    ensures Inv(Only(SendAct(s, t, rpc)))
  {
    hide HasMiss, Clean, Raise, Lower, Reversed;
    NothingReversed();
  }

  lemma NothingReversed()
    ensures Reversed<GraphItem>([]) == []
  {
  }

  lemma SendingInv(s: Node, t: Task, rpc: RpcOutcome)
    requires Inv(s) && s.tasks == [t] && t.Sending?
    ensures Inv(Only(SendAct(s, t, rpc)))
  {
    hide HasMiss, Clean, Raise, Lower, Reversed;
    RestoreOrder(s.list.value, t.items);
  }

  lemma SendDoneInv(s: Node, t: Task, rpc: RpcOutcome)
    requires Inv(s) && s.tasks == [t] && t.SendDone?
    ensures Inv(Only(SendAct(s, t, rpc)))
  {
    hide HasMiss, Clean, Raise, Lower, Reversed;
    LoweringSending(t.flag);
  }

  lemma FetchingInv(s: Node, t: Task, rpc: RpcOutcome, write: WriteOutcome)
    requires Inv(s) && s.tasks == [t] && t.Fetching?
    ensures Inv(Only(FetchAct(s, t, rpc, write)))
  {
    hide HasMiss, Clean, Raise, Lower, Reversed;
  }

  lemma FetchGotInv(s: Node, t: Task, rpc: RpcOutcome, write: WriteOutcome)
    requires Inv(s) && s.tasks == [t] && t.FetchGot?
    ensures Inv(Only(FetchAct(s, t, rpc, write)))
  {
    hide HasMiss, Clean, Raise, Lower, Reversed;
    LoweringMiss(t.flag);
  }

  lemma FetchDoneInv(s: Node, t: Task, rpc: RpcOutcome, write: WriteOutcome)
    requires Inv(s) && s.tasks == [t] && t.FetchDone?
    ensures Inv(Only(FetchAct(s, t, rpc, write)))
  {
    hide HasMiss, Clean, Raise, Lower, Reversed;
    LoweringFetching(t.flag);
  }

  lemma AbsentInv(s: Node, t: Task)
    requires Inv(s) && s.tasks == [t] && t.TakenAsAbsent?
    ensures Inv(Only(Acted(WithFlag(s, 0), Some(Committing))))
  {
    hide Reversed;
  }

  lemma CommittingInv(s: Node, t: Task, created: bool)
    requires Inv(s) && s.tasks == [t] && t.Committing?
    ensures Inv(Only(Acted(CommitStep(s, created), None)))
  {
    CommitInv(s.(tasks := []), created);
  }

  lemma ActInv(s: Node, t: Task, rpc: RpcOutcome, write: WriteOutcome, created: bool)
    requires Inv(s) && s.tasks == [t]
    ensures Inv(Only(Act(s, t, rpc, write, created)))
  {
    hide Inv, CommitStep, SendAct, FetchAct, Only;
    match t
    case SendFlagged(_) => SendFlaggedInv(s, t, rpc);
    case Sending(_, _, _) => SendingInv(s, t, rpc);
    case SendDone(_) => SendDoneInv(s, t, rpc);
    case Fetching(_, _) => FetchingInv(s, t, rpc, write);
    case FetchGot(_) => FetchGotInv(s, t, rpc, write);
    case FetchDone(_, _) => FetchDoneInv(s, t, rpc, write);
    case TakenAsAbsent => AbsentInv(s, t);
    case Committing => CommittingInv(s, t, created);
  }

  lemma NextInv(s: Node, step: Step)
    requires Inv(s) && |Next(s, step).tasks| <= 1
    ensures Inv(Next(s, step))
  {
    hide Inv, Act, VisitStep, ReceiveStep, AdvanceStep, Only;
    match step
    case Receive(item) => ReceiveInv(s, item);
    case Visit(now, busy, created) => VisitInv(s, now, busy, created);
    case Advance(i, rpc, write, created) =>
      if i < |s.tasks| {
        InvTasks(s);
        AdvanceOnly(s, rpc, write, created);
        ActInv(s, s.tasks[0], rpc, write, created);
      }
  }

  lemma InvTasks(s: Node)
    requires Inv(s)
    ensures |s.tasks| <= 1
  {
  }

  lemma InitInv(file: bool)
    ensures Inv(Init(file))
  {
  }
}
