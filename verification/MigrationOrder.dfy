/** When a list that was ordered in time stops being so: the order guard sees only what has been
    received since the items were taken out (graph/rrdtool/migrate.go, graph/api/graph.go). */
module MigrationOrder {
  import opened Wrappers
  import opened GraphModel
  import opened GraphStore
  import opened GraphFlush
  import opened Migration
  import opened MigrationInvariant
  import opened MigrationSafety
  import opened MigrationLimits

  ghost predicate Descending(items: seq<GraphItem>) {
    forall i, j :: 0 <= i < j < |items| ==> items[i].timestamp > items[j].timestamp
  }

  /** The list is ordered, newest first, and so is what a sender has taken out of it. */
  ghost predicate InOrder(s: Node) {
    && (s.list.Some? ==> Descending(s.list.value.items))
    && (|s.tasks| == 1 && s.tasks[0].Sending? ==> Descending(Reversed(s.tasks[0].items)))
  }

  /** The step of send_data that puts the items back after its third failed attempt. */
  predicate Restores(s: Node, step: Step) {
    && step.Advance? && step.i == 0 && step.rpc.RpcErr?
    && |s.tasks| == 1 && s.tasks[0].Sending? && s.tasks[0].attempt + 1 >= 3
  }

  /** The oldest item received meanwhile is not newer than the newest one put back. */
  predicate Overtaken(s: Node) {
    && |s.tasks| == 1 && s.tasks[0].Sending?
    && var held := s.tasks[0].items;
    && s.list.Some? && s.list.value.items != [] && held != []
    && s.list.value.items[|s.list.value.items| - 1].timestamp <= held[|held| - 1].timestamp
  }

  /** Concatenation keeps the order exactly when it is kept at the seam. */
  lemma SeamDecides(received: seq<GraphItem>, popped: seq<GraphItem>)
    requires Descending(received) && Descending(popped)
    ensures Descending(received + popped) <==>
            (received == [] || popped == [] || received[|received| - 1].timestamp > popped[0].timestamp)
  {
    var all := received + popped;
    if received != [] && popped != [] {
      assert all[|received| - 1] == received[|received| - 1] && all[|received|] == popped[0];
    }
  }

  lemma RestoreKeepsOrderIff(s: Node, t: Task, rpc: RpcOutcome)
    requires InOrder(s) && s.list.Some? && s.tasks == [t] && t.Sending? && t.attempt + 1 >= 3 && rpc.RpcErr?
    ensures InOrder(Only(SendAct(s, t, rpc))) <==> !Overtaken(s)
  {
    hide Reversed, Descending;
    SeamDecides(s.list.value.items, Reversed(t.items));
    if t.items != [] {
      ReversedAt(t.items, 0);
    }
    NothingBack();
  }

  lemma NothingBack()
    ensures Reversed<GraphItem>([]) == []
    ensures Descending([])
  {
  }

  lemma ActInOrder(s: Node, t: Task, rpc: RpcOutcome, write: WriteOutcome, created: bool)
    requires Inv(s) && InOrder(s) && s.tasks == [t]
    ensures InOrder(Only(Act(s, t, rpc, write, created))) <==>
            !(t.Sending? && t.attempt + 1 >= 3 && rpc.RpcErr? && Overtaken(s))
  {
    hide Reversed, Descending, HasMiss, Clean, Lower, Balanced, Overtaken;
    NothingBack();
    if t.SendFlagged? {
      ReversedTwice(s.list.value.items);
    } else if t.Sending? && t.attempt + 1 >= 3 && rpc.RpcErr? {
      RestoreKeepsOrderIff(s, t, rpc);
    }
  }

  lemma ReceiveInOrder(s: Node, item: GraphItem)
    requires InOrder(s)
    ensures InOrder(ReceiveStep(s, item))
  {
  }

  lemma VisitInOrder(s: Node, now: int, busy: bool, created: bool)
    requires InOrder(s) && |VisitStep(s, now, busy, created).tasks| <= 1
    ensures InOrder(VisitStep(s, now, busy, created))
  {
    hide Reversed, ShouldFlush, Missing, Raise;
  }

  /** In a single-flight run, a step from an ordered node breaks the order if and only if it is the
      restoring step and the oldest item received meanwhile is not newer than the newest one that
      is put back. */
  lemma OrderBreaksIff(s: Node, step: Step)
    requires Inv(s) && InOrder(s) && |Next(s, step).tasks| <= 1
    ensures InOrder(Next(s, step)) <==> !(Restores(s, step) && Overtaken(s))
  {
    hide Inv, InOrder, Act, Only, VisitStep, ReceiveStep, AdvanceStep, Overtaken;
    InvTasks(s);
    match step
    case Receive(item) => ReceiveInOrder(s, item);
    case Visit(now, busy, created) => VisitInOrder(s, now, busy, created);
    case Advance(i, rpc, write, created) =>
      if i < |s.tasks| {
        AdvanceOnly(s, rpc, write, created);
        ActInOrder(s, s.tasks[0], rpc, write, created);
      }
  }

  ghost predicate OrderBreaksAt(s: Node, steps: seq<Step>, k: int)
    requires 0 <= k < |steps|
  {
    var before := Run(s, steps[..k]);
    Restores(before, steps[k]) && Overtaken(before)
  }

  /** A run stays ordered throughout if and only if no such step occurs in it. */
  lemma {:induction false} RunInOrderIff(file: bool, steps: seq<Step>)
    requires SingleFlight(Init(file), steps)
    ensures (forall k :: 0 <= k <= |steps| ==> InOrder(Run(Init(file), steps[..k]))) <==>
            (forall k :: 0 <= k < |steps| ==> !OrderBreaksAt(Init(file), steps, k))
  {
    hide Inv, InOrder, Restores, Overtaken, Next;
    var s0 := Init(file);
    if steps == [] {
      FreshInOrder(file);
      assert steps[..0] == [];
    } else {
      var n := |steps| - 1;
      var front := steps[..n];
      RunInOrderIff(file, front);
      InitInv(file);
      RunKeepsInv(s0, front);
      forall k | 0 <= k <= n ensures front[..k] == steps[..k] {
      }
      forall k | 0 <= k < n ensures OrderBreaksAt(s0, front, k) <==> OrderBreaksAt(s0, steps, k) {
        assert front[..k] == steps[..k];
      }
      assert steps[..n + 1] == steps && Run(s0, steps) == Next(Run(s0, front), steps[n]);
      if InOrder(Run(s0, front)) {
        OrderBreaksIff(Run(s0, front), steps[n]);
      }
      assert OrderBreaksAt(s0, steps, n) <==> Restores(Run(s0, front), steps[n]) && Overtaken(Run(s0, front));
    }
  }

  lemma FreshInOrder(file: bool)
    ensures InOrder(Init(file))
  {
  }

  /** A disordered list is reachable: an item that is older than the one being sent arrives while
      the list is empty, and the send fails. */
  lemma DisorderHappens(a: GraphItem, b: GraphItem) returns (steps: seq<Step>)
    requires a.timestamp > b.timestamp
    ensures SingleFlight(Init(false), steps)
    ensures var s := Run(Init(false), steps);
            s.tasks == [] && s.list.Some? && s.list.value.items == [b, a] && !InOrder(s)
  {
    hide Run, SingleFlight, Lower;
    var s0 := Init(false);
    var no := RpcErr(false);
    steps := SendStarts(a);
    var s2 := Fresh(5, [a], [SendFlagged(1)], [a]);
    assert Memory(s2) == [a];
    steps := RunAct(s0, steps, s2, SendFlagged(1), no, WriteOk);
    var s3 := Fresh(5, [], [Sending(1, [a], 0)], [a]);
    RunSnoc(s0, steps, Receive(b));
    steps := steps + [Receive(b)];
    LateItem(a, b);
    steps := SendFails(s0, steps, a, b);
    assert !Descending([b, a]) by {
      assert [b, a][0] == b && [b, a][1] == a;
    }
  }

  lemma SendFails(s0: Node, steps0: seq<Step>, a: GraphItem, b: GraphItem) returns (steps: seq<Step>)
    requires SingleFlight(s0, steps0) && Run(s0, steps0) == Fresh(5, [b], [Sending(1, [a], 0)], [a, b])
    ensures SingleFlight(s0, steps)
    ensures var s := Run(s0, steps); s.tasks == [] && s.list.Some? && s.list.value.items == [b, a]
  {
    hide Run, SingleFlight, Lower, Descending;
    var s4 := Fresh(5, [b], [Sending(1, [a], 0)], [a, b]);
    steps := RunAct(s0, steps0, s4, Sending(1, [a], 0), RpcErr(false), WriteOk);
    steps := RunAct(s0, steps, s4.(tasks := [Sending(1, [a], 1)]), Sending(1, [a], 1), RpcErr(false), WriteOk);
    steps := RunAct(s0, steps, s4.(tasks := [Sending(1, [a], 2)]), Sending(1, [a], 2), RpcErr(false), WriteOk);
    PutBack(a, b);
    var s7 := Fresh(5, [b, a], [SendDone(1)], [a, b]);
    steps := RunAct(s0, steps, s7, SendDone(1), RpcErr(false), WriteOk);
  }

  lemma LateItem(a: GraphItem, b: GraphItem)
    ensures Next(Fresh(5, [], [Sending(1, [a], 0)], [a]), Receive(b)) == Fresh(5, [b], [Sending(1, [a], 0)], [a, b])
  {
    assert [b] + [] == [b] && [a] + [b] == [a, b];
  }

  lemma PutBack(a: GraphItem, b: GraphItem)
    ensures Restored(Fresh(5, [b], [Sending(1, [a], 2)], [a, b]), [a]) == Fresh(5, [b, a], [Sending(1, [a], 2)], [a, b])
  {
    assert Reversed([a]) == [a] && [b] + [a] == [b, a];
  }

  /** A new key, and the send that a late pass starts. */
  lemma SendStarts(item: GraphItem) returns (steps: seq<Step>)
    ensures SingleFlight(Init(false), steps)
    ensures Run(Init(false), steps) == Fresh(5, [item], [SendFlagged(1)], [item])
  {
    var s0 := Init(false);
    assert Run(s0, []) == s0 && SingleFlight(s0, []);
    assert Next(s0, Receive(item)) == Fresh(1, [item], [], [item]);
    RunSnoc(s0, [], Receive(item));
    steps := [] + [Receive(item)];
    SendVisit(item);
    RunSnoc(s0, steps, Visit(0, true, false));
    steps := steps + [Visit(0, true, false)];
  }

  lemma SendVisit(item: GraphItem)
    ensures Next(Fresh(1, [item], [], [item]), Visit(0, true, false)) == Fresh(5, [item], [SendFlagged(1)], [item])
  {
    assert [] + [SendFlagged(1)] == [SendFlagged(1)];
  }
}
