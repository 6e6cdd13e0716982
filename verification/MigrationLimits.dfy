/** Where the promises of the migration protocol end: a half-written file, and two tasks for one
    key (graph/rrdtool/migrate.go, graph/rrdtool/sync_disk.go). */
module MigrationLimits {
  import opened Wrappers
  import opened GraphModel
  import opened GraphStore
  import opened GraphFlush
  import opened Migration
  import opened MigrationInvariant
  import opened MigrationSafety

  // ----- A half-written file -----

  /** The old node does not report its file absent in this step. */
  predicate Quiet(step: Step) {
    step.Advance? ==> step.rpc != RpcErr(true)
  }

  /** The key misses its history although a file is in the way. */
  ghost predicate Stuck(s: Node) {
    && s.file && s.list.Some? && HasMiss(s.list.value.flag)
    && |s.tasks| <= 1
    && (s.tasks != [] ==> StuckTask(s.tasks[0]))
  }

  ghost predicate StuckTask(t: Task) {
    match t
    case SendFlagged(flag) => HasMiss(flag)
    case Sending(flag, _, _) => HasMiss(flag)
    case SendDone(flag) => HasMiss(flag)
    case Fetching(flag, _) => HasMiss(flag)
    case FetchGot(flag) => HasMiss(flag)
    case FetchDone(flag, outcome) => HasMiss(flag) && outcome == OtherErr
    case TakenAsAbsent => false
    case Committing => false
  }

  lemma LoweringTaskFlags(flag: bv32)
    ensures HasMiss(Lower(flag, GRAPH_F_SENDING)) == HasMiss(flag)
    ensures HasMiss(Lower(flag, GRAPH_F_FETCHING)) == HasMiss(flag)
  {
  }

  /** The third attempt of the only task, a fetch, is answered "does not exist". */
  predicate TurnedAway(s: Node, step: Step) {
    && step.Advance? && step.i == 0 && step.rpc == RpcErr(true)
    && |s.tasks| == 1 && s.tasks[0].Fetching? && s.tasks[0].attempt + 1 >= 3
  }

  /** Nothing else frees a stuck key, and nothing is written locally meanwhile. */
  lemma StuckNextIff(s: Node, step: Step)
    requires Stuck(s) && |Next(s, step).tasks| <= 1
    ensures Stuck(Next(s, step)) <==> !TurnedAway(s, step)
    ensures Next(s, step).local == s.local
  {
    hide HasMiss, Raise, VisitStep, AdvanceStep, Act, Only, StuckTask;
    match step
    case Receive(item) =>
    case Visit(now, busy, created) => StuckVisit(s, now, busy, created);
    case Advance(i, rpc, write, created) =>
      if i < |s.tasks| {
        AdvanceOnly(s, rpc, write, created);
        StuckAct(s, s.tasks[0], rpc, write, created);
      }
  }

  lemma StuckVisit(s: Node, now: int, busy: bool, created: bool)
    requires Stuck(s) && |VisitStep(s, now, busy, created).tasks| <= 1
    ensures Stuck(VisitStep(s, now, busy, created)) && VisitStep(s, now, busy, created).local == s.local
  {
    hide HasMiss, Raise, CommitStep, ShouldFlush, Missing;
    MissingIsMiss(s.list.value);
    RaisingKeepsMiss(s.list.value.flag);
  }

  lemma StuckAct(s: Node, t: Task, rpc: RpcOutcome, write: WriteOutcome, created: bool)
    requires Stuck(s) && s.tasks == [t]
    ensures var s' := Only(Act(s, t, rpc, write, created));
            && (Stuck(s') <==> !(t.Fetching? && t.attempt + 1 >= 3 && rpc == RpcErr(true)))
            && s'.local == s.local
  {
    hide HasMiss, Lower, Reversed;
    LoweringTaskFlags(t.flag);
  }

  ghost predicate TurnedAwayAt(s: Node, steps: seq<Step>, k: int)
    requires 0 <= k < |steps|
  {
    TurnedAway(Run(s, steps[..k]), steps[k])
  }

  /** A half-written file is never replaced: the key stays flagged MISS throughout, and nothing is
      written locally, if and only if no third attempt of a fetch is answered "does not exist". */
  lemma {:induction false} PartialWriteIsForGood(s: Node, steps: seq<Step>)
    requires Stuck(s) && SingleFlight(s, steps)
    ensures (forall k :: 0 <= k <= |steps| ==> Stuck(Run(s, steps[..k]))) <==>
            (forall k :: 0 <= k < |steps| ==> !TurnedAwayAt(s, steps, k))
    ensures (forall k :: 0 <= k < |steps| ==> !TurnedAwayAt(s, steps, k)) ==>
              Stuck(Run(s, steps)) && Run(s, steps).local == s.local
  {
    hide Stuck, Next, TurnedAway;
    if steps == [] {
      assert steps[..0] == [];
    } else {
      var n := |steps| - 1;
      var front := steps[..n];
      PartialWriteIsForGood(s, front);
      forall k | 0 <= k <= n ensures front[..k] == steps[..k] {
      }
      forall k | 0 <= k < n ensures TurnedAwayAt(s, front, k) <==> TurnedAwayAt(s, steps, k) {
        assert front[..k] == steps[..k];
      }
      assert steps[..n + 1] == steps && front[..n] == front;
      assert Run(s, steps) == Next(Run(s, front), steps[n]);
      assert TurnedAwayAt(s, steps, n) <==> TurnedAway(Run(s, front), steps[n]);
      if Stuck(Run(s, front)) {
        StuckNextIff(Run(s, front), steps[n]);
      }
    }
  }

  // ----- Concrete runs -----

  /** One more step of a run. */
  lemma RunSnoc(s: Node, steps: seq<Step>, step: Step)
    ensures Run(s, steps + [step]) == Next(Run(s, steps), step)
    ensures SingleFlight(s, steps) && |Next(Run(s, steps), step).tasks| <= 1 ==> SingleFlight(s, steps + [step])
  {
    var all := steps + [step];
    assert all[..|all| - 1] == steps;
  }

  /** The next action of the only task. */
  lemma NextAct(s: Node, t: Task, rpc: RpcOutcome, write: WriteOutcome, created: bool)
    requires s.tasks == [t]
    ensures Next(s, Advance(0, rpc, write, created)) == Only(Act(s, t, rpc, write, created))
  {
    hide Act, Only, AdvanceStep;
    AdvanceOnly(s, rpc, write, created);
  }

  /** One more action of the only task of a run. */
  lemma RunAct(s0: Node, steps: seq<Step>, s: Node, t: Task, rpc: RpcOutcome, write: WriteOutcome)
    returns (more: seq<Step>)
    requires SingleFlight(s0, steps) && Run(s0, steps) == s && s.tasks == [t]
    ensures more == steps + [Advance(0, rpc, write, false)] && SingleFlight(s0, more)
    ensures Run(s0, more) == Only(Act(s, t, rpc, write, false))
  {
    hide Next, Run, SingleFlight, Act;
    NextAct(s, t, rpc, write, false);
    RunSnoc(s0, steps, Advance(0, rpc, write, false));
    more := steps + [Advance(0, rpc, write, false)];
  }

  const NOTHING := Past(false, false, false, false, false)

  /** A key that has received some items on a node without its file. */
  function Fresh(flag: bv32, items: seq<GraphItem>, tasks: seq<Task>, accepted: seq<GraphItem>): Node {
    Node(Some(ListState(flag, items)), false, tasks, accepted, [], [], NOTHING)
  }

  /** A new key, and the fetch that the next pass starts. */
  lemma FetchStarts(item: GraphItem) returns (steps: seq<Step>)
    ensures SingleFlight(Init(false), steps)
    ensures Run(Init(false), steps) == Fresh(9, [item], [Fetching(1, 0)], [item])
    ensures forall step :: step in steps ==> Quiet(step)
  {
    var s0 := Init(false);
    assert Run(s0, []) == s0 && SingleFlight(s0, []);
    assert Next(s0, Receive(item)) == Fresh(1, [item], [], [item]);
    RunSnoc(s0, [], Receive(item));
    steps := [] + [Receive(item)];
    FetchVisit(item);
    RunSnoc(s0, steps, Visit(0, false, false));
    steps := steps + [Visit(0, false, false)];
  }

  lemma FetchVisit(item: GraphItem)
    ensures Next(Fresh(1, [item], [], [item]), Visit(0, false, false)) == Fresh(9, [item], [Fetching(1, 0)], [item])
  {
    assert [] + [Fetching(1, 0)] == [Fetching(1, 0)];
  }

  /** Such a key is reachable: the write fails after the file has been created. */
  lemma PartialWriteHappens(item: GraphItem) returns (steps: seq<Step>)
    ensures SingleFlight(Init(false), steps)
    ensures var s := Run(Init(false), steps); Stuck(s) && s.tasks == [] && s.past.partial && !s.past.installed
  {
    hide Run, SingleFlight;
    var s0 := Init(false);
    var s2 := Fresh(9, [item], [Fetching(1, 0)], [item]);
    var s3 := s2.(tasks := [FetchGot(1)]);
    var s4 := s3.(file := true, past := NOTHING.(partial := true), tasks := [FetchDone(1, OtherErr)]);
    steps := FetchStarts(item);
    steps := RunAct(s0, steps, s2, Fetching(1, 0), RpcOk, WriteOk);
    steps := RunAct(s0, steps, s3, FetchGot(1), RpcOk, WriteErr(false, true));
    steps := RunAct(s0, steps, s4, FetchDone(1, OtherErr), RpcOk, WriteOk);
    LoweringTaskFlags(1);
  }

  // ----- Two tasks for one key -----

  /** A task ends by writing back a flag that it read while MISS was set. */
  predicate WritesMissBack(s: Node, step: Step) {
    && step.Advance? && step.i < |s.tasks|
    && (s.tasks[step.i].SendDone? || s.tasks[step.i].FetchDone?)
    && HasMiss(s.tasks[step.i].flag)
  }

  /** Whatever tasks are in flight, nothing else sets MISS again. */
  lemma ClearedNextIff(s: Node, step: Step)
    requires Cleared(s)
    ensures Cleared(Next(s, step)) <==> !WritesMissBack(s, step)
  {
    hide HasMiss, Lower, Raise, Act, StartTask, CommitStep, ShouldFlush, Missing;
    MissingIsMiss(s.list.value);
    match step
    case Receive(item) =>
    case Visit(now, busy, created) => CommitKeepsFlag(s, created);
    case Advance(i, rpc, write, created) =>
      if i < |s.tasks| {
        ClearedActIff(s, s.tasks[i], rpc, write, created);
      }
  }

  lemma CommitKeepsFlag(s: Node, created: bool)
    requires Cleared(s)
    ensures Cleared(CommitStep(s, created))
  {
  }

  lemma ClearedActIff(s: Node, t: Task, rpc: RpcOutcome, write: WriteOutcome, created: bool)
    requires Cleared(s)
    ensures Cleared(Act(s, t, rpc, write, created).node) <==> !((t.SendDone? || t.FetchDone?) && HasMiss(t.flag))
  {
    hide HasMiss, Lower, Reversed, CommitStep;
    CommitKeepsFlag(s, created);
    ZeroIsCleared();
    if t.SendDone? || t.FetchDone? {
      LoweringTaskFlags(t.flag);
    }
  }

  lemma ZeroIsCleared()
    ensures !HasMiss(0)
  {
  }

  ghost predicate WritesMissBackAt(s: Node, steps: seq<Step>, k: int)
    requires 0 <= k < |steps|
  {
    WritesMissBack(Run(s, steps[..k]), steps[k])
  }

  /** With any number of tasks, MISS stays cleared throughout a run if and only if no such task ends
      in it. */
  lemma {:induction false} ClearedThroughoutIff(s: Node, steps: seq<Step>)
    requires Cleared(s)
    ensures (forall k :: 0 <= k <= |steps| ==> Cleared(Run(s, steps[..k]))) <==>
            (forall k :: 0 <= k < |steps| ==> !WritesMissBackAt(s, steps, k))
  {
    hide Cleared, Next, WritesMissBack;
    if steps == [] {
      assert steps[..0] == [];
    } else {
      var n := |steps| - 1;
      var front := steps[..n];
      ClearedThroughoutIff(s, front);
      forall k | 0 <= k <= n ensures front[..k] == steps[..k] {
      }
      forall k | 0 <= k < n ensures WritesMissBackAt(s, front, k) <==> WritesMissBackAt(s, steps, k) {
        assert front[..k] == steps[..k];
      }
      assert steps[..n + 1] == steps && front[..n] == front;
      assert Run(s, steps) == Next(Run(s, front), steps[n]);
      assert WritesMissBackAt(s, steps, n) <==> WritesMissBack(Run(s, front), steps[n]);
      if Cleared(Run(s, front)) {
        ClearedNextIff(Run(s, front), steps[n]);
      }
    }
  }

  /** The second one read MISS before the first one cleared it ... */
  lemma TwoTasksInFlight(item: GraphItem) returns (steps: seq<Step>)
    ensures var s := Run(Init(false), steps);
            && Cleared(s) && s.file && s.past == NOTHING.(installed := true)
            && s.tasks == [Fetching(9, 0)]
  {
    hide Run, SingleFlight;
    var s0 := Init(false);
    var ok := Advance(0, RpcOk, WriteOk, false);
    var visit := Visit(0, false, false);
    steps := FetchStarts(item);
    var s2 := Fresh(9, [item], [Fetching(1, 0)], [item]);
    RunSnoc(s0, steps, visit);
    var s3 := s2.(tasks := [Fetching(1, 0), Fetching(9, 0)]);
    SecondVisit(item);
    RunSnoc(s0, steps + [visit], ok);
    RunSnoc(s0, steps + [visit] + [ok], ok);
    RunSnoc(s0, steps + [visit] + [ok] + [ok], ok);
    TwoFetches(s3);
    steps := steps + [visit] + [ok] + [ok] + [ok];
  }

  lemma SecondVisit(item: GraphItem)
    ensures Next(Fresh(9, [item], [Fetching(1, 0)], [item]), Visit(0, false, false)) ==
            Fresh(9, [item], [Fetching(1, 0), Fetching(9, 0)], [item])
  {
    assert [Fetching(1, 0)] + [Fetching(9, 0)] == [Fetching(1, 0), Fetching(9, 0)];
  }

  /** The first task installs the file while the second one waits for its answer. */
  lemma TwoFetches(s: Node)
    requires s.list.Some? && s.tasks == [Fetching(1, 0), Fetching(9, 0)] && !s.file
    ensures var ok := Advance(0, RpcOk, WriteOk, false);
            Next(Next(Next(s, ok), ok), ok) ==
            WithFlag(s, 0).(file := true, past := s.past.(installed := true), tasks := [Fetching(9, 0)])
  {
    var ok := Advance(0, RpcOk, WriteOk, false);
    var s1 := s.(tasks := [FetchGot(1), Fetching(9, 0)]);
    assert Next(s, ok) == s1;
    var s2 := s1.(file := true, past := s.past.(installed := true), tasks := [FetchDone(0, Success), Fetching(9, 0)]);
    assert Next(s1, ok) == s2;
    assert s2.tasks[..0] + s2.tasks[1..] == [Fetching(9, 0)];
  }

  /** A fetch whose three attempts fail only writes its flag back. */
  lemma FetchFails(s: Node, flag: bv32)
    requires s.tasks == [Fetching(flag, 0)]
    ensures var fail := Advance(0, RpcErr(false), WriteOk, false);
            Next(Next(Next(Next(s, fail), fail), fail), fail) ==
              WithFlag(s, Lower(flag, GRAPH_F_FETCHING)).(tasks := [])
  {
    hide Lower, Next;
    var no := RpcErr(false);
    NextAct(s, Fetching(flag, 0), no, WriteOk, false);
    NextAct(s.(tasks := [Fetching(flag, 1)]), Fetching(flag, 1), no, WriteOk, false);
    NextAct(s.(tasks := [Fetching(flag, 2)]), Fetching(flag, 2), no, WriteOk, false);
    NextAct(s.(tasks := [FetchDone(flag, OtherErr)]), FetchDone(flag, OtherErr), no, WriteOk, false);
  }

  /** ... and writes it back: such a run, although the file is installed. */
  lemma TwoTasksResurrectMiss(item: GraphItem) returns (before: seq<Step>, after: seq<Step>)
    ensures Cleared(Run(Init(false), before))
    ensures var s := Run(Init(false), before + after);
            s.tasks == [] && s.list.Some? && HasMiss(s.list.value.flag) && s.file && !s.past.partial
  {
    hide Next, Run;
    var s0 := Init(false);
    before := TwoTasksInFlight(item);
    var fail := Advance(0, RpcErr(false), WriteOk, false);
    RunSnoc(s0, before, fail);
    RunSnoc(s0, before + [fail], fail);
    RunSnoc(s0, before + [fail] + [fail], fail);
    RunSnoc(s0, before + [fail] + [fail] + [fail], fail);
    after := [fail, fail, fail, fail];
    assert before + after == before + [fail] + [fail] + [fail] + [fail];
    FetchFails(Run(s0, before), 9);
  }
}
