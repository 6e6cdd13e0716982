/** What every run of the migration protocol keeps while one task per key is in flight
    (graph/rrdtool/migrate.go). */
module MigrationSafety {
  import opened Wrappers
  import opened GraphStore
  import opened GraphFlush
  import opened Migration
  import opened MigrationInvariant

  lemma {:induction false} RunKeepsInv(s: Node, steps: seq<Step>)
    requires Inv(s) && SingleFlight(s, steps)
    ensures Inv(Run(s, steps))
  {
    hide Inv, Next;
    if steps != [] {
      RunKeepsInv(s, steps[..|steps| - 1]);
      NextInv(Run(s, steps[..|steps| - 1]), steps[|steps| - 1]);
    }
  }

  // ----- What every run keeps -----

  /** The state after any run from a fresh key, one task in flight at a time. */
  ghost predicate Reachable(s: Node) {
    exists file, steps :: SingleFlight(Init(file), steps) && s == Run(Init(file), steps)
  }

  lemma ReachableInv(s: Node)
    requires Reachable(s)
    ensures Inv(s)
  {
    hide Inv;
    var file, steps :| SingleFlight(Init(file), steps) && s == Run(Init(file), steps);
    InitInv(file);
    RunKeepsInv(Init(file), steps);
  }

  /** Nothing is lost, duplicated or reordered, whatever fails: what left memory, what a
      sender holds and what memory holds are together what was accepted. */
  lemma NothingLost(s: Node)
    requires Reachable(s)
    ensures s.accepted == s.out + InFlight(s) + Memory(s)
    ensures s.tasks == [] ==> s.accepted == s.out + Memory(s)
  {
    ReachableInv(s);
  }

  /** Between tasks no task flag is set, and a key still flagged MISS has a local file
      exactly when some install failed half-way. */
  lemma MissMeansNoFile(s: Node)
    requires Reachable(s) && s.tasks == [] && s.list.Some?
    ensures Clean(s.list.value.flag)
    ensures HasMiss(s.list.value.flag) ==> (s.file <==> s.past.partial)
  {
    ReachableInv(s);
  }

  /** Local data is written only when the history is on this node, the old node has said that
      there is none, or an install error has been taken for that. */
  lemma LocalDataIsSettled(s: Node)
    requires Reachable(s)
    ensures s.local != [] ==> Known(s) || s.past.refused
  {
    ReachableInv(s);
  }

  ghost predicate Cleared(s: Node) {
    s.list.Some? && !HasMiss(s.list.value.flag)
  }

  lemma ClearedNext(s: Node, step: Step)
    requires Inv(s) && Cleared(s)
    ensures Cleared(Next(s, step))
  {
    hide HasMiss, Clean, Raise, Lower, Reversed, Settled, Balanced;
    if step.Visit? {
      assert HasMiss(s.list.value.flag) == Missing(s.list.value) by {
        MissingIsMiss(s.list.value);
      }
    }
  }

  lemma MissingIsMiss(l: ListState)
    ensures HasMiss(l.flag) == Missing(l)
  {
  }

  /** MISS, once cleared, is never set again. */
  lemma {:induction false} ClearedForGood(s: Node, steps: seq<Step>)
    requires Inv(s) && Cleared(s) && SingleFlight(s, steps)
    ensures Cleared(Run(s, steps))
  {
    hide Inv, Next, Cleared;
    if steps != [] {
      var front := steps[..|steps| - 1];
      ClearedForGood(s, front);
      RunKeepsInv(s, front);
      ClearedNext(Run(s, front), steps[|steps| - 1]);
    }
  }
}
