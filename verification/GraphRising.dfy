/** When the points handed to one RRD file rise in time: the guard of handleItems compares with the
    newest item in memory (graph/api/graph.go), and a commit empties memory
    (graph/rrdtool/rrdtool.go). */
module GraphRising {
  import opened GraphModel
  import opened CacheKey
  import opened GraphStore
  import opened GraphFlush

  datatype Config = Config(baseDir: string, isPrint: char -> bool, migrateEnabled: bool)

  /** A node as far as received items and commits go. */
  datatype Served = Served(view: StoreView, calls: seq<FlushCall>, log: map<string, seq<GraphItem>>)

  datatype Event =
    | Arrival(item: GraphItem, rrdExists: bool)
    | Commit(key: string)

  ghost predicate Proper(e: Event) {
    match e
    case Arrival(item, _) => WellSent(item)
    case Commit(key) => Formed(key)
  }

  ghost function NextServed(cfg: Config, s: Served, e: Event): Served
    requires Proper(e)
  {
    match e
    case Arrival(item, rrdExists) =>
      if Accepts(s.view, item, cfg.isPrint)
      then Served(AcceptView(s.view, item, cfg.migrateEnabled, rrdExists), s.calls, AcceptLog(s.log, item))
      else s
    case Commit(key) => Served(CommitView(s.view, key), s.calls + CommitCalls(s.view, cfg.baseDir, key), s.log)
  }

  ghost function Serve(cfg: Config, events: seq<Event>): Served
    requires forall e :: e in events ==> Proper(e)
  {
    if events == [] then Served(map[], [], map[])
    else NextServed(cfg, Serve(cfg, events[..|events| - 1]), events[|events| - 1])
  }

  /** The points handed to the file of key `k`, and then those that wait for it in memory. */
  ghost function Destined(cfg: Config, s: Served, k: string): seq<GraphItem>
    requires Formed(k)
  {
    HandedTo(s.calls, KeyFile(cfg.baseDir, k)) + InMemory(s.view, k)
  }

  /** An item of key `k` is accepted onto an empty list, although it is not newer than the last point
      handed to the file. */
  ghost predicate FallsBack(cfg: Config, s: Served, e: Event, k: string)
    requires Formed(k)
  {
    var handed := HandedTo(s.calls, KeyFile(cfg.baseDir, k));
    && e.Arrival? && KeyOf(e.item) == k && Accepts(s.view, e.item, cfg.isPrint)
    && InMemory(s.view, k) == [] && handed != []
    && e.item.timestamp <= handed[|handed| - 1].timestamp
  }

  ghost predicate SoundNode(cfg: Config, s: Served) { Sound(s.view, s.calls, s.log, cfg.baseDir) }

  lemma NextSound(cfg: Config, s: Served, e: Event)
    requires Proper(e) && SoundNode(cfg, s)
    ensures SoundNode(cfg, NextServed(cfg, s, e))
  {
    hide Sound, WellSent, Formed, Accepts, AcceptView, AcceptLog, CommitView, CommitCalls;
    match e
    case Arrival(item, rrdExists) =>
      if Accepts(s.view, item, cfg.isPrint) {
        AcceptSound(s.view, s.calls, s.log, cfg.baseDir, item, cfg.isPrint, cfg.migrateEnabled, rrdExists);
      }
    case Commit(key) => CommitSound(s.view, s.calls, s.log, cfg.baseDir, key);
  }

  lemma NothingYet(cfg: Config)
    ensures SoundNode(cfg, Served(map[], [], map[]))
  {
  }

  lemma {:induction false} ServeSound(cfg: Config, events: seq<Event>)
    requires forall e :: e in events ==> Proper(e)
    ensures SoundNode(cfg, Serve(cfg, events))
  {
    hide SoundNode, Proper, NextServed;
    if events == [] {
      NothingYet(cfg);
    } else {
      ServeSound(cfg, events[..|events| - 1]);
      NextSound(cfg, Serve(cfg, events[..|events| - 1]), events[|events| - 1]);
    }
  }

  lemma DestinedIsAccepted(cfg: Config, s: Served, k: string)
    requires SoundNode(cfg, s) && Formed(k)
    ensures Destined(cfg, s, k) == Accepted(s.log, k)
  {
    hide Formed, Ordered, KeysFormed, HandedTo, InMemory, Accepted;
    assert ConservedAt(s.view, s.calls, s.log, cfg.baseDir, k);
  }

  /** An event adds at most the arriving item, at the end. */
  lemma NextDestined(cfg: Config, s: Served, e: Event, k: string)
    requires Proper(e) && SoundNode(cfg, s) && Formed(k)
    ensures Destined(cfg, NextServed(cfg, s, e), k) == Destined(cfg, s, k) +
            if e.Arrival? && KeyOf(e.item) == k && Accepts(s.view, e.item, cfg.isPrint) then [e.item] else []
  {
    hide SoundNode, Destined, Formed, WellSent, Accepts, KeyOf, Accepted;
    hide AcceptView, AcceptLog, CommitView, CommitCalls;
    NextSound(cfg, s, e);
    DestinedIsAccepted(cfg, s, k);
    DestinedIsAccepted(cfg, NextServed(cfg, s, e), k);
    if e.Arrival? && Accepts(s.view, e.item, cfg.isPrint) {
      AcceptAppends(s.view, s.log, e.item, cfg.migrateEnabled, e.rrdExists, k);
    }
  }

  lemma AscendingSnoc(items: seq<GraphItem>, item: GraphItem)
    ensures Ascending(items + [item]) <==>
            Ascending(items) && (items != [] ==> items[|items| - 1].timestamp < item.timestamp)
  {
    var more := items + [item];
    assert more[|items|] == item;
    assert forall i :: 0 <= i < |items| ==> more[i] == items[i];
  }

  /** With something in memory the guard compares with the last point of all. */
  lemma LastDestined(cfg: Config, s: Served, item: GraphItem, k: string)
    requires Formed(k) && KeyOf(item) == k && Accepts(s.view, item, cfg.isPrint)
    ensures var all := Destined(cfg, s, k);
            FallsBack(cfg, s, Arrival(item, false), k) <==>
            all != [] && all[|all| - 1].timestamp >= item.timestamp
  {
    hide Formed, KeyOf, HandedTo, IsValidString, KeyFile;
    if InMemory(s.view, k) != [] {
      ReversedBack(s.view[k].items);
    }
  }

  /** An event breaks the order of a file exactly when it falls back. */
  lemma NextRisesIff(cfg: Config, s: Served, e: Event, k: string)
    requires Proper(e) && SoundNode(cfg, s) && Formed(k)
    ensures Ascending(Destined(cfg, NextServed(cfg, s, e), k)) <==>
            Ascending(Destined(cfg, s, k)) && !FallsBack(cfg, s, e, k)
  {
    hide SoundNode, Destined, Formed, WellSent, Accepts, NextServed, KeyOf, Ascending, HandedTo, InMemory, KeyFile;
    NextDestined(cfg, s, e, k);
    if e.Arrival? && KeyOf(e.item) == k && Accepts(s.view, e.item, cfg.isPrint) {
      LastDestined(cfg, s, e.item, k);
      AscendingSnoc(Destined(cfg, s, k), e.item);
    } else {
      assert Destined(cfg, s, k) + [] == Destined(cfg, s, k);
    }
  }

  ghost predicate FallsBackAt(cfg: Config, events: seq<Event>, n: int, k: string)
    requires 0 <= n < |events| && Formed(k) && forall e :: e in events ==> Proper(e)
  {
    FallsBack(cfg, Serve(cfg, events[..n]), events[n], k)
  }

  /** Over every history of arrivals and commits: the points handed to a file, followed by those
      waiting for it, rise in time if and only if every item accepted onto an empty list was newer
      than the last point handed to that file. */
  lemma {:induction false} RisesIff(cfg: Config, events: seq<Event>, k: string)
    requires Formed(k) && forall e :: e in events ==> Proper(e)
    ensures Ascending(Destined(cfg, Serve(cfg, events), k)) <==>
            forall n :: 0 <= n < |events| ==> !FallsBackAt(cfg, events, n, k)
  {
    hide Formed, Proper, SoundNode, FallsBack, NextServed, Ascending, Destined;
    if events == [] {
      NothingDestined(cfg, k);
    } else {
      var last := |events| - 1;
      var front := events[..last];
      RisesIff(cfg, front, k);
      ServeSound(cfg, front);
      NextRisesIff(cfg, Serve(cfg, front), events[last], k);
      forall n | 0 <= n < last ensures FallsBackAt(cfg, front, n, k) <==> FallsBackAt(cfg, events, n, k) {
        assert front[..n] == events[..n];
      }
      assert FallsBackAt(cfg, events, last, k) <==> FallsBack(cfg, Serve(cfg, front), events[last], k);
    }
  }

  lemma NothingDestined(cfg: Config, k: string)
    requires Formed(k)
    ensures Destined(cfg, Serve(cfg, []), k) == [] && Ascending(Destined(cfg, Serve(cfg, []), k))
  {
    hide Formed;
  }

  /** It does happen: an item, its commit, and an older item of the same key. */
  lemma FallsBackHappens(cfg: Config, newer: GraphItem, older: GraphItem)
    requires WellSent(newer) && WellSent(older) && KeyOf(newer) == KeyOf(older)
    requires older.timestamp < newer.timestamp
    requires Accepts(map[], newer, cfg.isPrint) && Accepts(map[], older, cfg.isPrint)
    ensures Formed(KeyOf(newer))
    ensures var events := [Arrival(newer, true), Commit(KeyOf(newer)), Arrival(older, true)];
            && (forall e :: e in events ==> Proper(e))
            && Destined(cfg, Serve(cfg, events), KeyOf(newer)) == [newer, older]
            && !Ascending(Destined(cfg, Serve(cfg, events), KeyOf(newer)))
  {
    hide Formed, WellSent, KeyOf, SoundNode, Destined, IsValidString, CommitCalls, HandedTo;
    var k := KeyOf(newer);
    FormedKey(newer);
    var events := [Arrival(newer, true), Commit(k), Arrival(older, true)];
    assert events[..2] == [Arrival(newer, true), Commit(k)] && events[..2][..1] == [Arrival(newer, true)];
    assert events[..2][..1][..0] == [];
    ServeSound(cfg, []);
    ServeSound(cfg, events[..2][..1]);
    ServeSound(cfg, events[..2]);
    var s1 := Serve(cfg, events[..2][..1]);
    var s2 := Serve(cfg, events[..2]);
    NothingDestined(cfg, k);
    NextDestined(cfg, Serve(cfg, []), Arrival(newer, true), k);
    NextDestined(cfg, s1, Commit(k), k);
    assert Accepts(s2.view, older, cfg.isPrint);
    NextDestined(cfg, s2, Arrival(older, true), k);
    assert [newer, older][0] == newer && [newer, older][1] == older;
  }
}
