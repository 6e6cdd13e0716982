/** Strategies by host and metric (judge/cron/strategy.go), their use on an item
    (judge/store/judge.go, CheckStrategy), and the metric filter in front of both. */
module JudgeStrategy {
  import opened JudgeWindow
  import E = JudgeExpr

  datatype Strategy = Strategy(id: int, metric: string, tags: E.Tags)

  datatype HostStrategies = HostStrategies(hostname: string, strategies: seq<Strategy>)

  type Index = map<string, seq<Strategy>>

  function KeyFor(host: string, metric: string): string { host + "/" + metric }

  function At(m: Index, key: string): seq<Strategy> {
    if key in m then m[key] else []
  }

  // ----- Building the map -----

  /** The strategies of one host that belong under `key`, in order. */
  function OfHost(host: string, ss: seq<Strategy>, key: string): seq<Strategy> {
    if ss == [] then []
    else
      var s := ss[|ss| - 1];
      OfHost(host, ss[..|ss| - 1], key) + if KeyFor(host, s.metric) == key then [s] else []
  }

  /** All strategies that belong under `key`, host by host. */
  function UnderKey(resp: seq<HostStrategies>, key: string): seq<Strategy> {
    if resp == [] then []
    else
      var hs := resp[|resp| - 1];
      UnderKey(resp[..|resp| - 1], key) + OfHost(hs.hostname, hs.strategies, key)
  }

  /** A key is present exactly when something belongs under it. */
  ghost predicate MapOf(m: Index, resp: seq<HostStrategies>) {
    && (forall key :: At(m, key) == UnderKey(resp, key))
    && (forall key :: key in m ==> m[key] != [])
  }

  /** The strategies of `host` have been added to what `m0` holds. */
  ghost predicate HostAdded(m0: Index, m: Index, host: string, ss: seq<Strategy>) {
    && (forall key :: At(m, key) == At(m0, key) + OfHost(host, ss, key))
    && (forall key :: key in m ==> m[key] != [])
  }

  lemma AddedOne(m0: Index, m: Index, host: string, ss: seq<Strategy>, n: nat)
    requires n < |ss| && HostAdded(m0, m, host, ss[..n])
    ensures var key := KeyFor(host, ss[n].metric);
            HostAdded(m0, m[key := At(m, key) + [ss[n]]], host, ss[..n + 1])
  {
    hide KeyFor;
    assert ss[..n + 1][..n] == ss[..n];
    var key := KeyFor(host, ss[n].metric);
    var m' := m[key := At(m, key) + [ss[n]]];
    forall k ensures At(m', k) == At(m0, k) + OfHost(host, ss[..n + 1], k) {
      assert OfHost(host, ss[..n + 1], k) == OfHost(host, ss[..n], k) + if key == k then [ss[n]] else [];
    }
  }

  method AddHost(m0: Index, hs: HostStrategies) returns (m: Index)
    requires forall key :: key in m0 ==> m0[key] != []
    ensures HostAdded(m0, m, hs.hostname, hs.strategies)
  {
    m := m0;
    var ss := hs.strategies;
    assert HostAdded(m0, m, hs.hostname, ss[..0]);
    hide HostAdded, KeyFor;
    for n := 0 to |ss|
      invariant HostAdded(m0, m, hs.hostname, ss[..n])
    {
      AddedOne(m0, m, hs.hostname, ss, n);
      var key := KeyFor(hs.hostname, ss[n].metric);
      if key in m {
        m := m[key := m[key] + [ss[n]]];
      } else {
        assert [] + [ss[n]] == [ss[n]];
        m := m[key := [ss[n]]];
      }
    }
    assert ss[..|ss|] == ss;
  }

  method RebuildStrategyMap(resp: seq<HostStrategies>) returns (m: Index)
    ensures MapOf(m, resp)
  {
    hide OfHost;
    m := map[];
    for n := 0 to |resp|
      invariant MapOf(m, resp[..n])
    {
      assert resp[..n + 1][..n] == resp[..n];
      m := AddHost(m, resp[n]);
    }
    assert resp[..|resp|] == resp;
  }

  // ----- Matching one item -----

  predicate Related(s: Strategy, item: JudgeItem) {
    forall k :: k in s.tags ==> k in item.tags && item.tags[k] == s.tags[k]
  }

  function RelatedOnes(ss: seq<Strategy>, item: JudgeItem): seq<Strategy> {
    if ss == [] then []
    else
      var s := ss[|ss| - 1];
      RelatedOnes(ss[..|ss| - 1], item) + if Related(s, item) then [s] else []
  }

  method IsRelated(s: Strategy, item: JudgeItem) returns (related: bool)
    ensures related == Related(s, item)
  {
    related := true;
    var rest := s.tags.Keys;
    while rest != {}
      invariant related && rest <= s.tags.Keys
      invariant forall k :: k in s.tags && k !in rest ==> k in item.tags && item.tags[k] == s.tags[k]
      decreases rest
    {
      var k :| k in rest;
      if k !in item.tags || item.tags[k] != s.tags[k] {
        related := false;
        break;
      }
      rest := rest - {k};
    }
  }

  /** CheckStrategy; `judged` lists the strategies that are evaluated, in order. */
  method CheckStrategy(m: Index, item: JudgeItem) returns (judged: seq<Strategy>)
    ensures judged == RelatedOnes(At(m, KeyFor(item.endpoint, item.metric)), item)
  {
    hide Related;
    judged := [];
    var key := KeyFor(item.endpoint, item.metric);
    if key !in m {
      return;
    }
    var strategies := m[key];
    for n := 0 to |strategies|
      invariant judged == RelatedOnes(strategies[..n], item)
    {
      assert strategies[..n + 1][..n] == strategies[..n];
      var related := IsRelated(strategies[n], item);
      if related {
        judged := judged + [strategies[n]];
      }
    }
    assert strategies[..|strategies|] == strategies;
  }

  // ----- Agreement with brute force -----

  /** The strategies of a list that match metric and tags of an item, in order. */
  function Matching(ss: seq<Strategy>, item: JudgeItem): seq<Strategy> {
    if ss == [] then []
    else
      var s := ss[|ss| - 1];
      Matching(ss[..|ss| - 1], item) +
      if s.metric == item.metric && (forall k :: k in s.tags ==> k in item.tags && item.tags[k] == s.tags[k])
      then [s] else []
  }

  /** Every strategy sent for the item's endpoint that matches its metric and tags. */
  function BruteForce(resp: seq<HostStrategies>, item: JudgeItem): seq<Strategy> {
    if resp == [] then []
    else
      var hs := resp[|resp| - 1];
      BruteForce(resp[..|resp| - 1], item) + Expected(hs, item)
  }

  function Expected(hs: HostStrategies, item: JudgeItem): seq<Strategy> {
    if hs.hostname == item.endpoint then Matching(hs.strategies, item) else []
  }

  /** The part of `longer` that follows `shorter` and a slash. */
  predicate Overhang(longer: string, shorter: string, x: string) {
    longer == shorter + "/" + x
  }

  /** Two pairs of host and metric share a key exactly when they are equal or one host name
      continues the other one across a slash that the other metric makes up for. */
  lemma KeysCollideIff(h: string, m: string, e: string, n: string)
    ensures KeyFor(h, m) == KeyFor(e, n) <==>
            || (h == e && m == n)
            || (exists x :: Overhang(h, e, x) && n == x + "/" + m)
            || (exists x :: Overhang(e, h, x) && m == x + "/" + n)
  {
    if KeyFor(h, m) == KeyFor(e, n) {
      if |h| > |e| {
        LongerHost(h, m, e, n);
      } else if |h| < |e| {
        LongerHost(e, n, h, m);
      } else {
        var key := KeyFor(h, m);
        assert key[..|h|] == h && key[..|e|] == e && key[|h| + 1..] == m && key[|e| + 1..] == n;
      }
    }
    if x :| Overhang(h, e, x) && n == x + "/" + m {
      assert KeyFor(h, m) == e + "/" + (x + "/" + m);
    }
    if x :| Overhang(e, h, x) && m == x + "/" + n {
      assert KeyFor(e, n) == h + "/" + (x + "/" + n);
    }
  }

  lemma LongerHost(h: string, m: string, e: string, n: string)
    requires KeyFor(h, m) == KeyFor(e, n) && |h| > |e|
    ensures var x := h[|e| + 1..]; Overhang(h, e, x) && n == x + "/" + m
  {
    var key := KeyFor(h, m);
    var x := h[|e| + 1..];
    assert key[..|e|] == e && h[..|e|] == key[..|e|] && h[|e|] == key[|e|] == '/';
    assert h == h[..|e|] + [h[|e|]] + x;
    assert n == key[|e| + 1..];
  }

  lemma OverhangHasSlash(longer: string, shorter: string, x: string)
    ensures Overhang(longer, shorter, x) ==> '/' in longer
  {
    if Overhang(longer, shorter, x) {
      assert longer[|shorter|] == '/';
    }
  }

  lemma SlashFreeHosts(h: string, m: string, e: string, n: string)
    requires '/' !in h && '/' !in e
    ensures KeyFor(h, m) == KeyFor(e, n) <==> h == e && m == n
  {
    KeysCollideIff(h, m, e, n);
    forall x ensures !Overhang(h, e, x) && !Overhang(e, h, x) {
      OverhangHasSlash(h, e, x);
      OverhangHasSlash(e, h, x);
    }
  }

  lemma {:induction false} RelatedConcat(a: seq<Strategy>, b: seq<Strategy>, item: JudgeItem)
    ensures RelatedOnes(a + b, item) == RelatedOnes(a, item) + RelatedOnes(b, item)
  {
    if b == [] {
      assert a + b == a;
    } else {
      RelatedConcat(a, b[..|b| - 1], item);
      assert (a + b)[..|a + b| - 1] == a + b[..|b| - 1];
    }
  }

  /** A related strategy that reaches the item's key through another host or metric. */
  predicate Foreign(host: string, s: Strategy, item: JudgeItem) {
    && KeyFor(host, s.metric) == KeyFor(item.endpoint, item.metric)
    && (host != item.endpoint || s.metric != item.metric)
    && Related(s, item)
  }

  ghost predicate ForeignIn(host: string, ss: seq<Strategy>, item: JudgeItem) {
    exists k :: 0 <= k < |ss| && Foreign(host, ss[k], item)
  }

  ghost predicate SomeForeign(resp: seq<HostStrategies>, item: JudgeItem) {
    exists i :: 0 <= i < |resp| && ForeignIn(resp[i].hostname, resp[i].strategies, item)
  }

  /** What is judged of one host is what matches, and more exactly when something foreign is. */
  lemma {:induction false} HostAgrees(host: string, ss: seq<Strategy>, item: JudgeItem)
    ensures var judged := RelatedOnes(OfHost(host, ss, KeyFor(item.endpoint, item.metric)), item);
            var expected := Expected(HostStrategies(host, ss), item);
            && |judged| >= |expected|
            && (|judged| == |expected| <==> !ForeignIn(host, ss, item))
            && (!ForeignIn(host, ss, item) ==> judged == expected)
  {
    hide KeyFor, Related, Matching;
    if ss == [] {
      NothingMatches(item);
    } else {
      MatchingLast(ss, item);
      var n := |ss| - 1;
      var s := ss[n];
      var key := KeyFor(item.endpoint, item.metric);
      HostAgrees(host, ss[..n], item);
      var last := if KeyFor(host, s.metric) == key then [s] else [];
      RelatedConcat(OfHost(host, ss[..n], key), last, item);
      RelatedOne(last, item);
      ForeignSnoc(host, ss, item);
    }
  }

  lemma MatchingLast(ss: seq<Strategy>, item: JudgeItem)
    requires ss != []
    ensures var s := ss[|ss| - 1];
            Matching(ss, item) ==
            Matching(ss[..|ss| - 1], item) + if s.metric == item.metric && Related(s, item) then [s] else []
  {
    var s := ss[|ss| - 1];
    RelatedInWords(s, item);
    hide Related;
    assert Matching(ss, item) == Matching(ss[..|ss| - 1], item) +
           if s.metric == item.metric && (forall k :: k in s.tags ==> k in item.tags && item.tags[k] == s.tags[k])
           then [s] else [];
  }

  lemma RelatedInWords(s: Strategy, item: JudgeItem)
    ensures Related(s, item) <==> forall k :: k in s.tags ==> k in item.tags && item.tags[k] == s.tags[k]
  {
  }

  lemma NothingMatches(item: JudgeItem)
    ensures Matching([], item) == []
  {
  }

  lemma RelatedOne(last: seq<Strategy>, item: JudgeItem)
    requires |last| <= 1
    ensures RelatedOnes(last, item) == if |last| == 1 && Related(last[0], item) then last else []
  {
    hide Related;
  }

  lemma ForeignSnoc(host: string, ss: seq<Strategy>, item: JudgeItem)
    requires ss != []
    ensures ForeignIn(host, ss, item) <==> ForeignIn(host, ss[..|ss| - 1], item) || Foreign(host, ss[|ss| - 1], item)
  {
    hide Foreign;
    var front := ss[..|ss| - 1];
    if k :| 0 <= k < |front| && Foreign(host, front[k], item) {
      assert ss[k] == front[k];
    }
    if k :| 0 <= k < |ss| && Foreign(host, ss[k], item) {
      if k < |front| {
        assert front[k] == ss[k];
      }
    }
  }

  lemma {:induction false} UnderKeyAgrees(resp: seq<HostStrategies>, item: JudgeItem)
    ensures var judged := RelatedOnes(UnderKey(resp, KeyFor(item.endpoint, item.metric)), item);
            && |judged| >= |BruteForce(resp, item)|
            && (|judged| == |BruteForce(resp, item)| <==> !SomeForeign(resp, item))
            && (!SomeForeign(resp, item) ==> judged == BruteForce(resp, item))
  {
    hide KeyFor, Related, OfHost, Matching, RelatedOnes, ForeignIn;
    NothingRelated(item);
    if resp != [] {
      var n := |resp| - 1;
      var hs := resp[n];
      var key := KeyFor(item.endpoint, item.metric);
      UnderKeyAgrees(resp[..n], item);
      HostAgrees(hs.hostname, hs.strategies, item);
      assert hs == HostStrategies(hs.hostname, hs.strategies);
      RelatedConcat(UnderKey(resp[..n], key), OfHost(hs.hostname, hs.strategies, key), item);
      SomeForeignSnoc(resp, item);
    }
  }

  lemma SomeForeignSnoc(resp: seq<HostStrategies>, item: JudgeItem)
    requires resp != []
    ensures var hs := resp[|resp| - 1];
            SomeForeign(resp, item) <==>
            SomeForeign(resp[..|resp| - 1], item) || ForeignIn(hs.hostname, hs.strategies, item)
  {
    hide ForeignIn;
    var front := resp[..|resp| - 1];
    if i :| 0 <= i < |front| && ForeignIn(front[i].hostname, front[i].strategies, item) {
      assert resp[i] == front[i];
    }
    if i :| 0 <= i < |resp| && ForeignIn(resp[i].hostname, resp[i].strategies, item) {
      if i < |front| {
        assert front[i] == resp[i];
      }
    }
  }

  lemma NothingRelated(item: JudgeItem)
    ensures RelatedOnes([], item) == []
  {
  }

  /** The strategies judged are the ones sent for the item's endpoint that match its metric and
      tags, in the order sent and as often as sent, if and only if no related strategy reaches the
      key of the item through another host or metric. */
  lemma StrategiesAgreeIff(resp: seq<HostStrategies>, m: Index, item: JudgeItem, judged: seq<Strategy>)
    requires MapOf(m, resp)
    requires judged == RelatedOnes(At(m, KeyFor(item.endpoint, item.metric)), item)
    ensures judged == BruteForce(resp, item) <==> !SomeForeign(resp, item)
  {
    UnderKeyAgrees(resp, item);
  }

  /** Host names without a slash let nothing foreign in, whatever the metrics. */
  lemma StrategiesAgreeWithBruteForce(resp: seq<HostStrategies>, m: Index, item: JudgeItem, judged: seq<Strategy>)
    requires MapOf(m, resp)
    requires judged == RelatedOnes(At(m, KeyFor(item.endpoint, item.metric)), item)
    requires '/' !in item.endpoint && forall i :: 0 <= i < |resp| ==> '/' !in resp[i].hostname
    ensures judged == BruteForce(resp, item)
  {
    hide KeyFor, Related;
    StrategiesAgreeIff(resp, m, item, judged);
    forall i, k | 0 <= i < |resp| && 0 <= k < |resp[i].strategies|
      ensures !Foreign(resp[i].hostname, resp[i].strategies[k], item)
    {
      SlashFreeHosts(resp[i].hostname, resp[i].strategies[k].metric, item.endpoint, item.metric);
    }
  }

  /** With a slash in a host name something foreign does get in. */
  lemma SlashInHostMisjudges()
    ensures var s := Strategy(1, "c", map[]);
            var item := JudgeItem("a", "b/c", 0.0, 1, "GAUGE", map[]);
            SomeForeign([HostStrategies("a/b", [s])], item) && BruteForce([HostStrategies("a/b", [s])], item) == []
  {
    var s := Strategy(1, "c", map[]);
    var item := JudgeItem("a", "b/c", 0.0, 1, "GAUGE", map[]);
    assert KeyFor("a/b", "c") == KeyFor("a", "b/c");
    assert |"a/b"| != |"a"|;
    assert Foreign("a/b", [s][0], item);
    var resp := [HostStrategies("a/b", [s])];
    assert ForeignIn(resp[0].hostname, resp[0].strategies, item);
    assert resp[..0] == [];
  }

  // ----- The metric filter -----

  ghost predicate InSomeList(m: Index, keys: set<string>, metric: string) {
    exists key, i :: key in keys && key in m && 0 <= i < |m[key]| && m[key][i].metric == metric
  }

  ghost predicate InSomeExpr(m: E.Index, keys: set<string>, metric: string) {
    exists key, i :: key in keys && key in m && 0 <= i < |m[key]| && m[key][i].metric == metric
  }

  /** syncFilter: the metrics of all strategies and expressions in the two maps. */
  method SyncFilter(m: Index, exps: E.Index) returns (filter: set<string>)
    ensures forall metric :: metric in filter <==> InSomeList(m, m.Keys, metric) || InSomeExpr(exps, exps.Keys, metric)
  {
    filter := FilterOfStrategies(m);
    var rest := exps.Keys;
    ghost var strategies := filter;
    while rest != {}
      invariant rest <= exps.Keys
      invariant forall metric ::
                  metric in filter <==> metric in strategies || InSomeExpr(exps, exps.Keys - rest, metric)
      decreases rest
    {
      var key :| key in rest;
      var es := exps[key];
      ghost var before := filter;
      for n := 0 to |es|
        invariant forall metric ::
                    metric in filter <==> metric in before || exists i :: 0 <= i < n && es[i].metric == metric
      {
        filter := filter + {es[n].metric};
      }
      assert exps.Keys - (rest - {key}) == (exps.Keys - rest) + {key};
      rest := rest - {key};
    }
    assert exps.Keys - {} == exps.Keys;
  }

  method FilterOfStrategies(m: Index) returns (filter: set<string>)
    ensures forall metric :: metric in filter <==> InSomeList(m, m.Keys, metric)
  {
    filter := {};
    var rest := m.Keys;
    while rest != {}
      invariant rest <= m.Keys
      invariant forall metric :: metric in filter <==> InSomeList(m, m.Keys - rest, metric)
      decreases rest
    {
      var key :| key in rest;
      var ss := m[key];
      ghost var before := filter;
      for n := 0 to |ss|
        invariant forall metric ::
                    metric in filter <==> metric in before || exists i :: 0 <= i < n && ss[i].metric == metric
      {
        filter := filter + {ss[n].metric};
      }
      assert m.Keys - (rest - {key}) == (m.Keys - rest) + {key};
      rest := rest - {key};
    }
    assert m.Keys - {} == m.Keys;
  }

  ghost predicate SentFor(resp: seq<HostStrategies>, metric: string) {
    exists i, j :: 0 <= i < |resp| && 0 <= j < |resp[i].strategies| && resp[i].strategies[j].metric == metric
  }

  lemma {:induction false} OfHostMembers(host: string, ss: seq<Strategy>, key: string, s: Strategy)
    ensures s in OfHost(host, ss, key) <==> s in ss && KeyFor(host, s.metric) == key
  {
    if ss != [] {
      OfHostMembers(host, ss[..|ss| - 1], key, s);
      assert ss == ss[..|ss| - 1] + [ss[|ss| - 1]];
    }
  }

  lemma {:induction false} UnderKeyMembers(resp: seq<HostStrategies>, key: string, s: Strategy)
    ensures s in UnderKey(resp, key) <==>
            exists i :: 0 <= i < |resp| && s in resp[i].strategies && KeyFor(resp[i].hostname, s.metric) == key
  {
    hide KeyFor, OfHost;
    if resp != [] {
      var n := |resp| - 1;
      UnderKeyMembers(resp[..n], key, s);
      OfHostMembers(resp[n].hostname, resp[n].strategies, key, s);
    }
  }

  lemma ListedIffSent(resp: seq<HostStrategies>, m: Index, metric: string)
    requires MapOf(m, resp)
    ensures InSomeList(m, m.Keys, metric) <==> SentFor(resp, metric)
  {
    hide KeyFor, UnderKey;
    if key, i :| key in m.Keys && key in m && 0 <= i < |m[key]| && m[key][i].metric == metric {
      assert At(m, key) == m[key];
      UnderKeyMembers(resp, key, m[key][i]);
    }
    if i, j :| 0 <= i < |resp| && 0 <= j < |resp[i].strategies| && resp[i].strategies[j].metric == metric {
      var s := resp[i].strategies[j];
      var key := KeyFor(resp[i].hostname, metric);
      UnderKeyMembers(resp, key, s);
      assert s in At(m, key);
    }
  }

  lemma FiledIffTagged(exps: seq<E.Expression>, index: E.Index, metric: string)
    requires E.IndexOf(index, exps)
    ensures InSomeExpr(index, index.Keys, metric) <==> exists e :: e in exps && e.tags != map[] && e.metric == metric
  {
    hide E.KeyFor;
    if key, i :| key in index.Keys && key in index && 0 <= i < |index[key]| && index[key][i].metric == metric {
      var e := index[key][i];
      assert E.Filed(index, key, e);
      assert E.HasTagKey(e, e.tags.Keys, key);
    }
    if e :| e in exps && e.tags != map[] && e.metric == metric {
      var k :| k in e.tags;
      var key := E.KeyFor(e.metric, k, e.tags[k]);
      assert E.HasTagKey(e, e.tags.Keys, key);
      assert E.Filed(index, key, e);
    }
  }

  /** The filter lets a metric pass exactly when some strategy sent, or some expression with a
      tag, is about it: it drops no item that brute force would judge, and keeps none that cannot
      match for its metric alone. */
  lemma FilterIsExact(resp: seq<HostStrategies>, m: Index, exps: seq<E.Expression>, index: E.Index,
                      filter: set<string>, metric: string)
    requires MapOf(m, resp) && E.IndexOf(index, exps)
    requires forall x :: x in filter <==> InSomeList(m, m.Keys, x) || InSomeExpr(index, index.Keys, x)
    ensures metric in filter <==>
            SentFor(resp, metric) || exists e :: e in exps && e.tags != map[] && e.metric == metric
  {
    hide MapOf, E.IndexOf, InSomeList, InSomeExpr, SentFor;
    ListedIffSent(resp, m, metric);
    FiledIffTagged(exps, index, metric);
  }

  lemma {:induction false} MatchingIsSent(resp: seq<HostStrategies>, item: JudgeItem)
    ensures BruteForce(resp, item) != [] ==> SentFor(resp, item.metric)
  {
    hide Related;
    if resp != [] {
      var n := |resp| - 1;
      MatchingIsSent(resp[..n], item);
      if SentFor(resp[..n], item.metric) {
        var i, j :| 0 <= i < n && 0 <= j < |resp[..n][i].strategies|
          && resp[..n][i].strategies[j].metric == item.metric;
        assert resp[i].strategies[j].metric == item.metric;
      }
      if Matching(resp[n].strategies, item) != [] {
        var j := MatchingMember(resp[n].strategies, item);
        assert resp[n].strategies[j].metric == item.metric;
      }
    }
  }

  lemma {:induction false} MatchingMember(ss: seq<Strategy>, item: JudgeItem) returns (j: int)
    requires Matching(ss, item) != []
    ensures 0 <= j < |ss| && ss[j].metric == item.metric
  {
    hide Related;
    j := |ss| - 1;
    if ss[j].metric != item.metric {
      j := MatchingMember(ss[..j], item);
    }
  }

  /** So an item that the filter drops would have been judged by no strategy. */
  lemma DroppedItemsMatchNothing(resp: seq<HostStrategies>, m: Index, exps: seq<E.Expression>, index: E.Index,
                                 filter: set<string>, item: JudgeItem, e: E.Expression)
    requires MapOf(m, resp) && E.IndexOf(index, exps)
    requires forall x :: x in filter <==> InSomeList(m, m.Keys, x) || InSomeExpr(index, index.Keys, x)
    requires item.metric !in filter
    ensures BruteForce(resp, item) == []
    ensures e in exps && e.tags != map[] ==> e.metric != item.metric
  {
    hide MapOf, E.IndexOf, InSomeList, InSomeExpr, SentFor;
    FilterIsExact(resp, m, exps, index, filter, item.metric);
    MatchingIsSent(resp, item);
  }
}
