/** The inverted index of expressions (judge/cron/strategy.go) and its use on an item
    (judge/store/judge.go, CheckExpression). */
module JudgeExpr {
  import opened JudgeWindow

  type Tags = map<string, string>

  datatype Expression = Expression(id: int, metric: string, tags: Tags)

  type Index = map<string, seq<Expression>>

  function KeyFor(metric: string, k: string, v: string): string {
    metric + "/" + k + "=" + v
  }

  // ----- Building the index -----

  ghost predicate HasTagKey(e: Expression, tagKeys: set<string>, key: string) {
    exists k :: k in tagKeys && k in e.tags && KeyFor(e.metric, k, e.tags[k]) == key
  }

  predicate Filed(m: Index, key: string, e: Expression) {
    key in m && e in m[key]
  }

  function Append(m: Index, key: string, e: Expression): Index {
    m[key := (if key in m then m[key] else []) + [e]]
  }

  lemma FiledAfterAppend(m: Index, key: string, e: Expression, key': string, e': Expression)
    ensures Filed(Append(m, key, e), key', e') <==> Filed(m, key', e') || (key' == key && e' == e)
  {
  }

  /** Files one expression under each of its tags. */
  method FileExpression(m0: Index, e: Expression) returns (m: Index)
    ensures forall key, e' :: Filed(m, key, e') <==> Filed(m0, key, e') || (e' == e && HasTagKey(e, e.tags.Keys, key))
  {
    hide Filed, Append, KeyFor;
    m := m0;
    var rest := e.tags.Keys;
    ghost var done: set<string> := {};
    while rest != {}
      invariant rest <= e.tags.Keys && done == e.tags.Keys - rest
      invariant forall key, e' :: Filed(m, key, e') <==> Filed(m0, key, e') || (e' == e && HasTagKey(e, done, key))
      decreases rest
    {
      var k :| k in rest;
      var key := KeyFor(e.metric, k, e.tags[k]);
      forall key', e' ensures Filed(Append(m, key, e), key', e') <==> Filed(m, key', e') || (key' == key && e' == e) {
        FiledAfterAppend(m, key, e, key', e');
      }
      forall key' ensures HasTagKey(e, done + {k}, key') <==> HasTagKey(e, done, key') || key' == key { }
      m := Append(m, key, e);
      rest := rest - {k};
      done := done + {k};
    }
    assert done == e.tags.Keys;
  }

  /** The index files exactly the given expressions, under exactly the keys of their tags. */
  ghost predicate IndexOf(m: Index, exps: seq<Expression>) {
    forall key, e :: Filed(m, key, e) <==> e in exps && HasTagKey(e, e.tags.Keys, key)
  }

  method RebuildExpressionMap(exps: seq<Expression>) returns (m: Index)
    ensures IndexOf(m, exps)
  {
    hide HasTagKey;
    m := map[];
    for n := 0 to |exps|
      invariant IndexOf(m, exps[..n])
    {
      m := FileExpression(m, exps[n]);
      assert exps[..n + 1] == exps[..n] + [exps[n]];
    }
    assert exps[..|exps|] == exps;
  }

  // ----- Matching one item -----

  /** Every tag of the expression is met: by the item's tag of that name or, where the item has none,
      the tag "endpoint" by the item's endpoint. */
  predicate Related(e: Expression, item: JudgeItem) {
    forall k :: k in e.tags ==>
      || (k in item.tags && item.tags[k] == e.tags[k])
      || (k == "endpoint" && k !in item.tags && item.endpoint == e.tags[k])
  }

  ghost predicate ItemKey(item: JudgeItem, key: string) {
    || key == KeyFor(item.metric, "endpoint", item.endpoint)
    || exists k :: k in item.tags && key == KeyFor(item.metric, k, item.tags[k])
  }

  method BuildKeysFromMetricAndTags(item: JudgeItem) returns (keys: seq<string>)
    ensures forall key :: key in keys <==> ItemKey(item, key)
  {
    hide KeyFor;
    keys := [];
    var rest := item.tags.Keys;
    while rest != {}
      invariant rest <= item.tags.Keys
      invariant forall key ::
                  key in keys <==>
                  exists k :: k in item.tags && k !in rest && key == KeyFor(item.metric, k, item.tags[k])
      decreases rest
    {
      var k :| k in rest;
      keys := keys + [KeyFor(item.metric, k, item.tags[k])];
      rest := rest - {k};
    }
    keys := keys + [KeyFor(item.metric, "endpoint", item.endpoint)];
  }

  /** copyItemTags: the endpoint first, so that a tag of that name replaces it. */
  method CopyItemTags(item: JudgeItem) returns (ret: Tags)
    ensures forall k :: k in ret <==> k in item.tags || k == "endpoint"
    ensures forall k :: k in ret ==> ret[k] == if k in item.tags then item.tags[k] else item.endpoint
  {
    ret := map["endpoint" := item.endpoint];
    var rest := item.tags.Keys;
    while rest != {}
      invariant rest <= item.tags.Keys
      invariant forall k :: k in ret <==> (k in item.tags && k !in rest) || k == "endpoint"
      invariant forall k :: k in ret ==>
                  ret[k] == if k in item.tags && k !in rest then item.tags[k] else item.endpoint
      decreases rest
    {
      var k :| k in rest;
      ret := ret[k := item.tags[k]];
      rest := rest - {k};
    }
  }

  method IsRelated(e: Expression, item: JudgeItem) returns (related: bool)
    ensures related == Related(e, item)
  {
    var seen := item.tags;
    if "endpoint" in e.tags {
      seen := CopyItemTags(item);
    }
    related := true;
    var rest := e.tags.Keys;
    while rest != {}
      invariant related && rest <= e.tags.Keys
      invariant forall k :: k in e.tags && k !in rest ==> k in seen && seen[k] == e.tags[k]
      decreases rest
    {
      var k :| k in rest;
      if k !in seen || seen[k] != e.tags[k] {
        related := false;
        break;
      }
      rest := rest - {k};
    }
  }

  lemma RelatedInWords(item: JudgeItem)
    ensures forall e :: Related(e, item) <==>
              forall k :: k in e.tags ==>
                || (k in item.tags && item.tags[k] == e.tags[k])
                || (k == "endpoint" && k !in item.tags && item.endpoint == e.tags[k])
  {
  }

  method FilterRelatedExpressions(exps: seq<Expression>, item: JudgeItem) returns (r: seq<Expression>)
    ensures forall e :: e in r <==> e in exps && Related(e, item)
    ensures forall e :: e in r <==>
              && e in exps
              && forall k :: k in e.tags ==>
                   || (k in item.tags && item.tags[k] == e.tags[k])
                   || (k == "endpoint" && k !in item.tags && item.endpoint == e.tags[k])
  {
    RelatedInWords(item);
    hide Related;
    r := [];
    for n := 0 to |exps|
      invariant forall e :: e in r <==> e in exps[..n] && Related(e, item)
    {
      assert exps[..n + 1] == exps[..n] + [exps[n]];
      var related := IsRelated(exps[n], item);
      if related {
        r := r + [exps[n]];
      }
    }
    assert exps[..|exps|] == exps;
  }

  predicate HandledId(out: seq<Expression>, id: int) {
    exists i :: 0 <= i < |out| && out[i].id == id
  }

  ghost predicate DistinctIds(out: seq<Expression>) {
    forall i, j :: 0 <= i < j < |out| ==> out[i].id != out[j].id
  }

  /** Adds the expressions of `related` whose ids have not been handled yet. */
  method JudgeNew(before: seq<Expression>, handled0: set<int>, related: seq<Expression>)
    returns (out: seq<Expression>, handled: set<int>)
    requires DistinctIds(before) && forall id :: id in handled0 <==> HandledId(before, id)
    ensures DistinctIds(out) && forall id :: id in handled <==> HandledId(out, id)
    ensures before <= out && forall i :: |before| <= i < |out| ==> out[i] in related
    ensures forall e :: e in related ==> HandledId(out, e.id)
  {
    hide HandledId;
    out, handled := before, handled0;
    for n := 0 to |related|
      invariant DistinctIds(out) && forall id :: id in handled <==> HandledId(out, id)
      invariant before <= out && forall i :: |before| <= i < |out| ==> out[i] in related
      invariant forall k :: 0 <= k < n ==> HandledId(out, related[k].id)
    {
      var exp := related[n];
      if exp.id !in handled {
        forall id ensures HandledId(out + [exp], id) <==> HandledId(out, id) || id == exp.id {
          HandledSnoc(out, exp, id);
        }
        NewIdDistinct(out, exp);
        handled := handled + {exp.id};
        out := out + [exp];
      }
    }
  }

  lemma HandledSnoc(out: seq<Expression>, e: Expression, id: int)
    ensures HandledId(out + [e], id) <==> HandledId(out, id) || id == e.id
  {
    assert (out + [e])[|out|] == e;
    if i :| 0 <= i < |out| && out[i].id == id {
      assert (out + [e])[i].id == id;
    }
  }

  lemma NewIdDistinct(out: seq<Expression>, e: Expression)
    requires DistinctIds(out) && !HandledId(out, e.id)
    ensures DistinctIds(out + [e])
  {
  }

  lemma HandledGrows(before: seq<Expression>, out: seq<Expression>, id: int)
    requires before <= out && HandledId(before, id)
    ensures HandledId(out, id)
  {
    var i :| 0 <= i < |before| && before[i].id == id;
    assert out[i].id == id;
  }

  /** An expression that the item reaches through one of `keys` and that matches its tags. */
  ghost predicate Reached(m: Index, keys: seq<string>, item: JudgeItem, e: Expression) {
    Related(e, item) && exists key :: key in keys && Filed(m, key, e)
  }

  ghost predicate JudgesReached(m: Index, keys: seq<string>, item: JudgeItem, out: seq<Expression>) {
    && DistinctIds(out)
    && (forall e :: e in out ==> Reached(m, keys, item, e))
    && (forall e :: Reached(m, keys, item, e) ==> HandledId(out, e.id))
  }

  lemma ReachedSnoc(m: Index, keys: seq<string>, item: JudgeItem, key: string, e: Expression)
    ensures Reached(m, keys + [key], item, e) <==> Reached(m, keys, item, e) || (Related(e, item) && Filed(m, key, e))
  {
    hide Related, Filed;
    if k :| k in keys && Filed(m, k, e) {
      assert k in keys + [key];
    }
    assert key in keys + [key];
  }

  lemma JudgesSnoc(m: Index, keys: seq<string>, item: JudgeItem, key: string, before: seq<Expression>,
                   out: seq<Expression>)
    requires JudgesReached(m, keys, item, before) && DistinctIds(out) && before <= out
    requires forall i :: |before| <= i < |out| ==> Related(out[i], item) && Filed(m, key, out[i])
    requires forall e :: Related(e, item) && Filed(m, key, e) ==> HandledId(out, e.id)
    ensures JudgesReached(m, keys + [key], item, out)
  {
    hide Related, Filed, Reached, HandledId, DistinctIds;
    forall e
      ensures Reached(m, keys + [key], item, e)
              <==> Reached(m, keys, item, e) || (Related(e, item) && Filed(m, key, e)) {
      ReachedSnoc(m, keys, item, key, e);
    }
    forall i | 0 <= i < |out| ensures Reached(m, keys + [key], item, out[i]) {
      if i < |before| {
        assert out[i] == before[i] && before[i] in before;
      }
    }
    forall e | Reached(m, keys, item, e) ensures HandledId(out, e.id) {
      HandledGrows(before, out, e.id);
    }
  }

  /** CheckExpression; `judged` lists the expressions that are evaluated, in order, and `keys` the
      keys that were looked up. */
  method CheckExpression(m: Index, item: JudgeItem) returns (judged: seq<Expression>, keys: seq<string>)
    ensures forall key :: key in keys <==> ItemKey(item, key)
    ensures JudgesReached(m, keys, item, judged)
  {
    hide Related, Reached, HandledId, JudgesReached, ItemKey;
    var ks := BuildKeysFromMetricAndTags(item);
    keys := ks;
    judged := [];
    var handled: set<int> := {};
    NothingReached(m, item);
    for n := 0 to |ks|
      invariant DistinctIds(judged) && forall id :: id in handled <==> HandledId(judged, id)
      invariant JudgesReached(m, ks[..n], item, judged)
    {
      assert ks[..n + 1] == ks[..n] + [ks[n]];
      var filed := if ks[n] in m then m[ks[n]] else [];
      var related := FilterRelatedExpressions(filed, item);
      ghost var before := judged;
      judged, handled := JudgeNew(judged, handled, related);
      JudgesSnoc(m, ks[..n], item, ks[n], before, judged);
    }
    assert ks[..|ks|] == ks;
  }

  lemma NothingReached(m: Index, item: JudgeItem)
    ensures JudgesReached(m, [], item, []) && forall id :: !HandledId([], id)
  {
  }

  // ----- Agreement with brute force -----

  ghost predicate UniqueIds(exps: seq<Expression>) {
    forall e, e' :: e in exps && e' in exps && e.id == e'.id ==> e == e'
  }

  /** Some tag of the expression yields a key of the item. */
  ghost predicate SharesKey(e: Expression, item: JudgeItem) {
    exists k :: k in e.tags && ItemKey(item, KeyFor(e.metric, k, e.tags[k]))
  }

  /** For any metrics: an expression is judged, once, exactly when each of its tags is met by the item
      and one of its keys is a key of the item. */
  lemma JudgedIff(exps: seq<Expression>, m: Index, item: JudgeItem, keys: seq<string>, judged: seq<Expression>,
                  e: Expression)
    requires IndexOf(m, exps) && UniqueIds(exps)
    requires forall key :: key in keys <==> ItemKey(item, key)
    requires JudgesReached(m, keys, item, judged)
    ensures e in judged <==> e in exps && Related(e, item) && SharesKey(e, item)
    ensures e in judged <==>
            && e in exps && SharesKey(e, item)
            && forall k :: k in e.tags ==>
                 || (k in item.tags && item.tags[k] == e.tags[k])
                 || (k == "endpoint" && k !in item.tags && item.endpoint == e.tags[k])
    ensures forall i, j :: 0 <= i < j < |judged| ==> judged[i] != judged[j]
  {
    RelatedInWords(item);
    hide Related, ItemKey, KeyFor;
    forall x ensures Reached(m, keys, item, x) <==> x in exps && Related(x, item) && SharesKey(x, item) {
      ReachedIff(exps, m, item, keys, x);
    }
    if Reached(m, keys, item, e) {
      assert HandledId(judged, e.id);
      var i :| 0 <= i < |judged| && judged[i].id == e.id;
      assert judged[i] in judged && Reached(m, keys, item, judged[i]);
    }
  }

  lemma ReachedIff(exps: seq<Expression>, m: Index, item: JudgeItem, keys: seq<string>, e: Expression)
    requires IndexOf(m, exps)
    requires forall key :: key in keys <==> ItemKey(item, key)
    ensures Reached(m, keys, item, e) <==> e in exps && Related(e, item) && SharesKey(e, item)
  {
    hide Related, ItemKey, KeyFor, Filed;
    if key :| key in keys && Filed(m, key, e) {
      assert HasTagKey(e, e.tags.Keys, key);
    }
    if e in exps && SharesKey(e, item) {
      var k :| k in e.tags && ItemKey(item, KeyFor(e.metric, k, e.tags[k]));
      var key := KeyFor(e.metric, k, e.tags[k]);
      assert HasTagKey(e, e.tags.Keys, key);
      assert key in keys && Filed(m, key, e);
    }
  }

  /** A slash-free metric can be read back off a key. */
  lemma KeyTellsMetric(m: string, k: string, v: string, n: string, l: string, w: string)
    requires '/' !in m && '/' !in n && KeyFor(m, k, v) == KeyFor(n, l, w)
    ensures m == n
  {
    var key := KeyFor(m, k, v);
    assert key == m + ("/" + k + "=" + v) && key == n + ("/" + l + "=" + w);
    assert key[|m|] == '/' && key[|n|] == '/';
    assert forall i :: 0 <= i < |m| ==> key[i] == m[i];
    assert forall i :: 0 <= i < |n| ==> key[i] == n[i];
    assert |m| == |n|;
    assert m == key[..|m|] && n == key[..|n|];
  }

  lemma SharesKeyIff(e: Expression, item: JudgeItem)
    requires '/' !in e.metric && '/' !in item.metric && Related(e, item)
    ensures SharesKey(e, item) <==> e.metric == item.metric && e.tags != map[]
  {
    hide KeyFor;
    if k :| k in e.tags && ItemKey(item, KeyFor(e.metric, k, e.tags[k])) {
      var key := KeyFor(e.metric, k, e.tags[k]);
      if key == KeyFor(item.metric, "endpoint", item.endpoint) {
        KeyTellsMetric(e.metric, k, e.tags[k], item.metric, "endpoint", item.endpoint);
      } else {
        var l :| l in item.tags && key == KeyFor(item.metric, l, item.tags[l]);
        KeyTellsMetric(e.metric, k, e.tags[k], item.metric, l, item.tags[l]);
      }
    }
    if e.metric == item.metric && e.tags != map[] {
      var k :| k in e.tags;
      assert ItemKey(item, KeyFor(e.metric, k, e.tags[k]));
    }
  }

  /** What a look at every expression would judge. */
  ghost predicate BruteForce(exps: seq<Expression>, item: JudgeItem, e: Expression) {
    && e in exps && e.tags != map[] && e.metric == item.metric
    && forall k :: k in e.tags ==>
         || (k in item.tags && item.tags[k] == e.tags[k])
         || (k == "endpoint" && k !in item.tags && item.endpoint == e.tags[k])
  }

  /** A matching expression about another metric that shares a key with the item. */
  ghost predicate Foreign(exps: seq<Expression>, item: JudgeItem, e: Expression) {
    e in exps && e.metric != item.metric && Related(e, item) && SharesKey(e, item)
  }

  lemma OwnMetricSharesKey(e: Expression, item: JudgeItem)
    requires Related(e, item)
    ensures SharesKey(e, item) ==> e.tags != map[]
    ensures e.metric == item.metric && e.tags != map[] ==> SharesKey(e, item)
  {
    hide KeyFor;
    if e.metric == item.metric && e.tags != map[] {
      var k :| k in e.tags;
      assert ItemKey(item, KeyFor(e.metric, k, e.tags[k]));
    }
  }

  /** For any metrics: the index judges the expressions that brute force would judge if and only if
      no expression about another metric gets in through a shared key. */
  lemma IndexAgreesIff(exps: seq<Expression>, m: Index, item: JudgeItem, keys: seq<string>, judged: seq<Expression>)
    requires IndexOf(m, exps) && UniqueIds(exps)
    requires forall key :: key in keys <==> ItemKey(item, key)
    requires JudgesReached(m, keys, item, judged)
    ensures (forall e :: e in judged <==> BruteForce(exps, item, e)) <==> !exists e :: Foreign(exps, item, e)
  {
    RelatedInWords(item);
    hide Related, ItemKey, IndexOf, JudgesReached, SharesKey, UniqueIds;
    forall e ensures (e in judged <==> BruteForce(exps, item, e)) <==> !Foreign(exps, item, e) {
      JudgedIff(exps, m, item, keys, judged, e);
      if Related(e, item) {
        OwnMetricSharesKey(e, item);
      }
    }
  }

  /** For metrics without a slash and unique ids the index changes nothing: an expression with
      some tag is judged, once, exactly when its metric and all its tags match. */
  lemma IndexAgreesWithBruteForce(exps: seq<Expression>, m: Index, item: JudgeItem, keys: seq<string>,
                                  judged: seq<Expression>, e: Expression)
    requires IndexOf(m, exps) && UniqueIds(exps)
    requires forall key :: key in keys <==> ItemKey(item, key)
    requires JudgesReached(m, keys, item, judged)
    requires '/' !in item.metric && '/' !in e.metric
    ensures e in judged <==> BruteForce(exps, item, e)
    ensures forall i, j :: 0 <= i < j < |judged| ==> judged[i] != judged[j]
  {
    RelatedInWords(item);
    hide Related, ItemKey, IndexOf, JudgesReached, SharesKey;
    JudgedIff(exps, m, item, keys, judged, e);
    if Related(e, item) {
      SharesKeyIff(e, item);
    }
  }

  /** An expression on an endpoint matches an ordinary item of that endpoint, and reaches it. */
  lemma EndpointIsMet(host: string, metric: string, value: real, ts: int)
    ensures var e := Expression(1, metric, map["endpoint" := host]);
            var item := JudgeItem(host, metric, value, ts, "GAUGE", map[]);
            Related(e, item) && SharesKey(e, item)
  {
    var e := Expression(1, metric, map["endpoint" := host]);
    var item := JudgeItem(host, metric, value, ts, "GAUGE", map[]);
    assert ItemKey(item, KeyFor(e.metric, "endpoint", e.tags["endpoint"]));
  }

  /** With a slash in a metric a foreign expression can be judged: the tags are compared, the
      metric never is. */
  lemma SlashMisjudges()
    ensures var e := Expression(1, "a/b", map["k" := "v"]);
            var item := JudgeItem("host", "a", 0.0, 1, "GAUGE", map["k" := "v", "b/k" := "v"]);
            Related(e, item) && SharesKey(e, item) && e.metric != item.metric
  {
    var e := Expression(1, "a/b", map["k" := "v"]);
    var item := JudgeItem("host", "a", 0.0, 1, "GAUGE", map["k" := "v", "b/k" := "v"]);
    assert "endpoint" !in e.tags by { assert |"endpoint"| != |"k"|; }
    assert "b/k" in item.tags && KeyFor("a", "b/k", "v") == KeyFor("a/b", "k", "v");
    assert ItemKey(item, KeyFor(e.metric, "k", e.tags["k"]));
    assert e.metric != item.metric by { assert |e.metric| != |item.metric|; }
  }
}
