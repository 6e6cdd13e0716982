/** What follows for the answers of the heartbeat server (hbs/rpc/hbs.go): they do not depend on the
    order of maps, and repeated bindings change them in an exactly known way. */
module InheritAnswer {
  import opened Wrappers
  import opened Inherit

  ghost predicate UniqueIds(index: StrategyIndex) {
    forall a, b, s, t :: s in StrategiesOf(index, a) && t in StrategiesOf(index, b) && s.id == t.id ==> s == t
  }

  /** Strategies by id, as the cache holds them; None stands for a missing one and for one
      without a template. */
  type StrategyMap = map<int, Option<Strategy>>

  predicate HasKey(strategies: StrategyMap, done: set<int>, s: Strategy) {
    exists id :: id in done && id in strategies && strategies[id] == Some(s)
  }

  /** The index lists, per template, exactly the strategies defined by it. */
  ghost predicate GroupedBy(index: StrategyIndex, strategies: StrategyMap, done: set<int>) {
    forall tid, s :: s in StrategiesOf(index, tid) <==> s.tpl.id == tid && HasKey(strategies, done, s)
  }

  lemma GroupOne(index: StrategyIndex, strategies: StrategyMap, done: set<int>, id: int)
    requires GroupedBy(index, strategies, done) && id in strategies && strategies[id].Some?
    ensures var s := strategies[id].value;
            GroupedBy(index[s.tpl.id := StrategiesOf(index, s.tpl.id) + [s]], strategies, done + {id})
  {
    var s := strategies[id].value;
    var index' := index[s.tpl.id := StrategiesOf(index, s.tpl.id) + [s]];
    forall tid, t ensures t in StrategiesOf(index', tid) <==> t.tpl.id == tid && HasKey(strategies, done + {id}, t) {
      assert t in StrategiesOf(index', tid) <==> t in StrategiesOf(index, tid) || (tid == s.tpl.id && t == s);
      assert HasKey(strategies, done + {id}, t) <==> HasKey(strategies, done, t) || t == s;
    }
  }

  lemma SkipOne(index: StrategyIndex, strategies: StrategyMap, done: set<int>, id: int)
    requires GroupedBy(index, strategies, done) && id in strategies && strategies[id].None?
    ensures GroupedBy(index, strategies, done + {id})
  {
    forall t ensures HasKey(strategies, done + {id}, t) <==> HasKey(strategies, done, t) { }
  }

  lemma NoMember(keys: set<int>)
    requires forall k :: k !in keys
    ensures keys == {}
  {
    assert forall k :: k in keys <==> k in {};
  }

  /** Tpl2Strategies; the map yields its keys in whatever order. */
  method Tpl2Strategies(strategies: StrategyMap) returns (ret: StrategyIndex)
    ensures GroupedBy(ret, strategies, strategies.Keys)
  {
    ret := map[];
    var rest := strategies.Keys;
    while rest != {}
      invariant rest <= strategies.Keys
      invariant GroupedBy(ret, strategies, strategies.Keys - rest)
      decreases rest
    {
      if forall k :: k !in rest {
        NoMember(rest);
      }
      var id :| id in rest;
      ghost var done := strategies.Keys - rest;
      assert strategies.Keys - (rest - {id}) == done + {id};
      if strategies[id].None? {
        SkipOne(ret, strategies, done, id);
      } else {
        GroupOne(ret, strategies, done, id);
        var s := strategies[id].value;
        ret := ret[s.tpl.id := StrategiesOf(ret, s.tpl.id) + [s]];
      }
      rest := rest - {id};
    }
    assert strategies.Keys - {} == strategies.Keys;
  }

  /** A cache keyed by strategy id groups into an index in which ids are unique. */
  lemma GroupedIdsAreUnique(index: StrategyIndex, strategies: StrategyMap)
    requires GroupedBy(index, strategies, strategies.Keys)
    requires forall id :: id in strategies && strategies[id].Some? ==> strategies[id].value.id == id
    ensures UniqueIds(index)
  {
    hide StrategiesOf;
  }

  lemma EffectiveIsIndexed(index: StrategyIndex, chain: seq<int>, s: Strategy)
    requires IsEffective(index, chain, s)
    ensures exists tid :: s in StrategiesOf(index, tid)
  {
    hide Effective;
    EffectiveIsYoungest(index, chain, s);
    var p :| YoungestAt(index, chain, s, p);
    assert s in StrategiesOf(index, chain[p]);
  }

  lemma OriginsAgree(all: Templates, index: StrategyIndex, buckets: seq<seq<int>>,
                     o: Strategy, c: int, s: Strategy, o': Strategy, c': int, s': Strategy)
    requires LeavesKnown(all, buckets) && UniqueIds(index) && o.id == o'.id
    requires OriginAt(all, index, buckets, o, c, s) && OriginAt(all, index, buckets, o', c', s')
    ensures o == o'
  {
    hide IsEffective, StrategiesOf;
    EffectiveIsIndexed(index, buckets[c], s);
    EffectiveIsIndexed(index, buckets[c'], s');
    var a :| s in StrategiesOf(index, a);
    var b :| s' in StrategiesOf(index, b);
    assert s == s' && c == c';
  }

  /** The order in which maps yield their keys decides the order of the answer, never its
      contents. */
  lemma AnswerIsUnique(all: Templates, index: StrategyIndex, buckets: seq<seq<int>>, out: seq<Strategy>,
                       out': seq<Strategy>, o: Strategy)
    requires LeavesKnown(all, buckets) && UniqueIds(index)
    requires Inherited(all, index, buckets, out) && Inherited(all, index, buckets, out')
    requires o in out
    ensures o in out'
  {
    hide OriginAt, UniqueIds;
    assert HasOrigin(all, index, buckets, o);
    var c, s :| OriginAt(all, index, buckets, o, c, s);
    OriginIsEffective(all, index, buckets, o, c, s);
    var i :| 0 <= i < |out'| && out'[i].id == o.id;
    assert out'[i] in out' && HasOrigin(all, index, buckets, out'[i]);
    var c', s' :| OriginAt(all, index, buckets, out'[i], c', s');
    OriginsAgree(all, index, buckets, o, c, s, out'[i], c', s');
  }

  lemma OriginIsEffective(all: Templates, index: StrategyIndex, buckets: seq<seq<int>>, o: Strategy, c: int,
                          s: Strategy)
    requires LeavesKnown(all, buckets) && OriginAt(all, index, buckets, o, c, s)
    ensures 0 <= c < |buckets| && IsEffective(index, buckets[c], s) && s.id == o.id
  {
  }

  // ----- Kept chains that another kept chain extends -----

  /** Some chain of the list continues this one. */
  predicate Extended(chains: seq<seq<int>>, chain: seq<int>) {
    exists j :: 0 <= j < |chains| && chain < chains[j]
  }

  /** The first `n` chains without those that another one continues. */
  function Maximal(chains: seq<seq<int>>, n: nat): seq<seq<int>>
    requires n <= |chains|
  {
    if n == 0 then [] else
      Maximal(chains, n - 1) + if Extended(chains, chains[n - 1]) then [] else [chains[n - 1]]
  }

  lemma {:induction false} MaximalMembers(chains: seq<seq<int>>, n: nat, chain: seq<int>)
    requires n <= |chains|
    ensures chain in Maximal(chains, n) <==> exists c :: 0 <= c < n && chains[c] == chain && !Extended(chains, chain)
  {
    hide Extended;
    if n > 0 {
      MaximalMembers(chains, n - 1, chain);
    }
  }

  lemma {:induction false} UniqMembers(buckets: seq<seq<int>>, n: nat, chain: seq<int>)
    requires n <= |buckets|
    ensures chain in UniqBuckets(buckets, n) <==> exists i :: 0 <= i < n && buckets[i] == chain && Kept(buckets, i)
  {
    hide Kept;
    if n > 0 {
      UniqMembers(buckets, n - 1, chain);
    }
  }

  /** Among the kept chains one is continued by another exactly when some redundant bucket has a
      copy and does not follow an extension of itself. */
  lemma ExtendedKeptIff(all: Templates, buckets: seq<seq<int>>)
    requires AllChains(all, buckets) && forall k :: 0 <= k < |buckets| ==> |buckets[k]| < MAX_DEPTH
    ensures var uniq := UniqBuckets(buckets, |buckets|);
            (exists chain :: chain in uniq && Extended(uniq, chain)) <==>
            (exists i :: 0 <= i < |buckets| && Redundant(buckets, i) && !Sole(buckets, i) && !ExtendedFirst(buckets, i))
  {
    hide IsChain, Kept, Sole, ExtendedFirst, UniqBuckets, AllChains;
    var uniq := UniqBuckets(buckets, |buckets|);
    EliminationCompleteIff(all, buckets);
    if chain :| chain in uniq && Extended(uniq, chain) {
      UniqMembers(buckets, |buckets|, chain);
      var i :| 0 <= i < |buckets| && buckets[i] == chain && Kept(buckets, i);
      var j :| 0 <= j < |uniq| && chain < uniq[j];
      assert uniq[j] in uniq;
      UniqMembers(buckets, |buckets|, uniq[j]);
      var k :| 0 <= k < |buckets| && buckets[k] == uniq[j];
      assert ProperPrefix(buckets, i, k);
    }
    if i :| 0 <= i < |buckets| && Redundant(buckets, i) && Kept(buckets, i) {
      var j :| ProperPrefix(buckets, i, j);
      var k := DroppedUnderKept(all, buckets, j);
      UniqMembers(buckets, |buckets|, buckets[i]);
      UniqMembers(buckets, |buckets|, buckets[k]);
      assert buckets[i] < buckets[k] && buckets[k] in uniq;
      assert Extended(uniq, buckets[i]);
    }
  }

  // ----- What they add to the answer -----

  ghost predicate EffectiveId(index: StrategyIndex, chain: seq<int>, id: int) {
    exists s :: IsEffective(index, chain, s) && s.id == id
  }

  lemma IdsIff(all: Templates, index: StrategyIndex, chains: seq<seq<int>>, out: seq<Strategy>, id: int)
    requires LeavesKnown(all, chains) && Inherited(all, index, chains, out)
    ensures HasId(out, id) <==> exists c :: 0 <= c < |chains| && EffectiveId(index, chains[c], id)
  {
    hide IsEffective;
    if i :| 0 <= i < |out| && out[i].id == id {
      assert out[i] in out && HasOrigin(all, index, chains, out[i]);
      var c, s :| OriginAt(all, index, chains, out[i], c, s);
      OriginIsEffective(all, index, chains, out[i], c, s);
      assert EffectiveId(index, chains[c], id);
    }
    if c :| 0 <= c < |chains| && EffectiveId(index, chains[c], id) {
      var s :| IsEffective(index, chains[c], s) && s.id == id;
    }
  }

  /** Wherever the chain defines `s`, a younger template of it defines its metric and tags, too. */
  ghost predicate Overridden(index: StrategyIndex, chain: seq<int>, s: Strategy) {
    forall p :: 0 <= p < |chain| && s in StrategiesOf(index, chain[p]) ==> RedefinedAbove(index, chain, s, p)
  }

  ghost predicate RedefinedAbove(index: StrategyIndex, chain: seq<int>, s: Strategy, p: int) {
    exists q, t :: 0 <= p < q < |chain| && t in StrategiesOf(index, chain[q]) && Uuid(t) == Uuid(s)
  }

  lemma OverriddenIff(index: StrategyIndex, chain: seq<int>, s: Strategy)
    ensures Overridden(index, chain, s) <==> !IsEffective(index, chain, s)
  {
    hide IsEffective, StrategiesOf, Uuid;
    EffectiveIsYoungest(index, chain, s);
    forall p | 0 <= p < |chain| && s in StrategiesOf(index, chain[p])
      ensures YoungestAt(index, chain, s, p) <==> !RedefinedAbove(index, chain, s, p)
    {
    }
  }

  lemma EffectiveIdIff(index: StrategyIndex, chain: seq<int>, home: seq<int>, s: Strategy)
    requires UniqueIds(index) && IsEffective(index, home, s)
    ensures EffectiveId(index, chain, s.id) <==> IsEffective(index, chain, s)
  {
    hide IsEffective, StrategiesOf;
    if t :| IsEffective(index, chain, t) && t.id == s.id {
      EffectiveIsIndexed(index, chain, t);
      EffectiveIsIndexed(index, home, s);
    }
  }

  /** An id is sent that no maximal chain calls for exactly when a kept chain that another one
      continues has a strategy of that id which every maximal chain overrides. */
  lemma LeaksIff(all: Templates, index: StrategyIndex, uniq: seq<seq<int>>, out: seq<Strategy>, best: seq<Strategy>,
                 id: int)
    requires LeavesKnown(all, uniq) && LeavesKnown(all, Maximal(uniq, |uniq|)) && UniqueIds(index)
    requires Inherited(all, index, uniq, out) && Inherited(all, index, Maximal(uniq, |uniq|), best)
    ensures HasId(out, id) && !HasId(best, id) <==>
            exists c, s :: 0 <= c < |uniq| && Leaks(index, uniq, c, s) && s.id == id
    ensures HasId(best, id) ==> HasId(out, id)
  {
    hide IsEffective, Inherited, HasId, UniqueIds, Extended, Overridden, EffectiveId, Maximal;
    IdsIff(all, index, uniq, out, id);
    IdsIff(all, index, Maximal(uniq, |uniq|), best, id);
    MaximalIds(index, uniq, id);
    if c :| 0 <= c < |uniq| && EffectiveId(index, uniq[c], id) {
      LeakAt(index, uniq, c, id);
    }
    if c, s :| 0 <= c < |uniq| && Leaks(index, uniq, c, s) && s.id == id {
      LeakedId(index, uniq, c, s);
    }
  }

  /** Kept chain `c` is continued by another one, and every maximal chain overrides its `s`. */
  ghost predicate Leaks(index: StrategyIndex, uniq: seq<seq<int>>, c: int, s: Strategy)
    requires 0 <= c < |uniq|
  {
    && Extended(uniq, uniq[c]) && IsEffective(index, uniq[c], s)
    && forall d :: 0 <= d < |uniq| && !Extended(uniq, uniq[d]) ==> Overridden(index, uniq[d], s)
  }

  ghost predicate MaximalId(index: StrategyIndex, uniq: seq<seq<int>>, id: int) {
    exists d :: 0 <= d < |uniq| && !Extended(uniq, uniq[d]) && EffectiveId(index, uniq[d], id)
  }

  lemma MaximalIds(index: StrategyIndex, uniq: seq<seq<int>>, id: int)
    ensures var best := Maximal(uniq, |uniq|);
            (exists c :: 0 <= c < |best| && EffectiveId(index, best[c], id)) <==> MaximalId(index, uniq, id)
  {
    hide EffectiveId, Extended, Maximal;
    var best := Maximal(uniq, |uniq|);
    if c :| 0 <= c < |best| && EffectiveId(index, best[c], id) {
      assert best[c] in best;
      MaximalMembers(uniq, |uniq|, best[c]);
    }
    if d :| 0 <= d < |uniq| && !Extended(uniq, uniq[d]) && EffectiveId(index, uniq[d], id) {
      MaximalMembers(uniq, |uniq|, uniq[d]);
      var c :| 0 <= c < |best| && best[c] == uniq[d];
      assert EffectiveId(index, best[c], id);
    }
  }

  lemma LeakAt(index: StrategyIndex, uniq: seq<seq<int>>, c: int, id: int)
    requires UniqueIds(index) && 0 <= c < |uniq| && EffectiveId(index, uniq[c], id)
    ensures !MaximalId(index, uniq, id) ==> exists s :: Leaks(index, uniq, c, s) && s.id == id
  {
    hide IsEffective, UniqueIds, Extended, Overridden;
    var s :| IsEffective(index, uniq[c], s) && s.id == id;
    if !MaximalId(index, uniq, id) {
      forall d | 0 <= d < |uniq| && !Extended(uniq, uniq[d]) ensures Overridden(index, uniq[d], s) {
        EffectiveIdIff(index, uniq[d], uniq[c], s);
        OverriddenIff(index, uniq[d], s);
      }
      assert Leaks(index, uniq, c, s);
    }
  }

  lemma LeakedId(index: StrategyIndex, uniq: seq<seq<int>>, c: int, s: Strategy)
    requires UniqueIds(index) && 0 <= c < |uniq| && Leaks(index, uniq, c, s)
    ensures EffectiveId(index, uniq[c], s.id) && !MaximalId(index, uniq, s.id)
  {
    hide IsEffective, UniqueIds, Extended, Overridden;
    forall d | 0 <= d < |uniq| && !Extended(uniq, uniq[d]) ensures !EffectiveId(index, uniq[d], s.id) {
      EffectiveIdIff(index, uniq[d], uniq[c], s);
      OverriddenIff(index, uniq[d], s);
    }
  }

  /** Chain `c` is the first one in which some strategy of that id is effective. */
  ghost predicate FirstWith(index: StrategyIndex, chains: seq<seq<int>>, id: int, c: int) {
    && 0 <= c < |chains| && EffectiveId(index, chains[c], id)
    && forall d :: 0 <= d < c ==> !EffectiveId(index, chains[d], id)
  }

  lemma OriginIsFirst(all: Templates, index: StrategyIndex, chains: seq<seq<int>>, out: seq<Strategy>, o: Strategy)
    returns (c: int, s: Strategy)
    requires LeavesKnown(all, chains) && Inherited(all, index, chains, out) && o in out
    ensures FirstWith(index, chains, o.id, c) && IsEffective(index, chains[c], s)
    ensures s.id == o.id && o == Retarget(all, s, Leaf(chains[c]))
  {
    hide IsEffective;
    assert HasOrigin(all, index, chains, o);
    c, s :| OriginAt(all, index, chains, o, c, s);
    OriginIsEffective(all, index, chains, o, c, s);
    assert EffectiveId(index, chains[c], o.id);
  }

  /** A strategy is sent with another template than the maximal chains would give it exactly when
      the first kept chain that calls for it is one that another chain continues. */
  lemma RetargetsIff(all: Templates, index: StrategyIndex, uniq: seq<seq<int>>, out: seq<Strategy>, best: seq<Strategy>,
                     o: Strategy, b: Strategy, c: int)
    requires AllChains(all, uniq) && UniqueIds(index) && forall t :: t in all ==> all[t].id == t
    requires LeavesKnown(all, uniq) && LeavesKnown(all, Maximal(uniq, |uniq|))
    requires Inherited(all, index, uniq, out) && Inherited(all, index, Maximal(uniq, |uniq|), best)
    requires o in out && b in best && o.id == b.id && FirstWith(index, uniq, o.id, c)
    ensures o != b <==> Extended(uniq, uniq[c])
    ensures o.tpl.id != b.tpl.id <==> Extended(uniq, uniq[c])
  {
    hide IsEffective, UniqueIds, Inherited, Extended, IsChain, EffectiveId, Maximal, Retarget;
    var maxi := Maximal(uniq, |uniq|);
    var c0, s := OriginIsFirst(all, index, uniq, out, o);
    var d, t := OriginIsFirst(all, index, maxi, best, b);
    assert c0 == c;
    SameStrategy(index, uniq[c], s, maxi[d], t);
    RetargetedTo(all, s, Leaf(uniq[c]));
    RetargetedTo(all, s, Leaf(maxi[d]));
    assert maxi[d] in maxi;
    MaximalMembers(uniq, |uniq|, maxi[d]);
    if Extended(uniq, uniq[c]) {
      LeavesDiffer(all, uniq, c, maxi[d]);
    } else {
      FirstMaximal(index, uniq, o.id, c, d);
    }
  }

  lemma SameStrategy(index: StrategyIndex, a: seq<int>, s: Strategy, b: seq<int>, t: Strategy)
    requires UniqueIds(index) && IsEffective(index, a, s) && IsEffective(index, b, t) && s.id == t.id
    ensures s == t
  {
    hide IsEffective, StrategiesOf;
    EffectiveIsIndexed(index, a, s);
    EffectiveIsIndexed(index, b, t);
  }

  lemma RetargetedTo(all: Templates, s: Strategy, leaf: int)
    requires leaf in all && all[leaf].id == leaf
    ensures Retarget(all, s, leaf).tpl.id == leaf
  {
  }

  lemma LeavesDiffer(all: Templates, uniq: seq<seq<int>>, c: int, chain: seq<int>)
    requires AllChains(all, uniq) && 0 <= c < |uniq| && Extended(uniq, uniq[c])
    requires exists e :: 0 <= e < |uniq| && uniq[e] == chain && !Extended(uniq, chain)
    ensures chain != [] && uniq[c] != [] && Leaf(uniq[c]) != Leaf(chain)
  {
    hide IsChain;
    if Leaf(uniq[c]) == Leaf(chain) {
      ChainUnique(all, uniq[c], chain, Leaf(chain));
    }
  }

  /** The first chain with an id that is maximal is the first maximal chain with that id. */
  lemma {:induction false} FirstOfMaximal(index: StrategyIndex, chains: seq<seq<int>>, id: int, c: int, n: nat)
    requires FirstWith(index, chains, id, c) && !Extended(chains, chains[c]) && c < n <= |chains|
    ensures exists e :: FirstWith(index, Maximal(chains, n), id, e) && Maximal(chains, n)[e] == chains[c]
  {
    hide EffectiveId, Extended;
    if n == c + 1 {
      var front := Maximal(chains, c);
      forall d | 0 <= d < |front| ensures !EffectiveId(index, front[d], id) {
        assert front[d] in front;
        MaximalMembers(chains, c, front[d]);
      }
      assert Maximal(chains, n) == front + [chains[c]];
      assert FirstWith(index, Maximal(chains, n), id, |front|);
    } else {
      FirstOfMaximal(index, chains, id, c, n - 1);
      var front := Maximal(chains, n - 1);
      var e :| FirstWith(index, front, id, e) && front[e] == chains[c];
      assert front <= Maximal(chains, n);
      assert FirstWith(index, Maximal(chains, n), id, e);
    }
  }

  lemma FirstMaximal(index: StrategyIndex, chains: seq<seq<int>>, id: int, c: int, d: int)
    requires FirstWith(index, chains, id, c) && !Extended(chains, chains[c])
    requires FirstWith(index, Maximal(chains, |chains|), id, d)
    ensures Maximal(chains, |chains|)[d] == chains[c]
  {
    hide EffectiveId, Extended, Maximal;
    FirstOfMaximal(index, chains, id, c, |chains|);
    var e :| FirstWith(index, Maximal(chains, |chains|), id, e) && Maximal(chains, |chains|)[e] == chains[c];
    assert e == d;
  }

  // ----- Two bindings -----

  const PARENT := Template(1, 0)
  const CHILD := Template(2, 1)

  function TwoTemplates(): Templates { map[1 := PARENT, 2 := CHILD] }

  function TwoStrategies(): StrategyIndex {
    map[1 := [Strategy(10, "m", "", PARENT)], 2 := [Strategy(20, "m", "", CHILD)]]
  }

  lemma TwoChains()
    ensures Chain(TwoTemplates(), 1) == [1] && Chain(TwoTemplates(), 2) == [1, 2]
  {
    ChainExact(TwoTemplates(), 1, [1]);
    ChainExact(TwoTemplates(), 2, [1, 2]);
  }

  lemma TwoEffective(s: Strategy)
    ensures IsEffective(TwoStrategies(), [1], s) <==> s == Strategy(10, "m", "", PARENT)
    ensures IsEffective(TwoStrategies(), [1, 2], s) <==> s == Strategy(20, "m", "", CHILD)
  {
    var index := TwoStrategies();
    var p, c := Strategy(10, "m", "", PARENT), Strategy(20, "m", "", CHILD);
    EffectiveIsYoungest(index, [1], s);
    EffectiveIsYoungest(index, [1, 2], s);
    assert YoungestAt(index, [1], p, 0);
    assert YoungestAt(index, [1, 2], c, 1);
    assert c in StrategiesOf(index, [1, 2][1]) && Uuid(c) == Uuid(p);
  }

  lemma ChildNotInParent()
    ensures !Contained([1, 2], [1]) && Contained([1], [1, 2])
  {
    assert 2 in [1, 2] && 2 !in [1];
  }

  lemma KeptOnce()
    ensures UniqBuckets([[1], [1, 2]], 2) == [[1, 2]]
  {
    var buckets := [[1], [1, 2]];
    ChildNotInParent();
    assert DropsBy(buckets, 0, 1);
    assert !DropsBy(buckets, 1, 0);
    assert Kept(buckets, 1);
    assert UniqBuckets(buckets, 1) == [];
  }

  lemma KeptTwice()
    ensures UniqBuckets([[1], [1], [1, 2]], 3) == [[1], [1], [1, 2]]
  {
    var buckets := [[1], [1], [1, 2]];
    ChildNotInParent();
    assert buckets[0] == buckets[1];
    assert Kept(buckets, 0) && Kept(buckets, 1);
    assert !DropsBy(buckets, 2, 0) && !DropsBy(buckets, 2, 1);
    assert Kept(buckets, 2);
    assert UniqBuckets(buckets, 1) == [[1]];
    assert UniqBuckets(buckets, 2) == [[1], [1]];
  }

  lemma BoundBuckets()
    ensures Buckets(TwoTemplates(), [1, 2]) == [[1], [1, 2]]
    ensures Buckets(TwoTemplates(), [1, 1, 2]) == [[1], [1], [1, 2]]
  {
    hide Chain, TwoTemplates;
    TwoChains();
    var all := TwoTemplates();
    assert Buckets(all, []) == [];
    assert [1][..0] == [] && Buckets(all, [1]) == [[1]];
    assert [1, 2][..1] == [1] && [1, 1][..1] == [1];
    assert Buckets(all, [1, 1]) == [[1], [1]];
    assert [1, 1, 2][..2] == [1, 1];
  }

  /** Bound once, an overridden strategy of the parent stays out ... */
  lemma SingleBindingOverrides(out: seq<Strategy>)
    requires LeavesKnown(TwoTemplates(), [[1, 2]])
    requires Inherited(TwoTemplates(), TwoStrategies(), [[1, 2]], out)
    ensures !HasId(out, 10)
  {
    hide IsEffective;
    if i :| 0 <= i < |out| && out[i].id == 10 {
      assert out[i] in out && HasOrigin(TwoTemplates(), TwoStrategies(), [[1, 2]], out[i]);
      var c, s :| OriginAt(TwoTemplates(), TwoStrategies(), [[1, 2]], out[i], c, s);
      TwoEffective(s);
    }
  }

  /** ... but bound twice before its descendant, the parent keeps a bucket of its own, and the
      overridden strategy is emitted as well. */
  lemma DuplicateBindingLeaks(out: seq<Strategy>)
    requires LeavesKnown(TwoTemplates(), [[1], [1], [1, 2]])
    requires Inherited(TwoTemplates(), TwoStrategies(), [[1], [1], [1, 2]], out)
    ensures Buckets(TwoTemplates(), [1, 2]) == [[1], [1, 2]] && UniqBuckets([[1], [1, 2]], 2) == [[1, 2]]
    ensures Buckets(TwoTemplates(), [1, 1, 2]) == [[1], [1], [1, 2]]
            && UniqBuckets([[1], [1], [1, 2]], 3) == [[1], [1], [1, 2]]
    ensures HasId(out, 10) && HasId(out, 20)
  {
    hide IsEffective, UniqBuckets, Buckets, HasId;
    BoundBuckets();
    KeptOnce();
    KeptTwice();
    var p, c := Strategy(10, "m", "", PARENT), Strategy(20, "m", "", CHILD);
    TwoEffective(p);
    TwoEffective(c);
    var buckets := [[1], [1], [1, 2]];
    assert IsEffective(TwoStrategies(), buckets[0], p);
    assert IsEffective(TwoStrategies(), buckets[2], c);
  }

  /** With nothing overridden no id is added, but the parent's strategy keeps the parent's template,
      where the chains without the repeated one give it the child's. */
  lemma DuplicateBindingRetargets(out: seq<Strategy>, best: seq<Strategy>, o: Strategy, b: Strategy)
    requires LeavesKnown(TwoTemplates(), [[1], [1], [1, 2]]) && LeavesKnown(TwoTemplates(), [[1, 2]])
    requires Inherited(TwoTemplates(), ParentOnly(), [[1], [1], [1, 2]], out)
    requires Inherited(TwoTemplates(), ParentOnly(), [[1, 2]], best)
    requires o in out && b in best
    ensures o == Strategy(10, "m", "", PARENT) && b == Strategy(10, "m", "", CHILD)
  {
    hide IsEffective;
    var chains := [[1], [1], [1, 2]];
    var p := Strategy(10, "m", "", PARENT);
    ParentEffective(p);
    assert EffectiveId(ParentOnly(), chains[0], 10);
    var c, s := OriginIsFirst(TwoTemplates(), ParentOnly(), chains, out, o);
    var d, t := OriginIsFirst(TwoTemplates(), ParentOnly(), [[1, 2]], best, b);
    ParentEffective(s);
    ParentEffective(t);
    assert c == 0 && d == 0;
  }

  function ParentOnly(): StrategyIndex { map[1 := [Strategy(10, "m", "", PARENT)]] }

  lemma ParentEffective(s: Strategy)
    ensures IsEffective(ParentOnly(), [1], s) <==> s == Strategy(10, "m", "", PARENT)
    ensures IsEffective(ParentOnly(), [1, 2], s) <==> s == Strategy(10, "m", "", PARENT)
  {
    var p := Strategy(10, "m", "", PARENT);
    EffectiveIsYoungest(ParentOnly(), [1], s);
    EffectiveIsYoungest(ParentOnly(), [1, 2], s);
    assert YoungestAt(ParentOnly(), [1], p, 0);
    assert YoungestAt(ParentOnly(), [1, 2], p, 0);
  }
}
