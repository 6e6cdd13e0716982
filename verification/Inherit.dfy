/** Template inheritance (hbs/cache/strategies.go, hbs/rpc/hbs.go): which strategies a host
    gets from the templates bound to it. */
module Inherit {
  datatype Template = Template(id: int, parentId: int)

  /** A strategy; `tags` is the sorted rendering of its tags. */
  datatype Strategy = Strategy(id: int, metric: string, tags: string, tpl: Template)

  type Templates = map<int, Template>

  // ----- Ancestor chains -----

  /** Root first, `leaf` last, each one the parent of the next, and no parent to go on to. */
  ghost predicate IsChain(all: Templates, chain: seq<int>, leaf: int) {
    && chain != [] && chain[|chain| - 1] == leaf
    && (forall i :: 0 <= i < |chain| ==> chain[i] > 0 && chain[i] in all)
    && (forall i, j :: 0 <= i < |chain| && 0 <= j < |chain| && j == i + 1 ==> all[chain[j]].parentId == chain[i])
    && !HasParent(all, chain[0])
  }

  predicate HasParent(all: Templates, tid: int) {
    tid in all && all[tid].parentId > 0 && all[tid].parentId in all
  }

  lemma ChainPrefix(all: Templates, chain: seq<int>, leaf: int, p: int)
    requires IsChain(all, chain, leaf) && 0 <= p < |chain|
    ensures IsChain(all, chain[..p + 1], chain[p])
  {
  }

  /** A template has at most one chain. */
  lemma {:induction false} ChainUnique(all: Templates, a: seq<int>, b: seq<int>, leaf: int)
    requires IsChain(all, a, leaf) && IsChain(all, b, leaf)
    ensures a == b
    decreases |a|
  {
    var m, n := |a| - 1, |b| - 1;
    if m > 0 {
      assert all[a[m]].parentId == a[m - 1];
      assert HasParent(all, leaf);
      assert n > 0 && all[b[n]].parentId == b[n - 1];
      ChainPrefix(all, a, leaf, m - 1);
      ChainPrefix(all, b, leaf, n - 1);
      ChainUnique(all, a[..m], b[..n], a[m - 1]);
      assert a == a[..m] + [leaf] && b == b[..n] + [leaf];
    }
  }

  /** A chain never meets a template twice. */
  lemma ChainHasNoDuplicates(all: Templates, chain: seq<int>, leaf: int)
    requires IsChain(all, chain, leaf)
    ensures forall i, j :: 0 <= i < j < |chain| ==> chain[i] != chain[j]
  {
    forall i, j | 0 <= i < j < |chain| ensures chain[i] != chain[j] {
      if chain[i] == chain[j] {
        ChainPrefix(all, chain, leaf, i);
        ChainPrefix(all, chain, leaf, j);
        ChainUnique(all, chain[..i + 1], chain[..j + 1], chain[i]);
        assert false;
      }
    }
  }

  predicate Contained(a: seq<int>, b: seq<int>) {
    forall x :: x in a ==> x in b
  }

  /** Containment of chains as sets, being a prefix, and ancestry of the leaf are the same. */
  lemma ContainedIffPrefix(all: Templates, a: seq<int>, leafA: int, b: seq<int>, leafB: int)
    requires IsChain(all, a, leafA) && IsChain(all, b, leafB)
    ensures Contained(a, b) <==> a <= b
    ensures Contained(a, b) <==> leafA in b
  {
    if leafA in b {
      var p :| 0 <= p < |b| && b[p] == leafA;
      ChainPrefix(all, b, leafB, p);
      ChainUnique(all, a, b[..p + 1], leafA);
    }
    if a <= b {
      assert forall i :: 0 <= i < |a| ==> a[i] == b[i];
    }
  }

  // ----- ParentIds -----

  /** The walk from `tid` upwards, at most `fuel` templates. */
  function UpWalk(all: Templates, tid: int, fuel: nat): (r: seq<int>)
    ensures |r| <= fuel
    decreases fuel
  {
    if fuel == 0 || tid <= 0 || tid !in all then [] else [tid] + UpWalk(all, all[tid].parentId, fuel - 1)
  }

  function Backwards(s: seq<int>): (r: seq<int>)
    ensures |r| == |s|
    ensures forall i :: 0 <= i < |s| ==> r[i] == s[|s| - 1 - i]
  {
    seq(|s|, i requires 0 <= i < |s| => s[|s| - 1 - i])
  }

  const MAX_DEPTH: nat := 10

  /** Root first; empty for an unknown template and for a walk of ten or more. */
  function Chain(all: Templates, tid: int): seq<int> {
    var up := UpWalk(all, tid, MAX_DEPTH);
    if |up| == MAX_DEPTH then [] else Backwards(up)
  }

  /** How ParentIds fills `desc` from its end. */
  method Reverse(ret: seq<int>) returns (ids: seq<int>)
    ensures ids == Backwards(ret)
  {
    var sz := |ret|;
    if sz <= 1 {
      return ret;
    }
    var desc := new int[sz];
    for i := 0 to sz
      invariant forall k :: sz - i <= k < sz ==> desc[k] == ret[sz - 1 - k]
    {
      var j := sz - i - 1;
      desc[j] := ret[i];
    }
    return desc[..];
  }

  lemma WalkStep(all: Templates, tid: int, fuel: nat, ret: seq<int>)
    requires tid > 0 && tid in all && fuel > 0
    ensures ret + UpWalk(all, tid, fuel) == (ret + [tid]) + UpWalk(all, all[tid].parentId, fuel - 1)
  {
  }

  lemma WalkEnds(all: Templates, tid: int, fuel: nat)
    ensures fuel == 0 || tid <= 0 || tid !in all ==> UpWalk(all, tid, fuel) == []
  {
  }

  method ParentIds(all: Templates, tid0: int) returns (ids: seq<int>)
    ensures ids == Chain(all, tid0)
  {
    hide UpWalk;
    WalkEnds(all, tid0, 0);
    var tid := tid0;
    var ret := [];
    var depth := 0;
    while true
      invariant 0 <= depth < MAX_DEPTH && |ret| == depth
      invariant ret + UpWalk(all, tid, MAX_DEPTH - depth) == UpWalk(all, tid0, MAX_DEPTH)
      decreases MAX_DEPTH - depth
    {
      WalkEnds(all, tid, MAX_DEPTH - depth);
      if tid <= 0 {
        break;
      }
      if tid in all {
        WalkStep(all, tid, MAX_DEPTH - depth, ret);
        ret := ret + [tid];
        tid := all[tid].parentId;
      } else {
        break;
      }
      depth := depth + 1;
      WalkEnds(all, tid, 0);
      if depth == MAX_DEPTH {
        return [];
      }
    }
    ids := Reverse(ret);
  }

  /** The walk upwards is a chain read backwards, unless it was cut off. */
  lemma {:induction false} WalkIsChain(all: Templates, tid: int, fuel: nat)
    ensures var up := UpWalk(all, tid, fuel);
            up != [] && |up| < fuel ==> IsChain(all, Backwards(up), tid)
    decreases fuel
  {
    var up := UpWalk(all, tid, fuel);
    if up != [] && |up| < fuel {
      var parent := all[tid].parentId;
      WalkIsChain(all, parent, fuel - 1);
      assert Backwards(up) == Backwards(up[1..]) + [tid];
    }
  }

  lemma {:induction false} ChainIsWalk(all: Templates, chain: seq<int>, leaf: int, fuel: nat)
    requires IsChain(all, chain, leaf)
    ensures |chain| <= fuel ==> UpWalk(all, leaf, fuel) == Backwards(chain)
    ensures |chain| > fuel ==> |UpWalk(all, leaf, fuel)| == fuel
    decreases fuel
  {
    if fuel > 0 {
      var n := |chain| - 1;
      if n > 0 {
        assert all[chain[n]].parentId == chain[n - 1];
        ChainPrefix(all, chain, leaf, n - 1);
        ChainIsWalk(all, chain[..n], chain[n - 1], fuel - 1);
        assert Backwards(chain) == [leaf] + Backwards(chain[..n]);
      } else {
        assert UpWalk(all, all[leaf].parentId, fuel - 1) == [];
        assert Backwards(chain) == [leaf];
      }
    }
  }

  /** ParentIds finds exactly the chains of fewer than ten templates. */
  lemma ChainExact(all: Templates, tid: int, chain: seq<int>)
    ensures Chain(all, tid) != [] ==> IsChain(all, Chain(all, tid), tid) && |Chain(all, tid)| < MAX_DEPTH
    ensures IsChain(all, chain, tid) ==> Chain(all, tid) == if |chain| < MAX_DEPTH then chain else []
  {
    WalkIsChain(all, tid, MAX_DEPTH);
    if IsChain(all, chain, tid) {
      ChainIsWalk(all, chain, tid, MAX_DEPTH);
      assert Backwards(Backwards(chain)) == chain;
    }
  }

  // ----- Buckets -----

  /** The non-empty chains of the bound templates, in binding order. */
  function Buckets(all: Templates, tids: seq<int>): seq<seq<int>> {
    if tids == [] then []
    else
      var front := Buckets(all, tids[..|tids| - 1]);
      var chain := Chain(all, tids[|tids| - 1]);
      if chain == [] then front else front + [chain]
  }

  method SliceIntContains(list: seq<int>, target: int) returns (found: bool)
    ensures found <==> target in list
  {
    for k := 0 to |list|
      invariant target !in list[..k]
    {
      if list[k] == target {
        return true;
      }
    }
    return false;
  }

  method SliceIntEq(a: seq<int>, b: seq<int>) returns (eq: bool)
    ensures eq <==> a == b
  {
    if |a| != |b| {
      return false;
    }
    for i := 0 to |a|
      invariant forall k :: 0 <= k < i ==> a[k] == b[k]
    {
      if a[i] != b[i] {
        return false;
      }
    }
    return true;
  }

  method SliceIntLt(a: seq<int>, b: seq<int>) returns (lt: bool)
    ensures lt <==> Contained(a, b)
  {
    for k := 0 to |a|
      invariant forall i :: 0 <= i < k ==> a[i] in b
    {
      var found := SliceIntContains(b, a[k]);
      if !found {
        return false;
      }
    }
    return true;
  }

  /** Bucket `j` makes the loop drop bucket `i`: it contains it, differs from it, and no equal
      bucket is met before it. */
  ghost predicate DropsBy(buckets: seq<seq<int>>, i: int, j: int)
    requires 0 <= i < |buckets|
  {
    && 0 <= j < |buckets| && j != i
    && Contained(buckets[i], buckets[j]) && buckets[i] != buckets[j]
    && forall k :: 0 <= k < j && k != i ==> buckets[k] != buckets[i]
  }

  ghost predicate Kept(buckets: seq<seq<int>>, i: int)
    requires 0 <= i < |buckets|
  {
    forall j :: !DropsBy(buckets, i, j)
  }

  /** The inner loop of hbs/rpc/hbs.go:130-142. */
  method IsValidBucket(buckets: seq<seq<int>>, i: nat) returns (valid: bool)
    requires i < |buckets|
    ensures valid <==> Kept(buckets, i)
  {
    valid := true;
    for j := 0 to |buckets|
      invariant valid
      invariant forall k :: 0 <= k < j && k != i ==> buckets[k] != buckets[i] && !Contained(buckets[i], buckets[k])
    {
      if i == j {
        continue;
      }
      var eq := SliceIntEq(buckets[i], buckets[j]);
      if eq {
        break;
      }
      var lt := SliceIntLt(buckets[i], buckets[j]);
      if lt {
        assert DropsBy(buckets, i, j);
        valid := false;
        break;
      }
    }
  }

  ghost function UniqBuckets(buckets: seq<seq<int>>, n: nat): seq<seq<int>>
    requires n <= |buckets|
  {
    if n == 0 then [] else
      UniqBuckets(buckets, n - 1) + if Kept(buckets, n - 1) then [buckets[n - 1]] else []
  }

  /** hbs/rpc/hbs.go:110-146. */
  method UniqueBuckets(all: Templates, tids: seq<int>) returns (uniq: seq<seq<int>>)
    ensures var buckets := Buckets(all, tids); uniq == UniqBuckets(buckets, |buckets|)
  {
    hide Chain, Kept;
    var buckets := [];
    for n := 0 to |tids|
      invariant buckets == Buckets(all, tids[..n])
    {
      assert tids[..n + 1][..n] == tids[..n];
      var ids := ParentIds(all, tids[n]);
      if |ids| <= 0 {
        continue;
      }
      buckets := buckets + [ids];
    }
    assert tids[..|tids|] == tids;
    uniq := [];
    for i := 0 to |buckets|
      invariant uniq == UniqBuckets(buckets, i)
    {
      var valid := IsValidBucket(buckets, i);
      if valid {
        uniq := uniq + [buckets[i]];
      }
    }
  }

  // ----- What the elimination means -----

  ghost predicate BoundChain(all: Templates, tids: seq<int>, c: seq<int>) {
    c != [] && Leaf(c) in tids && c == Chain(all, Leaf(c)) && IsChain(all, c, Leaf(c))
  }

  lemma {:induction false} BucketsAreBound(all: Templates, tids: seq<int>)
    ensures forall i :: 0 <= i < |Buckets(all, tids)| ==> BoundChain(all, tids, Buckets(all, tids)[i])
    ensures forall t :: t in tids && Chain(all, t) != [] ==> Chain(all, t) in Buckets(all, tids)
  {
    hide Chain, IsChain;
    if tids != [] {
      var n := |tids| - 1;
      BucketsAreBound(all, tids[..n]);
      ChainExact(all, tids[n], []);
      ChainLeaf(all, tids[n]);
      forall c | BoundChain(all, tids[..n], c) ensures BoundChain(all, tids, c) { }
    }
  }

  lemma ChainLeaf(all: Templates, tid: int)
    ensures Chain(all, tid) != [] ==> Leaf(Chain(all, tid)) == tid
  {
    ChainExact(all, tid, []);
  }

  /** Every bucket is the chain of a bound template, and every such chain is a bucket. */
  lemma BucketsAreChains(all: Templates, tids: seq<int>)
    ensures forall i :: 0 <= i < |Buckets(all, tids)| ==>
              var c := Buckets(all, tids)[i];
              c != [] && Leaf(c) in tids && c == Chain(all, Leaf(c)) && IsChain(all, c, Leaf(c))
    ensures forall t :: t in tids && Chain(all, t) != [] ==> Chain(all, t) in Buckets(all, tids)
  {
    hide Chain, IsChain, Buckets;
    BucketsAreBound(all, tids);
    forall i | 0 <= i < |Buckets(all, tids)| ensures BoundChain(all, tids, Buckets(all, tids)[i]) { }
  }

  predicate DistinctIds(tids: seq<int>) {
    forall i, j :: 0 <= i < j < |tids| ==> tids[i] != tids[j]
  }

  function Leaf(chain: seq<int>): int
    requires chain != []
  {
    chain[|chain| - 1]
  }

  lemma {:induction false} DistinctBuckets(all: Templates, tids: seq<int>)
    requires DistinctIds(tids)
    ensures forall i, j :: 0 <= i < j < |Buckets(all, tids)| ==> Buckets(all, tids)[i] != Buckets(all, tids)[j]
  {
    hide Chain, IsChain;
    if tids != [] {
      var n := |tids| - 1;
      DistinctBuckets(all, tids[..n]);
      BucketsAreChains(all, tids[..n]);
      BucketsAreChains(all, tids);
      ChainExact(all, tids[n], []);
      ChainLeaf(all, tids[n]);
    }
  }

  /** `i` is a proper ancestor chain of another bucket. */
  ghost predicate Redundant(buckets: seq<seq<int>>, i: int)
    requires 0 <= i < |buckets|
  {
    exists j :: ProperPrefix(buckets, i, j)
  }

  predicate ProperPrefix(buckets: seq<seq<int>>, i: int, j: int)
    requires 0 <= i < |buckets|
  {
    0 <= j < |buckets| && buckets[i] < buckets[j]
  }

  ghost predicate AllChains(all: Templates, buckets: seq<seq<int>>) {
    forall i :: 0 <= i < |buckets| ==> buckets[i] != [] && IsChain(all, buckets[i], Leaf(buckets[i]))
  }

  lemma DropsByPrefix(all: Templates, buckets: seq<seq<int>>, i: int, j: int)
    requires AllChains(all, buckets) && 0 <= i < |buckets|
    ensures DropsBy(buckets, i, j) <==>
            ProperPrefix(buckets, i, j) && forall k :: 0 <= k < j && k != i ==> buckets[k] != buckets[i]
  {
    hide IsChain;
    if 0 <= j < |buckets| {
      ContainedIffPrefix(all, buckets[i], Leaf(buckets[i]), buckets[j], Leaf(buckets[j]));
    }
  }

  /** With distinct bound templates a bucket is dropped exactly when its leaf is a proper
      ancestor of another bound template with a valid chain. */
  lemma DroppedIffAncestor(all: Templates, tids: seq<int>, i: int)
    requires DistinctIds(tids) && 0 <= i < |Buckets(all, tids)|
    ensures Buckets(all, tids)[i] != []
    ensures var leaf := Leaf(Buckets(all, tids)[i]);
            !Kept(Buckets(all, tids), i) <==> exists t :: t in tids && t != leaf && leaf in Chain(all, t)
  {
    hide IsChain, Chain;
    var buckets := Buckets(all, tids);
    BucketsAreChains(all, tids);
    DistinctBuckets(all, tids);
    var leaf := Leaf(buckets[i]);
    if t :| t in tids && t != leaf && leaf in Chain(all, t) {
      var j :| 0 <= j < |buckets| && buckets[j] == Chain(all, t);
      ChainLeaf(all, t);
      ContainedIffPrefix(all, buckets[i], leaf, buckets[j], t);
      assert DropsBy(buckets, i, j);
    }
    if j :| DropsBy(buckets, i, j) {
      var t := Leaf(buckets[j]);
      ContainedIffPrefix(all, buckets[i], leaf, buckets[j], t);
      assert leaf in Chain(all, t);
    }
  }

  /** Every dropped bucket is a prefix of a kept one, whatever is bound. */
  lemma {:induction false} DroppedUnderKept(all: Templates, buckets: seq<seq<int>>, i: int) returns (j: int)
    requires AllChains(all, buckets) && 0 <= i < |buckets|
    requires forall k :: 0 <= k < |buckets| ==> |buckets[k]| < MAX_DEPTH
    ensures 0 <= j < |buckets| && Kept(buckets, j) && buckets[i] <= buckets[j]
    decreases MAX_DEPTH - |buckets[i]|
  {
    hide IsChain;
    if Kept(buckets, i) {
      j := i;
    } else {
      var k :| DropsBy(buckets, i, k);
      DropsByPrefix(all, buckets, i, k);
      j := DroppedUnderKept(all, buckets, k);
    }
  }

  /** `i` is the only bucket with its chain. */
  predicate Sole(buckets: seq<seq<int>>, i: int)
    requires 0 <= i < |buckets|
  {
    forall k :: 0 <= k < |buckets| && k != i ==> buckets[k] != buckets[i]
  }

  /** Some extension of bucket `i` stands before every copy of bucket `i`. */
  ghost predicate ExtendedFirst(buckets: seq<seq<int>>, i: int)
    requires 0 <= i < |buckets|
  {
    exists j :: ProperPrefix(buckets, i, j) && forall k :: 0 <= k < |buckets| && buckets[k] == buckets[i] ==> j < k
  }

  /** With repeated bindings the elimination is complete exactly when every redundant bucket is
      the only one of its kind or follows an extension of itself. */
  lemma EliminationCompleteIff(all: Templates, buckets: seq<seq<int>>)
    requires AllChains(all, buckets)
    ensures (forall i :: 0 <= i < |buckets| && Redundant(buckets, i) ==> !Kept(buckets, i))
            <==> (forall i :: 0 <= i < |buckets| && Redundant(buckets, i) ==>
                          Sole(buckets, i) || ExtendedFirst(buckets, i))
  {
    hide IsChain;
    forall i, j | 0 <= i < |buckets|
      ensures DropsBy(buckets, i, j) <==>
              ProperPrefix(buckets, i, j) && forall k :: 0 <= k < j && k != i ==> buckets[k] != buckets[i]
    {
      DropsByPrefix(all, buckets, i, j);
    }
    if forall i :: 0 <= i < |buckets| && Redundant(buckets, i) ==> Sole(buckets, i) || ExtendedFirst(buckets, i) {
      forall i | 0 <= i < |buckets| && Redundant(buckets, i) ensures !Kept(buckets, i) {
        CompleteDrops(buckets, i);
      }
    }
    if forall i :: 0 <= i < |buckets| && Redundant(buckets, i) ==> !Kept(buckets, i) {
      forall i | 0 <= i < |buckets| && Redundant(buckets, i) && !Sole(buckets, i) ensures ExtendedFirst(buckets, i) {
        CopiesFollow(buckets, i);
      }
    }
  }

  lemma CompleteDrops(buckets: seq<seq<int>>, i: int)
    requires 0 <= i < |buckets| && Redundant(buckets, i) && (Sole(buckets, i) || ExtendedFirst(buckets, i))
    requires forall j :: DropsBy(buckets, i, j) <==>
               ProperPrefix(buckets, i, j) && forall k :: 0 <= k < j && k != i ==> buckets[k] != buckets[i]
    ensures !Kept(buckets, i)
  {
    if Sole(buckets, i) {
      var j :| ProperPrefix(buckets, i, j);
      assert DropsBy(buckets, i, j);
    } else {
      var j :| ProperPrefix(buckets, i, j) && forall k :: 0 <= k < |buckets| && buckets[k] == buckets[i] ==> j < k;
      assert DropsBy(buckets, i, j);
    }
  }

  lemma CopiesFollow(buckets: seq<seq<int>>, i: int)
    requires 0 <= i < |buckets| && Redundant(buckets, i) && !Sole(buckets, i)
    requires forall i, j :: 0 <= i < |buckets| ==>
               (DropsBy(buckets, i, j) <==>
                  ProperPrefix(buckets, i, j) && forall k :: 0 <= k < j && k != i ==> buckets[k] != buckets[i])
    requires forall i :: 0 <= i < |buckets| && Redundant(buckets, i) ==> !Kept(buckets, i)
    ensures ExtendedFirst(buckets, i)
  {
    var first := FirstCopy(buckets, i);
    var later: int;
    if first == i {
      later :| 0 <= later < |buckets| && later != i && buckets[later] == buckets[i];
    } else {
      later := i;
    }
    var e :| ProperPrefix(buckets, i, e);
    assert ProperPrefix(buckets, later, e);
    assert Redundant(buckets, later) && !Kept(buckets, later);
    var j :| DropsBy(buckets, later, j);
    assert ProperPrefix(buckets, i, j);
    assert j < first;
  }

  lemma FirstCopy(buckets: seq<seq<int>>, i: int) returns (first: int)
    requires 0 <= i < |buckets|
    ensures 0 <= first <= i && buckets[first] == buckets[i]
    ensures forall k :: 0 <= k < first ==> buckets[k] != buckets[i]
  {
    first := 0;
    while buckets[first] != buckets[i]
      invariant 0 <= first <= i && forall k :: 0 <= k < first ==> buckets[k] != buckets[i]
      decreases i - first
    {
      first := first + 1;
    }
  }

  // ----- Effective strategies -----

  type StrategyIndex = map<int, seq<Strategy>>

  function Uuid(s: Strategy): string {
    "metric:" + s.metric + "/tags:" + s.tags
  }

  /** `longer` is `shorter`, followed by what separates metric and tags in a key, and `x`. */
  predicate Overhangs(longer: string, shorter: string, x: string) {
    longer == shorter + "/tags:" + x
  }

  /** Two strategies override each other exactly when metric and tags agree, or one metric runs on
      across a separator of its own into what the other one has as tags. */
  lemma UuidCollidesIff(s: Strategy, t: Strategy)
    ensures Uuid(s) == Uuid(t) <==>
            || (s.metric == t.metric && s.tags == t.tags)
            || (exists x :: Overhangs(s.metric, t.metric, x) && t.tags == x + "/tags:" + s.tags)
            || (exists x :: Overhangs(t.metric, s.metric, x) && s.tags == x + "/tags:" + t.tags)
  {
    if Uuid(s) == Uuid(t) {
      if |s.metric| > |t.metric| {
        LongerMetric(s, t);
      } else if |s.metric| < |t.metric| {
        LongerMetric(t, s);
      } else {
        SameLength(s, t);
      }
    }
    if x :| Overhangs(s.metric, t.metric, x) && t.tags == x + "/tags:" + s.tags {
      SameKey(s, t, x);
    }
    if x :| Overhangs(t.metric, s.metric, x) && s.tags == x + "/tags:" + t.tags {
      SameKey(t, s, x);
    }
  }

  lemma SameKey(s: Strategy, t: Strategy, x: string)
    requires Overhangs(s.metric, t.metric, x) && t.tags == x + "/tags:" + s.tags
    ensures Uuid(s) == Uuid(t)
  {
    assert Uuid(t) == "metric:" + t.metric + "/tags:" + (x + "/tags:" + s.tags);
  }

  lemma SameLength(s: Strategy, t: Strategy)
    requires Uuid(s) == Uuid(t) && |s.metric| == |t.metric|
    ensures s.metric == t.metric && s.tags == t.tags
  {
    var n := |s.metric|;
    assert s.metric == Uuid(s)[7..7 + n] && t.metric == Uuid(t)[7..7 + n];
    assert s.tags == Uuid(s)[7 + n + 6..] && t.tags == Uuid(t)[7 + n + 6..];
  }

  /** The separator cannot overlap itself, so it lies in the longer metric as a whole. */
  lemma LongerMetric(s: Strategy, t: Strategy)
    requires Uuid(s) == Uuid(t) && |s.metric| > |t.metric|
    ensures |s.metric| >= |t.metric| + 6
    ensures var x := s.metric[|t.metric| + 6..];
            Overhangs(s.metric, t.metric, x) && t.tags == x + "/tags:" + s.tags
  {
    hide Overhangs, Uuid;
    var key := Uuid(s);
    var m, n := |s.metric|, |t.metric|;
    KeyParts(s);
    KeyParts(t);
    SeparatorsApart(key, 7 + n, 7 + m);
    MetricSplits(s.metric, t.metric, key);
    TagsSplit(s, t, s.metric[n + 6..]);
  }

  lemma MetricSplits(longer: string, shorter: string, key: string)
    requires |longer| >= |shorter| + 6 && |key| >= 7 + |longer|
    requires longer == key[7..7 + |longer|] && shorter == key[7..7 + |shorter|]
    requires key[7 + |shorter|..7 + |shorter| + 6] == "/tags:"
    ensures Overhangs(longer, shorter, longer[|shorter| + 6..])
  {
    var n := |shorter|;
    forall k | 0 <= k < 6 ensures longer[n + k] == "/tags:"[k] {
      assert longer[n + k] == key[7 + n + k] == key[7 + n..7 + n + 6][k];
    }
    forall k | 0 <= k < n ensures longer[k] == shorter[k] {
      assert longer[k] == key[7 + k];
    }
    assert longer[..n] == shorter && longer[n..n + 6] == "/tags:";
    assert longer == longer[..n] + longer[n..n + 6] + longer[n + 6..];
  }

  lemma TagsSplit(s: Strategy, t: Strategy, x: string)
    requires Uuid(s) == Uuid(t) && Overhangs(s.metric, t.metric, x)
    ensures t.tags == x + "/tags:" + s.tags
  {
    KeyParts(t);
    assert Uuid(s) == "metric:" + t.metric + "/tags:" + (x + "/tags:" + s.tags);
    assert Uuid(s)[7 + |t.metric| + 6..] == x + "/tags:" + s.tags;
  }

  lemma NoSlashInside(key: string, p: int, d: int)
    requires 0 <= p && p + 6 <= |key| && key[p..p + 6] == "/tags:" && 0 < d < 6
    ensures key[p + d] != '/'
  {
    assert key[p + d] == key[p..p + 6][d] == "/tags:"[d];
  }

  lemma SeparatorsApart(key: string, p: int, q: int)
    requires 0 <= p < q && q + 6 <= |key| && key[p..p + 6] == "/tags:" && key[q..q + 6] == "/tags:"
    ensures q >= p + 6
  {
    if q < p + 6 {
      NoSlashInside(key, p, q - p);
    }
    assert key[q] == key[q..q + 6][0];
  }

  lemma KeyParts(s: Strategy)
    ensures var n := |s.metric|;
            && |Uuid(s)| == 13 + n + |s.tags|
            && Uuid(s)[7..7 + n] == s.metric && Uuid(s)[7 + n..7 + n + 6] == "/tags:" && Uuid(s)[7 + n + 6..] == s.tags
  {
  }

  /** So metrics that do not hold the separator keep keys apart, in particular slash-free ones ... */
  lemma UuidSeparates(s: Strategy, t: Strategy)
    requires '/' !in s.metric && '/' !in t.metric
    ensures Uuid(s) == Uuid(t) <==> s.metric == t.metric && s.tags == t.tags
  {
    UuidCollidesIff(s, t);
    forall x ensures !Overhangs(s.metric, t.metric, x) && !Overhangs(t.metric, s.metric, x) {
      OverhangHasSlash(s.metric, t.metric, x);
      OverhangHasSlash(t.metric, s.metric, x);
    }
  }

  lemma OverhangHasSlash(longer: string, shorter: string, x: string)
    ensures Overhangs(longer, shorter, x) ==> '/' in longer
  {
    if Overhangs(longer, shorter, x) {
      assert longer[|shorter|] == '/';
    }
  }

  /** ... while others can collide. */
  lemma UuidCollides()
    ensures var s := Strategy(1, "a/tags:b", "c", Template(1, 0));
            var t := Strategy(2, "a", "b/tags:c", Template(1, 0));
            s.metric != t.metric && Uuid(s) == Uuid(t)
  {
    var s := Strategy(1, "a/tags:b", "c", Template(1, 0));
    var t := Strategy(2, "a", "b/tags:c", Template(1, 0));
    SameKey(s, t, "b");
    assert |s.metric| != |t.metric|;
  }

  function StrategiesOf(index: StrategyIndex, tid: int): seq<Strategy> {
    if tid in index then index[tid] else []
  }

  /** The strategies with one key, in order. */
  function Group(ss: seq<Strategy>, uuid: string): (r: seq<Strategy>)
    ensures forall s :: s in r <==> s in ss && Uuid(s) == uuid
  {
    if ss == [] then []
    else
      var front := Group(ss[..|ss| - 1], uuid);
      if Uuid(ss[|ss| - 1]) == uuid then front + [ss[|ss| - 1]] else front
  }

  /** All strategies that the youngest template of the chain defining `uuid` has for it. */
  function Effective(index: StrategyIndex, chain: seq<int>, uuid: string): (r: seq<Strategy>)
    ensures forall s :: s in r ==> Uuid(s) == uuid
  {
    if chain == [] then []
    else
      var own := Group(StrategiesOf(index, chain[|chain| - 1]), uuid);
      if own != [] then own else Effective(index, chain[..|chain| - 1], uuid)
  }

  predicate IsEffective(index: StrategyIndex, chain: seq<int>, s: Strategy) {
    s in Effective(index, chain, Uuid(s))
  }

  /** Effective means: defined in the chain, and by no younger template for the same key. */
  lemma {:induction false} EffectiveIsYoungest(index: StrategyIndex, chain: seq<int>, s: Strategy)
    ensures IsEffective(index, chain, s) <==> exists p :: YoungestAt(index, chain, s, p)
  {
    hide Uuid, Group, StrategiesOf;
    if chain != [] {
      var n := |chain| - 1;
      var own := Group(StrategiesOf(index, chain[n]), Uuid(s));
      if own == [] {
        EffectiveIsYoungest(index, chain[..n], s);
        OlderStaysYoungest(index, chain, s);
        if p :| YoungestAt(index, chain[..n], s, p) {
          assert YoungestAt(index, chain, s, p);
        }
      } else {
        var w := own[0];
        assert w in StrategiesOf(index, chain[n]) && Uuid(w) == Uuid(s);
        if s in own {
          assert YoungestAt(index, chain, s, n);
        }
      }
    }
  }

  lemma OlderStaysYoungest(index: StrategyIndex, chain: seq<int>, s: Strategy)
    requires chain != [] && Group(StrategiesOf(index, chain[|chain| - 1]), Uuid(s)) == []
    ensures forall p :: YoungestAt(index, chain, s, p) <==> YoungestAt(index, chain[..|chain| - 1], s, p)
  {
    hide Uuid, StrategiesOf;
    var n := |chain| - 1;
    forall t | t in StrategiesOf(index, chain[n]) ensures Uuid(t) != Uuid(s) {
      assert t !in Group(StrategiesOf(index, chain[n]), Uuid(s));
    }
  }

  ghost predicate YoungestAt(index: StrategyIndex, chain: seq<int>, s: Strategy, p: int) {
    && 0 <= p < |chain| && s in StrategiesOf(index, chain[p])
    && forall q, t :: p < q < |chain| && t in StrategiesOf(index, chain[q]) ==> Uuid(t) != Uuid(s)
  }

  // ----- One bucket -----

  /** `groups` is the map of hbs/rpc/hbs.go:156-177 after the templates of `chain`. */
  ghost predicate Resolved(index: StrategyIndex, chain: seq<int>, groups: map<string, seq<Strategy>>) {
    forall u :: (u in groups <==> Effective(index, chain, u) != [])
      && (u in groups ==> groups[u] == Effective(index, chain, u))
  }

  /** hbs/rpc/hbs.go:160-171. */
  method GroupByUuid(ss: seq<Strategy>) returns (m: map<string, seq<Strategy>>)
    ensures forall u :: (u in m <==> Group(ss, u) != []) && (u in m ==> m[u] == Group(ss, u))
  {
    hide Uuid;
    m := map[];
    for n := 0 to |ss|
      invariant forall u :: (u in m <==> Group(ss[..n], u) != []) && (u in m ==> m[u] == Group(ss[..n], u))
    {
      assert ss[..n + 1][..n] == ss[..n];
      var uuid := Uuid(ss[n]);
      if uuid in m {
        m := m[uuid := m[uuid] + [ss[n]]];
      } else {
        m := m[uuid := [ss[n]]];
      }
    }
    assert ss[..|ss|] == ss;
  }

  /** hbs/rpc/hbs.go:156-177: older templates first, so younger ones override them. */
  method ResolveBucket(index: StrategyIndex, bucket: seq<int>) returns (groups: map<string, seq<Strategy>>)
    ensures Resolved(index, bucket, groups)
  {
    hide Uuid, Group;
    groups := map[];
    for n := 0 to |bucket|
      invariant Resolved(index, bucket[..n], groups)
    {
      assert bucket[..n + 1][..n] == bucket[..n];
      var own := GroupByUuid(StrategiesOf(index, bucket[n]));
      groups := groups + own;
    }
    assert bucket[..|bucket|] == bucket;
  }

  // ----- Emission -----

  /** A copy of `s` whose template is the youngest one of the chain. */
  function Retarget(all: Templates, s: Strategy, leaf: int): Strategy
    requires leaf in all
  {
    if s.tpl.id != leaf then s.(tpl := all[leaf]) else s
  }

  ghost predicate DistinctStrategies(out: seq<Strategy>) {
    forall i, j :: 0 <= i < j < |out| ==> out[i].id != out[j].id
  }

  predicate HasId(out: seq<Strategy>, id: int) {
    exists i :: 0 <= i < |out| && out[i].id == id
  }

  /** `o` comes from bucket `c`, and no earlier bucket has an effective strategy of that id. */
  ghost predicate OriginAt(all: Templates, index: StrategyIndex, buckets: seq<seq<int>>, o: Strategy, c: int,
                           s: Strategy)
    requires forall i :: 0 <= i < |buckets| ==> buckets[i] != [] && Leaf(buckets[i]) in all
  {
    && 0 <= c < |buckets|
    && IsEffective(index, buckets[c], s) && o == Retarget(all, s, Leaf(buckets[c]))
    && forall d, t :: 0 <= d < c && IsEffective(index, buckets[d], t) ==> t.id != o.id
  }

  ghost predicate HasOrigin(all: Templates, index: StrategyIndex, buckets: seq<seq<int>>, o: Strategy)
    requires forall i :: 0 <= i < |buckets| ==> buckets[i] != [] && Leaf(buckets[i]) in all
  {
    exists c, s :: OriginAt(all, index, buckets, o, c, s)
  }

  /** The answer for `buckets`: each id once, nothing but effective strategies carrying the
      youngest template of their first bucket, and every effective strategy. */
  ghost predicate Inherited(all: Templates, index: StrategyIndex, buckets: seq<seq<int>>, out: seq<Strategy>)
    requires forall i :: 0 <= i < |buckets| ==> buckets[i] != [] && Leaf(buckets[i]) in all
  {
    && DistinctStrategies(out)
    && (forall o :: o in out ==> HasOrigin(all, index, buckets, o))
    && (forall c, s :: 0 <= c < |buckets| && IsEffective(index, buckets[c], s) ==> HasId(out, s.id))
  }

  /** The set of ids already emitted mirrors the output. */
  ghost predicate Mirrors(emitted: set<int>, out: seq<Strategy>) {
    forall id :: id in emitted <==> HasId(out, id)
  }

  ghost predicate AddedFrom(all: Templates, leaf: int, ss: seq<Strategy>, before: seq<Strategy>, o: Strategy)
    requires leaf in all
  {
    !HasId(before, o.id) && exists s :: s in ss && o == Retarget(all, s, leaf)
  }

  lemma HasIdSnoc(out: seq<Strategy>, o: Strategy, id: int)
    ensures HasId(out + [o], id) <==> HasId(out, id) || o.id == id
  {
    var more := out + [o];
    assert more[|out|] == o;
    if i :| 0 <= i < |out| && out[i].id == id {
      assert more[i].id == id;
    }
  }

  /** What one list of strategies adds. */
  ghost predicate Added(all: Templates, leaf: int, ss: seq<Strategy>, before: seq<Strategy>, after: seq<Strategy>)
    requires leaf in all
  {
    && before <= after && DistinctStrategies(after)
    && (forall i :: |before| <= i < |after| ==> AddedFrom(all, leaf, ss, before, after[i]))
    && (forall s :: s in ss ==> HasId(after, s.id))
  }

  method EmitList(all: Templates, leaf: int, ss: seq<Strategy>, before: seq<Strategy>, seen: set<int>)
    returns (after: seq<Strategy>, seen': set<int>)
    requires leaf in all && DistinctStrategies(before) && Mirrors(seen, before)
    ensures Mirrors(seen', after) && Added(all, leaf, ss, before, after)
  {
    after, seen' := before, seen;
    assert ss[..0] == [];
    for n := 0 to |ss|
      invariant Mirrors(seen', after) && Added(all, leaf, ss[..n], before, after)
    {
      var valStrategy := ss[n];
      LongerList(all, leaf, ss, n, before, after);
      if valStrategy.id !in seen' {
        if valStrategy.tpl.id != leaf {
          valStrategy := valStrategy.(tpl := all[leaf]);
        }
        EmitOne(all, leaf, ss, n, before, after, seen');
        after := after + [valStrategy];
        seen' := seen' + {valStrategy.id};
      }
    }
    assert ss[..|ss|] == ss;
  }

  lemma LongerList(all: Templates, leaf: int, ss: seq<Strategy>, n: int, before: seq<Strategy>, after: seq<Strategy>)
    requires leaf in all && 0 <= n < |ss| && Added(all, leaf, ss[..n], before, after)
    ensures forall i :: |before| <= i < |after| ==> AddedFrom(all, leaf, ss[..n + 1], before, after[i])
    ensures forall s :: s in ss[..n + 1] <==> s in ss[..n] || s == ss[n]
  {
    assert ss[..n + 1] == ss[..n] + [ss[n]];
    forall i | |before| <= i < |after| ensures AddedFrom(all, leaf, ss[..n + 1], before, after[i]) {
      assert AddedFrom(all, leaf, ss[..n], before, after[i]);
    }
  }

  lemma EmitOne(all: Templates, leaf: int, ss: seq<Strategy>, n: int, before: seq<Strategy>, after: seq<Strategy>,
                seen: set<int>)
    requires leaf in all && 0 <= n < |ss|
    requires Mirrors(seen, after) && Added(all, leaf, ss[..n], before, after) && ss[n].id !in seen
    ensures var o := Retarget(all, ss[n], leaf);
            Mirrors(seen + {o.id}, after + [o]) && Added(all, leaf, ss[..n + 1], before, after + [o])
  {
    hide HasId, Retarget;
    var o := Retarget(all, ss[n], leaf);
    RetargetKeepsId(all, ss[n], leaf);
    LongerList(all, leaf, ss, n, before, after);
    forall id ensures HasId(after + [o], id) <==> HasId(after, id) || o.id == id {
      HasIdSnoc(after, o, id);
    }
    PrefixHasFewerIds(before, after, o.id);
    assert AddedFrom(all, leaf, ss[..n + 1], before, o);
    NewIdStaysDistinct(after, o);
  }

  lemma RetargetKeepsId(all: Templates, s: Strategy, leaf: int)
    requires leaf in all
    ensures Retarget(all, s, leaf).id == s.id
  {
  }

  lemma PrefixHasFewerIds(before: seq<Strategy>, after: seq<Strategy>, id: int)
    requires before <= after
    ensures HasId(before, id) ==> HasId(after, id)
  {
    if i :| 0 <= i < |before| && before[i].id == id {
      assert after[i].id == id;
    }
  }

  lemma NewIdStaysDistinct(out: seq<Strategy>, o: Strategy)
    requires DistinctStrategies(out) && !HasId(out, o.id)
    ensures DistinctStrategies(out + [o])
  {
  }

  /** What the loop over one bucket adds, the keys in `done` having been visited. */
  ghost predicate AddedBucket(all: Templates, index: StrategyIndex, chain: seq<int>, done: set<string>,
                              before: seq<Strategy>, after: seq<Strategy>)
    requires chain != [] && Leaf(chain) in all
  {
    && before <= after && DistinctStrategies(after)
    && (forall i :: |before| <= i < |after| ==> AddedByBucket(all, index, chain, before, after[i]))
    && (forall s :: IsEffective(index, chain, s) && Uuid(s) in done ==> HasId(after, s.id))
  }

  ghost predicate AddedByBucket(all: Templates, index: StrategyIndex, chain: seq<int>, before: seq<Strategy>,
                                o: Strategy)
    requires chain != [] && Leaf(chain) in all
  {
    !HasId(before, o.id) && exists s :: IsEffective(index, chain, s) && o == Retarget(all, s, Leaf(chain))
  }

  lemma ListToBucket(all: Templates, index: StrategyIndex, chain: seq<int>, done: set<string>, u: string,
                     before: seq<Strategy>, mid: seq<Strategy>, after: seq<Strategy>)
    requires chain != [] && Leaf(chain) in all
    requires AddedBucket(all, index, chain, done, before, mid)
    requires Added(all, Leaf(chain), Effective(index, chain, u), mid, after)
    ensures AddedBucket(all, index, chain, done + {u}, before, after)
  {
    hide HasId, Retarget, Effective, Uuid;
    forall i | |before| <= i < |after| ensures AddedByBucket(all, index, chain, before, after[i]) {
      if i < |mid| {
        assert AddedByBucket(all, index, chain, before, mid[i]);
      } else {
        assert AddedFrom(all, Leaf(chain), Effective(index, chain, u), mid, after[i]);
        PrefixHasFewerIds(before, mid, after[i].id);
      }
    }
    forall s | IsEffective(index, chain, s) && Uuid(s) in done + {u} ensures HasId(after, s.id) {
      PrefixHasFewerIds(mid, after, s.id);
    }
  }

  /** hbs/rpc/hbs.go:179-194; the keys come in whatever order the map yields them. */
  method EmitBucket(all: Templates, index: StrategyIndex, bucket: seq<int>, groups: map<string, seq<Strategy>>,
                    before: seq<Strategy>, seen: set<int>)
    returns (after: seq<Strategy>, seen': set<int>)
    requires bucket != [] && Leaf(bucket) in all && Resolved(index, bucket, groups)
    requires DistinctStrategies(before) && Mirrors(seen, before)
    ensures Mirrors(seen', after) && AddedBucket(all, index, bucket, groups.Keys, before, after)
  {
    hide HasId, Retarget, Effective, Uuid, Mirrors, Added;
    var lastTid := bucket[|bucket| - 1];
    after, seen' := before, seen;
    var rest := groups.Keys;
    ghost var done: set<string> := {};
    while rest != {}
      invariant rest <= groups.Keys && done == groups.Keys - rest
      invariant Mirrors(seen', after) && DistinctStrategies(after)
                && AddedBucket(all, index, bucket, done, before, after)
      decreases rest
    {
      var u :| u in rest;
      ghost var mid := after;
      after, seen' := EmitList(all, lastTid, groups[u], after, seen');
      ListToBucket(all, index, bucket, done, u, before, mid, after);
      rest := rest - {u};
      done := done + {u};
    }
  }

  /** Keys outside the map hold no effective strategy. */
  lemma AllKeysDone(all: Templates, index: StrategyIndex, chain: seq<int>, groups: map<string, seq<Strategy>>,
                    before: seq<Strategy>, after: seq<Strategy>)
    requires chain != [] && Leaf(chain) in all && Resolved(index, chain, groups)
    requires AddedBucket(all, index, chain, groups.Keys, before, after)
    ensures forall s :: IsEffective(index, chain, s) ==> HasId(after, s.id)
  {
    hide HasId;
    forall s | IsEffective(index, chain, s) ensures HasId(after, s.id) {
      assert Uuid(s) in groups;
    }
  }

  ghost predicate LeavesKnown(all: Templates, buckets: seq<seq<int>>) {
    forall i :: 0 <= i < |buckets| ==> buckets[i] != [] && Leaf(buckets[i]) in all
  }

  lemma BucketToAnswer(all: Templates, index: StrategyIndex, buckets: seq<seq<int>>, n: int, before: seq<Strategy>,
                       after: seq<Strategy>, keys: set<string>)
    requires LeavesKnown(all, buckets) && 0 <= n < |buckets|
    requires Inherited(all, index, buckets[..n], before)
    requires AddedBucket(all, index, buckets[n], keys, before, after)
    requires forall s :: IsEffective(index, buckets[n], s) ==> HasId(after, s.id)
    ensures Inherited(all, index, buckets[..n + 1], after)
  {
    hide HasId, Retarget, IsEffective;
    var upto, next := buckets[..n], buckets[..n + 1];
    forall i | 0 <= i < |after| ensures HasOrigin(all, index, next, after[i]) {
      if i < |before| {
        assert HasOrigin(all, index, upto, before[i]);
        var c, s :| OriginAt(all, index, upto, before[i], c, s);
        assert OriginAt(all, index, next, after[i], c, s);
      } else {
        assert AddedByBucket(all, index, buckets[n], before, after[i]);
        var s :| IsEffective(index, buckets[n], s) && after[i] == Retarget(all, s, Leaf(buckets[n]));
        forall d, t | 0 <= d < n && IsEffective(index, next[d], t) ensures t.id != after[i].id {
          assert IsEffective(index, upto[d], t);
        }
        assert OriginAt(all, index, next, after[i], n, s);
      }
    }
    forall c, s | 0 <= c < |next| && IsEffective(index, next[c], s) ensures HasId(after, s.id) {
      if c < n {
        assert IsEffective(index, upto[c], s);
        PrefixHasFewerIds(before, after, s.id);
      }
    }
  }

  lemma UniqKnown(all: Templates, tids: seq<int>, n: nat)
    requires n <= |Buckets(all, tids)|
    ensures LeavesKnown(all, UniqBuckets(Buckets(all, tids), n))
  {
    hide Chain, Kept;
    BucketsAreChains(all, tids);
    if n > 0 {
      UniqKnown(all, tids, n - 1);
    }
  }

  method CalcInheritStrategies(all: Templates, tids: seq<int>, tpl2Strategies: StrategyIndex)
    returns (strategies: seq<Strategy>)
    ensures var buckets := Buckets(all, tids);
            var uniq := UniqBuckets(buckets, |buckets|);
            LeavesKnown(all, uniq) && Inherited(all, tpl2Strategies, uniq, strategies)
  {
    hide HasId, Effective, Kept, Chain, Resolved, AddedBucket, Buckets, UniqBuckets;
    var uniq := UniqueBuckets(all, tids);
    UniqKnown(all, tids, |Buckets(all, tids)|);
    strategies := [];
    var existsById: set<int> := {};
    EmptyAnswer(all, tpl2Strategies, uniq);
    for n := 0 to |uniq|
      invariant Mirrors(existsById, strategies)
      invariant Inherited(all, tpl2Strategies, uniq[..n], strategies)
    {
      var groups := ResolveBucket(tpl2Strategies, uniq[n]);
      ghost var before := strategies;
      strategies, existsById := EmitBucket(all, tpl2Strategies, uniq[n], groups, strategies, existsById);
      AllKeysDone(all, tpl2Strategies, uniq[n], groups, before, strategies);
      BucketToAnswer(all, tpl2Strategies, uniq, n, before, strategies, groups.Keys);
    }
    assert uniq[..|uniq|] == uniq;
  }

  lemma EmptyAnswer(all: Templates, index: StrategyIndex, buckets: seq<seq<int>>)
    requires LeavesKnown(all, buckets)
    ensures Inherited(all, index, buckets[..0], []) && Mirrors({}, [])
  {
  }
}
