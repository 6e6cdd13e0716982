/** The in-memory item store of a graph node (graph/store): linked lists of items,
    newest in front, in a hash-sharded array of maps. */
module GraphStore {
  import opened Wrappers
  import opened GraphModel

  const GRAPH_F_MISS: bv32 := 1
  const GRAPH_F_SENDING: bv32 := 4
  const GRAPH_F_FETCHING: bv32 := 8

  // ----- Sequences read from the back -----

  function Reversed<T>(s: seq<T>): (r: seq<T>)
    ensures |r| == |s|
  {
    if s == [] then [] else Reversed(s[1..]) + [s[0]]
  }

  lemma {:induction false} ReversedConcat<T>(a: seq<T>, b: seq<T>)
    ensures Reversed(a + b) == Reversed(b) + Reversed(a)
  {
    if a == [] {
      assert a + b == b;
    } else {
      ReversedConcat(a[1..], b);
      assert (a + b)[1..] == a[1..] + b;
    }
  }

  lemma {:induction false} ReversedTwice<T>(s: seq<T>)
    ensures Reversed(Reversed(s)) == s
  {
    if s != [] {
      ReversedConcat(Reversed(s[1..]), [s[0]]);
      ReversedTwice(s[1..]);
    }
  }

  lemma {:induction false} ReversedAt<T>(s: seq<T>, i: int)
    requires 0 <= i < |s|
    ensures Reversed(s)[i] == s[|s| - 1 - i]
  {
    if i < |s| - 1 {
      ReversedAt(s[1..], i);
    }
  }

  lemma {:induction false} ReversedBack<T>(s: seq<T>)
    requires s != []
    ensures Reversed(s) == [s[|s| - 1]] + Reversed(s[..|s| - 1])
  {
    if |s| > 1 {
      var front := s[..|s| - 1];
      ReversedBack(s[1..]);
      assert s[1..][..|s| - 2] == front[1..];
    }
  }

  // ----- One key -----

  /** The abstract value of a list: its flag and its items, newest first. */
  datatype ListState = ListState(flag: bv32, items: seq<GraphItem>)

  class SafeLinkedList {
    var Flag: bv32
    var L: seq<GraphItem>

    constructor (flag: bv32, item: GraphItem)
      ensures Flag == flag && L == [item]
    {
      Flag := flag;
      L := [item];
    }

    ghost function State(): ListState
      reads this
    {
      ListState(Flag, L)
    }

    method PushFront(v: GraphItem)
      modifies this
      ensures State() == ListState(old(Flag), [v] + old(L))
    {
      L := [v] + L;
    }

    /** Oldest first; the list is left empty. */
    method PopAll() returns (ret: seq<GraphItem>)
      modifies this
      ensures State() == ListState(old(Flag), [])
      ensures ret == Reversed(old(L))
    {
      var size := |L|;
      ret := [];
      for i := 0 to size
        invariant |L| == size - i && Flag == old(Flag)
        invariant ret + Reversed(L) == Reversed(old(L))
      {
        ReversedBack(L);
        var item := L[|L| - 1];
        ret := ret + [item];
        L := L[..|L| - 1];
      }
    }

    /** Puts popped items back behind whatever has arrived since. */
    method PushAll(items: seq<GraphItem>)
      modifies this
      ensures State() == ListState(old(Flag), old(L) + Reversed(items))
    {
      var i := |items| - 1;
      assert items[..i + 1] == items;
      while i >= 0
        invariant -1 <= i < |items|
        invariant Flag == old(Flag) && L + Reversed(items[..i + 1]) == old(L) + Reversed(items)
      {
        ReversedBack(items[..i + 1]);
        assert items[..i + 1][..i] == items[..i];
        L := L + [items[i]];
        i := i - 1;
      }
    }

    /** Oldest first; the list is left as it is. */
    method FetchAll() returns (ret: seq<GraphItem>, flag: bv32)
      ensures ret == Reversed(L) && flag == Flag
    {
      ret := [];
      var p := |L| - 1;
      assert L[..p + 1] == L;
      while p >= 0
        invariant -1 <= p < |L|
        invariant ret + Reversed(L[..p + 1]) == Reversed(L)
      {
        ReversedBack(L[..p + 1]);
        assert L[..p + 1][..p] == L[..p];
        ret := ret + [L[p]];
        p := p - 1;
      }
      flag := Flag;
    }
  }

  /** A failed send, seen from the list: everything is taken out, others push, everything is put
      back. The list is what the pushes alone would have made of it. */
  method FailedSend(list: SafeLinkedList, others: seq<GraphItem>)
    modifies list
    ensures list.State() == ListState(old(list.Flag), Reversed(others) + old(list.L))
  {
    ghost var flag, before := list.Flag, list.L;
    var items := list.PopAll();
    for n := 0 to |others|
      invariant list.State() == ListState(flag, Reversed(others[..n]))
    {
      assert others[..n + 1] == others[..n] + [others[n]];
      ReversedConcat(others[..n], [others[n]]);
      assert Reversed([others[n]]) == [others[n]];
      list.PushFront(others[n]);
    }
    assert others[..|others|] == others;
    list.PushAll(items);
    ReversedTwice(before);
  }

  // ----- All keys -----

  class GraphItemMap {
    const Size: nat
    const A: array<map<string, SafeLinkedList>>
    /** CRC-32 of the key; nothing but its being a function matters here. */
    const hashKey: string -> nat
    /** All shards flattened into one map. */
    ghost var lists: map<string, SafeLinkedList>

    ghost predicate Valid()
      reads this, A
    {
      && A.Length == Size && Size > 0
      && Flattens(A[..], lists)
      && (forall j, k :: j in lists && k in lists && j != k ==> lists[j] != lists[k])
    }

    /** Every key is in its own shard and nowhere else. */
    ghost predicate Flattens(shards: seq<map<string, SafeLinkedList>>, flat: map<string, SafeLinkedList>)
      requires |shards| == Size > 0
    {
      && (forall i, k :: 0 <= i < Size && k in shards[i] ==> Shard(k) == i && k in flat && flat[k] == shards[i][k])
      && (forall k :: k in flat ==> k in shards[Shard(k)])
    }

    lemma FlattensSet(shards: seq<map<string, SafeLinkedList>>, flat: map<string, SafeLinkedList>, key: string,
                      val: SafeLinkedList)
      requires |shards| == Size > 0 && Flattens(shards, flat)
      ensures Flattens(shards[Shard(key) := shards[Shard(key)][key := val]], flat[key := val])
    {
      hide Shard;
    }

    lemma FlattensRemove(shards: seq<map<string, SafeLinkedList>>, flat: map<string, SafeLinkedList>, key: string)
      requires |shards| == Size > 0 && Flattens(shards, flat)
      ensures Flattens(shards[Shard(key) := shards[Shard(key)] - {key}], flat - {key})
      ensures key in flat <==> key in shards[Shard(key)]
    {
      hide Shard;
      var i0 := Shard(key);
      var after := shards[i0 := shards[i0] - {key}];
      forall k | k in flat - {key} ensures k in after[Shard(k)] {
        assert k in shards[Shard(k)];
      }
    }

    function Shard(key: string): (i: int)
      requires Size > 0
      ensures 0 <= i < Size
    {
      hashKey(key) % Size
    }

    /** The plain map that the sharded one stands for. */
    ghost function View(): map<string, ListState>
      reads this, lists.Values
    {
      map k | k in lists :: lists[k].State()
    }

    constructor (size: nat, hashKey: string -> nat)
      requires size > 0
      ensures Valid() && fresh(A) && Size == size && this.hashKey == hashKey
      ensures View() == map[]
    {
      Size := size;
      A := new map<string, SafeLinkedList>[size](_ => map[]);
      this.hashKey := hashKey;
      lists := map[];
    }

    method Get(key: string) returns (val: Option<SafeLinkedList>)
      requires Valid()
      ensures val == if key in lists then Some(lists[key]) else None
    {
      hide Reversed;
      var idx := hashKey(key) % Size;
      if key in A[idx] {
        return Some(A[idx][key]);
      }
      return None;
    }

    method Set(key: string, val: SafeLinkedList)
      requires Valid() && val !in lists.Values
      modifies this`lists, A
      ensures Valid()
      ensures lists == old(lists)[key := val]
    {
      hide Flattens;
      var idx := hashKey(key) % Size;
      FlattensSet(A[..], lists, key, val);
      ghost var after := A[..][idx := A[idx][key := val]];
      A[idx] := A[idx][key := val];
      assert A[..] == after;
      lists := lists[key := val];
    }

    method Remove(key: string) returns (found: bool)
      requires Valid()
      modifies this`lists, A
      ensures Valid()
      ensures found == (key in old(lists)) && lists == old(lists) - {key}
    {
      hide Flattens;
      var idx := hashKey(key) % Size;
      FlattensRemove(A[..], lists, key);
      if key !in A[idx] {
        return false;
      }
      ghost var after := A[..][idx := A[idx] - {key}];
      A[idx] := A[idx] - {key};
      assert A[..] == after;
      lists := lists - {key};
      return true;
    }

    /** No two keys share a list, so changing one list changes one entry of the view. */
    lemma OwnList(key: string)
      requires Valid() && key in lists
      ensures forall k :: k in lists && k != key ==> lists[k] != lists[key]
    {
    }

    method PopAll(key: string) returns (ret: seq<GraphItem>)
      requires Valid()
      modifies if key in lists then {lists[key]} else {}
      ensures Valid()
      ensures key in old(View()) ==>
              ret == Reversed(old(View())[key].items)
                && View() == old(View())[key := ListState(old(View())[key].flag, [])]
      ensures key !in old(View()) ==> ret == [] && View() == old(View())
    {
      hide Reversed, Valid;
      var found := Get(key);
      if found.None? {
        return [];
      }
      OwnList(key);
      ret := found.value.PopAll();
    }

    method PushAll(key: string, items: seq<GraphItem>) returns (ok: bool)
      requires Valid()
      modifies if key in lists then {lists[key]} else {}
      ensures Valid() && ok == (key in old(View()))
      ensures View() ==
              if ok then old(View())[key := ListState(old(View())[key].flag, old(View())[key].items + Reversed(items))]
              else old(View())
    {
      hide Reversed, Valid;
      var found := Get(key);
      if found.None? {
        return false;
      }
      OwnList(key);
      found.value.PushAll(items);
      return true;
    }

    method FetchAll(key: string) returns (ret: seq<GraphItem>, flag: bv32)
      requires Valid()
      ensures key in View() ==> ret == Reversed(View()[key].items) && flag == View()[key].flag
      ensures key !in View() ==> ret == [] && flag == 0
    {
      hide Reversed, Valid;
      var found := Get(key);
      if found.None? {
        return [], 0;
      }
      ret, flag := found.value.FetchAll();
    }

    method First(key: string) returns (item: Option<GraphItem>)
      requires Valid()
      ensures item == if key in View() && View()[key].items != [] then Some(View()[key].items[0]) else None
    {
      hide Valid;
      var found := Get(key);
      if found.None? || found.value.L == [] {
        return None;
      }
      return Some(found.value.L[0]);
    }

    method Back(key: string) returns (item: Option<GraphItem>)
      requires Valid()
      ensures item ==
              if key in View() && View()[key].items != [] then Some(View()[key].items[|View()[key].items| - 1])
              else None
    {
      hide Valid;
      var found := Get(key);
      if found.None? || found.value.L == [] {
        return None;
      }
      return Some(found.value.L[|found.value.L| - 1]);
    }

    method ItemCnt(key: string) returns (n: nat)
      requires Valid()
      ensures n == if key in View() then |View()[key].items| else 0
    {
      hide Valid;
      var found := Get(key);
      if found.None? {
        return 0;
      }
      return |found.value.L|;
    }

    method GetFlag(key: string) returns (flag: Option<bv32>)
      requires Valid()
      ensures flag == if key in View() then Some(View()[key].flag) else None
    {
      hide Valid;
      var found := Get(key);
      if found.None? {
        return None;
      }
      return Some(found.value.Flag);
    }

    method SetFlag(key: string, flag: bv32) returns (ok: bool)
      requires Valid()
      modifies if key in lists then {lists[key]} else {}
      ensures Valid() && ok == (key in old(View()))
      ensures View() == if ok then old(View())[key := ListState(flag, old(View())[key].items)] else old(View())
    {
      hide Valid;
      var found := Get(key);
      if found.None? {
        return false;
      }
      OwnList(key);
      found.value.Flag := flag;
      return true;
    }

    /** A new key starts with MISS when migration is on and its RRD file is absent. */
    method PushFront(key: string, item: GraphItem, migrateEnabled: bool, rrdExists: bool)
      requires Valid()
      modifies this`lists, A, if key in lists then {lists[key]} else {}
      ensures Valid() && fresh(lists.Values - old(lists.Values))
      ensures View() == old(View())[key := Pushed(old(View()), key, item, migrateEnabled, rrdExists)]
    {
      hide Valid;
      var found := Get(key);
      if found.Some? {
        PushExisting(key, found.value, item);
      } else {
        var flag := if migrateEnabled && !rrdExists then GRAPH_F_MISS else 0;
        var safeList := new SafeLinkedList(flag, item);
        AddList(key, safeList);
      }
    }

    method PushExisting(key: string, list: SafeLinkedList, item: GraphItem)
      requires Valid() && key in lists && lists[key] == list
      modifies list
      ensures Valid()
      ensures View() == old(View())[key := ListState(old(View())[key].flag, [item] + old(View())[key].items)]
    {
      hide Valid;
      OwnList(key);
      list.PushFront(item);
    }

    method AddList(key: string, list: SafeLinkedList)
      requires Valid() && key !in lists && list !in lists.Values
      modifies this`lists, A
      ensures Valid() && lists == old(lists)[key := list]
      ensures View() == old(View())[key := list.State()]
    {
      hide Valid;
      Set(key, list);
    }

    /** The keys of one shard, in whatever order the map yields them. */
    method KeysByIndex(idx: nat) returns (keys: seq<string>)
      requires Valid() && idx < Size
      ensures forall k :: k in keys <==> k in lists && Shard(k) == idx
      ensures forall i, j :: 0 <= i < j < |keys| ==> keys[i] != keys[j]
    {
      keys := [];
      var rest := A[idx].Keys;
      while rest != {}
        invariant rest <= A[idx].Keys
        invariant forall k :: k in A[idx] <==> k in rest || k in keys
        invariant forall k :: k in keys ==> k !in rest
        invariant forall i, j :: 0 <= i < j < |keys| ==> keys[i] != keys[j]
        decreases rest
      {
        var key :| key in rest;
        keys := keys + [key];
        rest := rest - {key};
      }
    }

    ghost function KeysBelow(n: int): set<string>
      requires Size > 0
      reads this
    {
      set k | k in lists && Shard(k) < n
    }

    lemma ShardCount(i: int)
      requires Valid() && 0 <= i < Size
      ensures |KeysBelow(i + 1)| == |KeysBelow(i)| + |A[i]|
    {
      assert KeysBelow(i + 1) == KeysBelow(i) + A[i].Keys;
      assert KeysBelow(i) !! A[i].Keys;
    }

    lemma AllShards()
      requires Valid()
      ensures A.Length == Size > 0 && |KeysBelow(0)| == 0 && |KeysBelow(Size)| == |View()|
    {
      assert KeysBelow(0) == {};
      assert KeysBelow(Size) == lists.Keys == View().Keys;
    }

    method Len() returns (l: nat)
      requires Valid()
      ensures l == |View()|
    {
      hide Valid, View, KeysBelow;
      l := 0;
      AllShards();
      for i := 0 to Size
        invariant l == |KeysBelow(i)|
      {
        ShardCount(i);
        l := l + |A[i]|;
      }
    }
  }

  /** What a list becomes when an item is pushed under `key`. */
  function Pushed(view: map<string, ListState>, key: string, item: GraphItem, migrateEnabled: bool,
                  rrdExists: bool): ListState {
    if key in view then ListState(view[key].flag, [item] + view[key].items)
    else ListState(if migrateEnabled && !rrdExists then GRAPH_F_MISS else 0, [item])
  }
}
