/** Whether a stored key is still there after its own set, under LRU and FIFO. */
module MemoryCacheSurvival {
  import opened Results
  import opened Sums
  import opened CacheEntries
  import opened MemoryCacheModel
  import opened MemoryCacheEviction
  import opened MemoryCacheRuns

  /** The keys the loop meets before it comes to the oldest node of key. */
  function Behind(order: seq<Node>, key: string): set<string>
    decreases |order|
  {
    if order == [] || order[|order| - 1].key == key then {}
    else
      var k := order[|order| - 1].key;
      Behind(order[..|order| - 1], key) + if k == "" then {} else {k}
  }

  /** What the counter comes down to before the loop comes to key. */
  ghost function Spared(s: State, key: string): int {
    s.bytes - TotalSize(Part(s.entries, Behind(s.order, key)))
  }

  /** Popping another key leaves the same keys before key, and the same floor. */
  lemma SparedFixed(s: State, key: string, k: string)
    requires s.strategy.Listed() && InList(s.order, key) && MayPick(s, k) && k != key
    ensures InList(EvictOne(s, k).order, key) && Spared(EvictOne(s, k), key) == Spared(s, key)
  {
    ListedAfterPop(s.order, key);
    var t := EvictOne(s, k);
    var before, after := Behind(s.order, key), Behind(t.order, key);
    if k != "" && k in s.entries {
      TotalSizeRemove(Part(s.entries, before), k);
      assert Part(s.entries, before) - {k} == Part(t.entries, after);
    } else {
      assert Part(s.entries, before) == Part(t.entries, after);
    }
  }

  lemma {:induction false} SurvivesLoop(s: State, key: string, victims: seq<string>)
    requires s.strategy.Listed() && key != "" && key in s.entries && InList(s.order, key) && EvictTrace(s, victims)
    ensures key in EvictAll(s, victims).entries <==> Spared(s, key) <= s.limit
    decreases |victims|
  {
    if victims == [] {
      TotalSizeNonNegative(Part(s.entries, Behind(s.order, key)));
    } else if victims[0] == key {
      EvictAllFixed(EvictOne(s, key), victims[1..]);
      assert Behind(s.order, key) == {};
      assert Sizes(Part(s.entries, {})) == map[];
    } else {
      SparedFixed(s, key, victims[0]);
      SurvivesLoop(EvictOne(s, victims[0]), key, victims[1..]);
    }
  }

  /**
   From any state of a run: a stored key survives its own set exactly when the limit is met once
   everything listed behind the oldest node of the key is gone. That node is the new one, or one
   that an earlier store of the key has left behind.
   */
  lemma StoredKeySurvivesIff(s: State, op: Op)
    requires Inv(s) && s.strategy.Listed() && op.OpSet? && Legal(s, op) && op.key != ""
    ensures var t := Insert(s, op.key, op.value, op.ttl, op.now);
      op.key in Apply(s, op).entries <==>
        t.bytes - TotalSize(Part(t.entries, Behind(t.order, op.key))) <= t.limit
  {
    var t := Insert(s, op.key, op.value, op.ttl, op.now);
    assert t.order[0] in t.order && t.order[0].key == op.key;
    SurvivesLoop(t, op.key, op.victims);
  }

  /**
   An absent key without a node, in a cache that lists every entry, survives exactly when it fits
   beside the bytes that belong to no entry, left by reads of expired ones, and the entry under the
   empty key, which stays.
   */
  lemma AbsentKeySurvivesIff(s: State, op: Op)
    requires Inv(s) && s.strategy.Listed() && op.OpSet? && Legal(s, op) && op.key != ""
    requires !InList(s.order, op.key) && forall k :: k in s.entries ==> InList(s.order, k)
    ensures op.key in Apply(s, op).entries <==>
      (s.bytes - TotalSize(s.entries - {""})) + |op.key| + |op.value| <= s.limit
  {
    StoredKeySurvivesIff(s, op);
    PartBehind(s, op.key, NewEntry(op.key, op.value, op.ttl, op.now));
  }

  lemma PartBehind(s: State, key: string, entry: Entry)
    requires key != "" && !InList(s.order, key) && forall k :: k in s.entries ==> InList(s.order, k)
    ensures Part(s.entries[key := entry], Behind([Node(s.nextNode, key)] + s.order, key)) == s.entries - {""}
  {
    var order := [Node(s.nextNode, key)] + s.order;
    forall k | k in s.entries && k != "" ensures k in Behind(order, key) {
      assert order[1..] == s.order;
      BehindFirst(order, key, k);
    }
    BehindNames(order, key);
  }

  /** Behind a key that is only at the front stand all other keys. */
  lemma {:induction false} BehindFirst(order: seq<Node>, key: string, k: string)
    requires order != [] && order[0].key == key && !InList(order[1..], key) && k != key && k != ""
    requires InList(order[1..], k)
    ensures k in Behind(order, key)
    decreases |order|
  {
    var last := |order| - 1;
    assert last > 0 && order[1..][last - 1] == order[last];
    assert order[last].key != key by { assert order[last] in order[1..]; }
    if order[last].key != k {
      assert order[..last][1..] == order[1..][..last - 1];
      ListedAfterPop(order[1..], k);
      ListedAfterPop(order[1..], key);
      BehindFirst(order[..last], key, k);
    }
  }

  lemma {:induction false} BehindNames(order: seq<Node>, key: string)
    ensures key !in Behind(order, key) && "" !in Behind(order, key)
    decreases |order|
  {
    if order != [] { BehindNames(order[..|order| - 1], key); }
  }

  /** In an exact list without the empty key no bytes are lost: the key survives if it fits alone. */
  lemma FittingKeySurvivesIff(s: State, op: Op)
    requires Inv(s) && s.strategy.Listed() && op.OpSet? && Legal(s, op) && op.key != ""
    requires !InList(s.order, op.key) && forall k :: k in s.entries ==> InList(s.order, k)
    requires s.bytes == TotalSize(s.entries) && "" !in s.entries
    ensures op.key in Apply(s, op).entries <==> |op.key| + |op.value| <= s.limit
  {
    AbsentKeySurvivesIff(s, op);
    assert s.entries - {""} == s.entries;
  }

  /** After an entry has been read expired, a later key that fits alone is evicted by its own set. */
  lemma LostBytesEvictNewKey()
    ensures var s0 := Empty(10, LRU);
      var s1 := Apply(s0, OpSet("a", "123456789", 0, 0, []));
      var s2 := Apply(s1, OpGet("a", 1));
      var last := OpSet("b", "x", 10, 1, ["a", "b"]);
      Legal(s0, OpSet("a", "123456789", 0, 0, [])) && Legal(s1, OpGet("a", 1)) && Legal(s2, last)
      && s2.entries == map[] && s2.bytes == 10 && Apply(s2, last).entries == map[]
  {
    var s1 := Insert(Empty(10, LRU), "a", "123456789", 0, 0);
    var a, b := Entry("a", "123456789", 0, 0), Entry("b", "x", 11, 0);
    assert s1 == State(10, 10, LRU, map["a" := a], [Node(0, "a")], map["a" := 0], 1);
    var s2 := Get(s1, "a", 1);
    assert s2 == State(10, 10, LRU, map[], [Node(0, "a")], map["a" := 0], 1);
    var t := Insert(s2, "b", "x", 10, 1);
    assert t == State(10, 12, LRU, map["b" := b], [Node(1, "b"), Node(0, "a")], map["a" := 0, "b" := 1], 2);
    LoseBoth(t);
  }

  lemma LoseBoth(t: State)
    requires t.limit == 10 && t.bytes == 12 && t.strategy.LRU? && t.order == [Node(1, "b"), Node(0, "a")]
    requires t.entries.Keys == {"b"} && t.entries["b"].Size() == 2
    ensures EvictTrace(t, ["a", "b"]) && EvictAll(t, ["a", "b"]).entries == map[]
  {
    var u := EvictOne(t, "a");
    assert u.order == [Node(1, "b")] && u.entries == t.entries && u.bytes == 12;
    var v := EvictOne(u, "b");
    assert v.entries == map[];
    assert ["a", "b"][1..] == ["b"] && ["b"][1..] == [];
    assert Evictable(v, []) && Evictable(u, ["b"]);
    assert EvictAll(u, ["b"]) == EvictAll(v, []);
  }
}
