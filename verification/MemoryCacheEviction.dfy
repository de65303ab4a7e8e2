/**
 The eviction loop: what it keeps, when it can come to its end, and when it must. An entry under the
 empty key is never evicted, since the empty key stands for no choice; it is what keeps loops going.
 */
module MemoryCacheEviction {
  import opened Results
  import opened Sums
  import opened CacheEntries
  import opened MemoryCacheModel

  // ---------------------------------------------------------------- what the loop keeps

  lemma RemoveEntryEvicting(s: State, key: string, k: string)
    requires Evicting(s, key) && k != key
    ensures Evicting(RemoveEntry(s, k), key)
  {
    if k != "" && k in s.entries {
      TotalSizeRemove(s.entries, k);
    }
  }

  lemma RemoveStored(s: State, key: string)
    requires Linked(s) && Tame(s.entries) && TotalSize(s.entries) <= s.bytes
    requires key in s.entries && key != "" && s.bytes - s.entries[key].Size() <= s.limit
    ensures Evicting(RemoveEntry(s, key), key)
  {
    TotalSizeRemove(s.entries, key);
  }

  lemma EvictOneKeeps(s: State, key: string, k: string)
    requires Evicting(s, key) && MayPick(s, k)
    ensures Evicting(EvictOne(s, k), key)
  {
    var u := PopBack(s, k);
    if s.strategy.Listed() && s.order != [] { PopBackLinked(s); }
    if k == key && key != "" && key in s.entries {
      RemoveStored(u, key);
    } else if k != key {
      RemoveEntryEvicting(u, key, k);
    }
  }

  lemma {:induction false} EvictionKeeps(s: State, key: string, victims: seq<string>)
    requires Evicting(s, key) && Evictable(s, victims)
    ensures Evicting(EvictAll(s, victims), key)
    decreases |victims|
  {
    if victims != [] {
      EvictOneKeeps(s, key, victims[0]);
      EvictionKeeps(EvictOne(s, victims[0]), key, victims[1..]);
    }
  }

  lemma {:induction false} EmptyKeyNeverEvicted(s: State, victims: seq<string>)
    requires "" in s.entries
    ensures "" in EvictAll(s, victims).entries && EvictAll(s, victims).entries[""] == s.entries[""]
    decreases |victims|
  {
    if victims != [] { EmptyKeyNeverEvicted(EvictOne(s, victims[0]), victims[1..]); }
  }

  // ---------------------------------------------------------------- what an entry under the empty key leaves to evict

  /**
   The keys the loop may choose while the empty key, which stays, is among the candidates; strictly:
   the keys it chooses before it can ever choose the empty key.
   */
  predicate Removable(s: State, k: string, strict: bool)
    requires k in s.entries && "" in s.entries
  {
    match s.strategy
    case LRU => InList(s.order, k)
    case FIFO => InList(s.order, k)
    case RANDOM => !strict
    case LFU => Before(s.entries[k].accessCount, s.entries[""].accessCount, strict)
    case TTL_ONLY => Before(s.entries[k].expiresAt, s.entries[""].expiresAt, strict)
  }

  predicate Before(a: int, b: int, strict: bool) { if strict then a < b else a <= b }

  function RemovableKeys(s: State, strict: bool): set<string>
    requires "" in s.entries
  {
    set k | k in s.entries && k != "" && Removable(s, k, strict)
  }

  /** What the counter comes down to once everything removable is gone. */
  ghost function Floor(s: State, strict: bool): int
    requires "" in s.entries
  {
    s.bytes - TotalSize(Part(s.entries, RemovableKeys(s, strict)))
  }

  /** Some choices bring the counter within the limit. */
  ghost predicate CanEnd(s: State) { "" in s.entries ==> Floor(s, false) <= s.limit }

  /** All choices do. */
  ghost predicate MustEnd(s: State) { "" in s.entries ==> Floor(s, true) <= s.limit }

  /** What is removable after a pop is what was removable before, less the victim. */
  lemma RemovableAfter(s: State, k: string, strict: bool)
    requires "" in s.entries && MayPick(s, k)
    ensures "" in EvictOne(s, k).entries
    ensures RemovableKeys(EvictOne(s, k), strict) == RemovableKeys(s, strict) - {k}
  {
    var t := EvictOne(s, k);
    if s.strategy.Listed() && s.order != [] {
      forall j | j != k ensures InList(s.order, j) <==> InList(t.order, j) {
        ListedAfterPop(s.order, j);
      }
    }
  }

  lemma ListedAfterPop(order: seq<Node>, j: string)
    requires order != [] && order[|order| - 1].key != j
    ensures InList(order, j) <==> InList(order[..|order| - 1], j)
  {
    if InList(order, j) {
      var n :| n in order && n.key == j;
      var i :| 0 <= i < |order| && order[i] == n;
      assert order[..|order| - 1][i] == n;
    }
    if InList(order[..|order| - 1], j) {
      var n :| n in order[..|order| - 1] && n.key == j;
      assert n in order;
    }
  }

  /** Whatever the loop chooses is removable, or no choice at all. */
  lemma PickedRemovable(s: State, k: string)
    requires "" in s.entries && Tame(s.entries) && MayPick(s, k)
    ensures k in s.entries && k != "" ==> k in RemovableKeys(s, false)
    ensures k in s.entries && k != "" && RemovableKeys(s, true) != {} ==> k in RemovableKeys(s, true)
    ensures RemovableKeys(s, true) != {} && !s.strategy.Listed() ==> k in s.entries && k != ""
  {
    if s.strategy.Listed() && s.order != [] {
      assert s.order[|s.order| - 1] in s.order;
    }
    if RemovableKeys(s, true) != {} {
      var j :| j in RemovableKeys(s, true);
      assert Removable(s, j, true);
    }
  }

  /** No eviction of a removable key, and no step without a victim, moves the floor. */
  lemma FloorFixed(s: State, k: string, strict: bool)
    requires "" in s.entries && MayPick(s, k)
    requires k in s.entries && k != "" ==> k in RemovableKeys(s, strict)
    ensures "" in EvictOne(s, k).entries && Floor(EvictOne(s, k), strict) == Floor(s, strict)
  {
    RemovableAfter(s, k, strict);
    var keys := RemovableKeys(s, strict);
    var t := EvictOne(s, k);
    if k != "" && k in s.entries {
      TotalSizeRemove(Part(s.entries, keys), k);
      assert Part(s.entries, keys) - {k} == Part(t.entries, keys - {k});
    } else {
      assert keys - {k} == keys;
    }
  }

  lemma AboveFloor(s: State, strict: bool)
    requires "" in s.entries && Floor(s, strict) < s.bytes
    ensures RemovableKeys(s, strict) != {}
  {
    var keys := RemovableKeys(s, strict);
    var part := Part(s.entries, keys);
    assert keys == {} ==> Sizes(part) == map[];
  }

  // ---------------------------------------------------------------- progress

  lemma RemovedCount(entries: map<string, Entry>, k: string)
    ensures |entries - {k}| == |entries| - (if k in entries then 1 else 0)
  {
    assert entries.Keys == (entries - {k}).Keys + (if k in entries then {k} else {});
  }

  lemma AnyKey(entries: map<string, Entry>) returns (k: string)
    requires entries != map[]
    ensures k in entries
  {
    k :| k in entries;
  }

  /** A pop from a non-empty list, or a victim, makes the loop's measure smaller. */
  lemma Shrinks(s: State, k: string)
    requires (s.strategy.Listed() && s.order != []) || (k in s.entries && k != "")
    ensures |EvictOne(s, k).order| + |EvictOne(s, k).entries| < |s.order| + |s.entries|
  {
    RemovedCount(s.entries, k);
  }

  /** A loop that must end makes progress: each call of evict_one shortens the list or the entry map. */
  lemma EvictOneProgress(s: State, key: string, k: string)
    requires Evicting(s, key) && MustEnd(s) && Over(s) && MayPick(s, k)
    ensures |EvictOne(s, k).order| + |EvictOne(s, k).entries| < |s.order| + |s.entries|
    ensures Evicting(EvictOne(s, k), key) && MustEnd(EvictOne(s, k))
    ensures s.strategy.Listed() || (k != "" && k in s.entries && EvictOne(s, k).entries == s.entries - {k})
  {
    EvictOneKeeps(s, key, k);
    if "" in s.entries {
      AboveFloor(s, true);
      PickedRemovable(s, k);
      FloorFixed(s, k, true);
      if s.strategy.Listed() { ListNotEmpty(s); }
    } else {
      var w := AnyKey(s.entries);
    }
    Shrinks(s, k);
  }

  lemma ListNotEmpty(s: State)
    requires "" in s.entries && s.strategy.Listed() && RemovableKeys(s, true) != {}
    ensures s.order != []
  {
    var j :| j in RemovableKeys(s, true);
    assert InList(s.order, j);
  }

  /** Every partial execution of such a loop is short, so that it cannot go on for ever. */
  lemma {:induction false} EvictionBounded(s: State, key: string, victims: seq<string>)
    requires Evicting(s, key) && MustEnd(s) && Evictable(s, victims)
    ensures |victims| <= |s.order| + |s.entries|
    decreases |victims|
  {
    if victims != [] {
      EvictOneProgress(s, key, victims[0]);
      EvictionBounded(EvictOne(s, victims[0]), key, victims[1..]);
    }
  }

  // ---------------------------------------------------------------- choices

  lemma {:induction false} LeastBy(keys: set<string>, rank: map<string, int>) returns (k: string)
    requires keys != {} && keys <= rank.Keys
    ensures k in keys && forall j :: j in keys ==> rank[k] <= rank[j]
  {
    var first :| first in keys;
    assert forall j :: j in keys ==> j == first || j in keys - {first};
    if keys == {first} {
      k := first;
    } else {
      var z := LeastBy(keys - {first}, rank);
      k := if rank[z] < rank[first] then z else first;
    }
  }

  /** Among the possible choices one that is a victim only if the loop has no other way. */
  lemma PickLazily(s: State) returns (k: string)
    requires s.entries != map[] && Tame(s.entries)
    ensures MayPick(s, k)
    ensures "" in s.entries && k in s.entries && k != "" ==> k in RemovableKeys(s, true)
  {
    var last := if s.order == [] then "" else s.order[|s.order| - 1].key;
    var any := AnyKey(s.entries);
    match s.strategy {
      case LRU =>
        k := last;
        assert s.order != [] ==> s.order[|s.order| - 1] in s.order;
      case FIFO =>
        k := last;
        assert s.order != [] ==> s.order[|s.order| - 1] in s.order;
      case RANDOM => k := if "" in s.entries then "" else any;
      case LFU =>
        k := LeastBy(s.entries.Keys, map j | j in s.entries :: s.entries[j].accessCount as int);
        if "" in s.entries && s.entries[k].accessCount == s.entries[""].accessCount { k := ""; }
      case TTL_ONLY =>
        k := LeastBy(s.entries.Keys, map j | j in s.entries :: s.entries[j].expiresAt);
        if "" in s.entries && s.entries[k].expiresAt == s.entries[""].expiresAt { k := ""; }
    }
  }

  /** While the counter is above the floor, some allowed choice makes progress. */
  lemma PickRemovable(s: State) returns (k: string)
    requires "" in s.entries && Tame(s.entries) && RemovableKeys(s, false) != {}
    ensures MayPick(s, k)
    ensures (s.strategy.Listed() && s.order != []) || (k in s.entries && k != "")
  {
    var keys := RemovableKeys(s, false);
    k :| k in keys;
    var listed := s.order != [] || !s.strategy.Listed();
    assert listed;
    match s.strategy {
      case LRU => k := s.order[|s.order| - 1].key;
      case FIFO => k := s.order[|s.order| - 1].key;
      case RANDOM =>
      case LFU =>
        k := LeastBy(keys, map j | j in s.entries :: s.entries[j].accessCount as int);
        forall j | j in s.entries ensures s.entries[k].accessCount <= s.entries[j].accessCount {
          assert j in keys || s.entries[j].accessCount >= s.entries[""].accessCount;
        }
      case TTL_ONLY =>
        k := LeastBy(keys, map j | j in s.entries :: s.entries[j].expiresAt);
        forall j | j in s.entries ensures s.entries[k].expiresAt <= s.entries[j].expiresAt {
          assert j in keys || s.entries[j].expiresAt >= s.entries[""].expiresAt;
        }
    }
  }

  // ---------------------------------------------------------------- when the loop can end

  lemma {:induction false} EndsAboveFloor(s: State, victims: seq<string>)
    requires "" in s.entries && Tame(s.entries) && EvictTrace(s, victims)
    ensures Floor(s, false) <= s.limit
    decreases |victims|
  {
    if victims == [] {
      TotalSizeNonNegative(Part(s.entries, RemovableKeys(s, false)));
    } else {
      PickedRemovable(s, victims[0]);
      FloorFixed(s, victims[0], false);
      EndsAboveFloor(EvictOne(s, victims[0]), victims[1..]);
    }
  }

  /** A loop that can end can be driven to its end. */
  lemma {:induction false} EvictionCompletes(s: State, key: string) returns (victims: seq<string>)
    requires Evicting(s, key) && CanEnd(s)
    ensures EvictTrace(s, victims)
    decreases |s.order| + |s.entries|
  {
    if Over(s) {
      var k;
      if "" in s.entries {
        AboveFloor(s, false);
        k := PickRemovable(s);
        PickedRemovable(s, k);
        FloorFixed(s, k, false);
        Shrinks(s, k);
      } else {
        k := PickLazily(s);
        EvictOneProgress(s, key, k);
      }
      EvictOneKeeps(s, key, k);
      var rest := EvictionCompletes(EvictOne(s, k), key);
      victims := [k] + rest;
      assert victims[1..] == rest;
    } else {
      victims := [];
    }
  }

  lemma LoopEndsIff(s: State, key: string)
    requires Evicting(s, key)
    ensures (exists victims :: EvictTrace(s, victims)) <==> CanEnd(s)
  {
    if CanEnd(s) {
      var victims := EvictionCompletes(s, key);
    } else if victims :| EvictTrace(s, victims) {
      EndsAboveFloor(s, victims);
    }
  }

  // ---------------------------------------------------------------- when the loop must end

  /** No choices keep the loop going for more than n steps. */
  ghost predicate Bounded(s: State, n: nat) {
    forall victims :: Evictable(s, victims) ==> |victims| <= n
  }

  /** Below its strict floor the counter cannot be forced: lazy choices go on for any number of steps. */
  lemma {:induction false} GoesOn(s: State, n: nat) returns (victims: seq<string>)
    requires "" in s.entries && Tame(s.entries) && Floor(s, true) > s.limit
    ensures Evictable(s, victims) && |victims| == n
    decreases n
  {
    TotalSizeNonNegative(Part(s.entries, RemovableKeys(s, true)));
    if n == 0 {
      victims := [];
    } else {
      var k := PickLazily(s);
      FloorFixed(s, k, true);
      var rest := GoesOn(EvictOne(s, k), n - 1);
      victims := [k] + rest;
      assert victims[1..] == rest;
    }
  }

  lemma LoopBoundedIff(s: State, key: string)
    requires Evicting(s, key)
    ensures (exists n: nat :: Bounded(s, n)) <==> MustEnd(s)
    ensures MustEnd(s) ==> Bounded(s, |s.order| + |s.entries|)
  {
    if MustEnd(s) {
      var n: nat := |s.order| + |s.entries|;
      forall victims | Evictable(s, victims) ensures |victims| <= n { EvictionBounded(s, key, victims); }
      assert Bounded(s, n);
    } else {
      forall n: nat ensures !Bounded(s, n) {
        var victims := GoesOn(s, n + 1);
        assert Evictable(s, victims);
      }
    }
  }

  lemma {:induction false} TotalSizeSplit(entries: map<string, Entry>, keys: set<string>)
    ensures TotalSize(entries) == TotalSize(entries - keys) + TotalSize(Part(entries, keys))
    decreases |keys|
  {
    var part := Part(entries, keys);
    if keys == {} {
      assert entries - keys == entries;
      assert Sizes(part) == map[];
    } else {
      var j :| j in keys;
      var fewer := keys - {j};
      TotalSizeSplit(entries, fewer);
      var less := Part(entries, fewer);
      if j in entries {
        TotalSizeRemove(entries - fewer, j);
        assert entries - fewer - {j} == entries - keys;
        TotalSizeRemove(part, j);
        assert part - {j} == less;
      } else {
        assert entries - fewer == entries - keys;
        assert part == less;
      }
    }
  }

  /** A loop that must end can end. */
  lemma MustEndCanEnd(s: State)
    requires MustEnd(s)
    ensures CanEnd(s)
  {
    if "" in s.entries {
      var some, more := RemovableKeys(s, true), RemovableKeys(s, false);
      var part := Part(s.entries, more);
      TotalSizeSplit(part, some);
      TotalSizeNonNegative(part - some);
      assert Part(part, some) == Part(s.entries, some);
    }
  }

  // ---------------------------------------------------------------- one set

  /**
   Storing a value under any key, from any state of a run: the eviction loop can end exactly when
   there is no entry under the empty key then, or the keys the strategy may choose beside it are
   enough. It must end exactly when the keys that come strictly before it are enough.
   */
  lemma SetEndsIff(s: State, key: string, value: string, ttl: int, now: int)
    requires Inv(s) && now + ttl < TIME_MAX
    ensures var t := Insert(s, key, value, ttl, now);
      && ((exists victims :: EvictTrace(t, victims)) <==> ("" in t.entries ==> Floor(t, false) <= t.limit))
      && ((exists n: nat :: Bounded(t, n)) <==> ("" in t.entries ==> Floor(t, true) <= t.limit))
      && ((exists n: nat :: Bounded(t, n)) ==> exists victims :: EvictTrace(t, victims))
  {
    var t := Insert(s, key, value, ttl, now);
    InsertEvicting(s, key, value, ttl, now);
    LoopEndsIff(t, key);
    LoopBoundedIff(t, key);
    if MustEnd(t) { MustEndCanEnd(t); }
  }

  /** As long as the empty key is not used every loop ends, within as many steps as nodes and entries. */
  lemma SetTerminates(s: State, key: string, value: string, ttl: int, now: int)
    requires Inv(s) && now + ttl < TIME_MAX && key != "" && "" !in s.entries
    ensures var t := Insert(s, key, value, ttl, now);
      (exists victims :: EvictTrace(t, victims)) && Bounded(t, |t.order| + |t.entries|)
  {
    SetEndsIff(s, key, value, ttl, now);
    InsertEvicting(s, key, value, ttl, now);
    LoopBoundedIff(Insert(s, key, value, ttl, now), key);
  }

  /** No loop ends while the entry under the empty key alone exceeds the limit. */
  lemma OversizedEmptyKey(s: State, victims: seq<string>)
    requires "" in s.entries && s.entries[""].Size() > s.limit && TotalSize(s.entries) <= s.bytes && Tame(s.entries)
    ensures !EvictTrace(s, victims)
  {
    var keys := RemovableKeys(s, false);
    var rest := s.entries - keys;
    TotalSizeSplit(s.entries, keys);
    TotalSizeNonNegative(rest);
    assert "" in rest && rest[""].Size() > s.limit;
    if EvictTrace(s, victims) { EndsAboveFloor(s, victims); }
  }

  // ---------------------------------------------------------------- a loop that never ends under a non-empty key

  /** After an accepted set under the empty key a later set under another key cannot end. */
  lemma LaterSetHangs()
    ensures var s0 := Empty(3, TTL_ONLY);
      var s1 := Apply(s0, OpSet("", "x", 10, 0, []));
      Legal(s0, OpSet("", "x", 10, 0, [])) && "" in s1.entries
      && forall victims :: !EvictTrace(Insert(s1, "a", "yz", 20, 0), victims)
  {
    var e, a := Entry("", "x", 10, 0), Entry("a", "yz", 20, 0);
    var s1 := Insert(Empty(3, TTL_ONLY), "", "x", 10, 0);
    assert s1 == State(3, 1, TTL_ONLY, map["" := e], [], map[], 0);
    var t := Insert(s1, "a", "yz", 20, 0);
    assert t == State(3, 4, TTL_ONLY, map["" := e, "a" := a], [], map[], 0);
    assert RemovableKeys(t, false) == {};
    assert Sizes(Part(t.entries, RemovableKeys(t, false))) == map[];
    assert Floor(t, false) == 4;
    forall victims ensures !EvictTrace(t, victims) {
      if EvictTrace(t, victims) { EndsAboveFloor(t, victims); }
    }
  }
}
