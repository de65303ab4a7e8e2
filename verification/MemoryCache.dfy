/** The in-memory cache with its fields updated in place; every method is tied to the state machine. */
module MemoryCaches {
  import opened Results
  import opened CacheEntries
  import Model = MemoryCacheModel
  import opened MemoryCacheEviction
  import opened MemoryCacheRuns

  class MemoryCache {
    var maxMemoryBytes: nat
    var currentMemoryBytes: int
    var strategy: Model.Strategy
    var entries: map<string, Entry>
    var accessOrder: seq<Model.Node>
    var accessOrderIndex: map<string, nat>
    var nextNode: nat

    function State(): Model.State
      reads this
    {
      Model.State(maxMemoryBytes, currentMemoryBytes, strategy, entries, accessOrder, accessOrderIndex, nextNode)
    }

    ghost predicate Valid()
      reads this
    {
      Model.Inv(State())
    }

    constructor (maxBytes: nat, initial: Model.Strategy)
      ensures State() == Model.Empty(maxBytes, initial) && Valid()
    {
      maxMemoryBytes, currentMemoryBytes, strategy := maxBytes, 0, initial;
      entries, accessOrder, accessOrderIndex, nextNode := map[], [], map[], 0;
      new;
      assert Sizes(map[]) == map[];
    }

    /** access_order_.push_front(key), remembered in the index. */
    method PushFront(key: string)
      modifies `accessOrder, `accessOrderIndex, `nextNode
      ensures State() == Model.PushFront(old(State()), key)
    {
      accessOrder := [Model.Node(nextNode, key)] + accessOrder;
      accessOrderIndex := accessOrderIndex[key := nextNode];
      nextNode := nextNode + 1;
    }

    method Get(key: string, now: int) returns (r: Option<string>)
      requires Valid() && Model.Legal(State(), Model.OpGet(key, now))
      modifies this
      ensures Valid() && State() == Model.Get(old(State()), key, now)
      ensures r == Model.GetValue(old(State()), key, now)
    {
      GetKeepsInv(State(), key, now);
      if key !in entries {
        return None;
      }
      if entries[key].IsExpired(now) {
        entries := entries - {key};
        return None;
      }
      entries := entries[key := entries[key].Accessed()];
      r := Some(entries[key].value);
      if strategy.LRU? {
        if key in accessOrderIndex {
          accessOrder := Model.EraseNodes(accessOrder, {accessOrderIndex[key]});
          accessOrderIndex := accessOrderIndex - {key};
        }
        PushFront(key);
      }
    }

    /** For every call whose eviction loop must end; where it need not, there is no result to speak of. */
    method Set(key: string, value: string, ttl: int, now: int) returns (ghost victims: seq<string>)
      requires Valid() && now + ttl < TIME_MAX && MustEnd(Model.Insert(State(), key, value, ttl, now))
      modifies this
      ensures Model.Legal(old(State()), Model.OpSet(key, value, ttl, now, victims))
      ensures Valid() && State() == Model.Apply(old(State()), Model.OpSet(key, value, ttl, now, victims))
    {
      Model.InsertEvicting(State(), key, value, ttl, now);
      Store(key, value, ttl, now);
      ghost var stored := State();
      victims := EvictIfNeeded(key);
      EvictedInv(stored, key, victims);
    }

    /** set up to the eviction loop. */
    method Store(key: string, value: string, ttl: int, now: int)
      modifies this
      ensures State() == Model.Insert(old(State()), key, value, ttl, now)
    {
      if key in entries {
        currentMemoryBytes := currentMemoryBytes - entries[key].Size();
        entries := entries - {key};
      }
      var entry := NewEntry(key, value, ttl, now);
      currentMemoryBytes := currentMemoryBytes + entry.Size();
      entries := entries[key := entry];
      assert entries == old(entries)[key := entry];
      if strategy.Listed() {
        PushFront(key);
      }
    }

    method EvictIfNeeded(ghost key: string) returns (ghost victims: seq<string>)
      requires Model.Evicting(State(), key) && MustEnd(State())
      modifies this
      ensures Model.EvictTrace(old(State()), victims)
      ensures State() == Model.EvictAll(old(State()), victims)
    {
      ghost var start := State();
      victims := [];
      while currentMemoryBytes > maxMemoryBytes && entries != map[]
        invariant Model.Evicting(State(), key) && MustEnd(State())
        invariant Model.Evictable(start, victims) && State() == Model.EvictAll(start, victims)
        decreases |accessOrder| + |entries|
      {
        ghost var before := State();
        var k := EvictOne();
        EvictOneProgress(before, key, k);
        EvictLast(start, victims, k);
        victims := victims + [k];
      }
    }

    method EvictOne() returns (k: string)
      requires entries != map[]
      modifies this
      ensures Model.MayPick(old(State()), k)
      ensures State() == Model.EvictOne(old(State()), k)
    {
      k := "";
      match strategy {
        case LRU => k := PopBack();
        case FIFO => k := PopBack();
        case LFU => k := LeastFrequent();
        case RANDOM => k :| k in entries;
        case TTL_ONLY => k := SoonestExpiry();
      }
      if k != "" && k in entries {
        currentMemoryBytes := currentMemoryBytes - entries[k].Size();
        entries := entries - {k};
      }
    }

    method PopBack() returns (k: string)
      modifies `accessOrder, `accessOrderIndex
      ensures k == if old(accessOrder) == [] then "" else old(accessOrder)[|old(accessOrder)| - 1].key
      ensures old(accessOrder) == [] ==> accessOrder == [] && accessOrderIndex == old(accessOrderIndex)
      ensures old(accessOrder) != [] ==>
        accessOrder == old(accessOrder)[..|old(accessOrder)| - 1] && accessOrderIndex == old(accessOrderIndex) - {k}
    {
      k := "";
      if accessOrder != [] {
        k := accessOrder[|accessOrder| - 1].key;
        accessOrder := accessOrder[..|accessOrder| - 1];
        accessOrderIndex := accessOrderIndex - {k};
      }
    }

    /** The scan of the LFU strategy; the map is visited in no particular order. */
    method LeastFrequent() returns (k: string)
      ensures if exists j :: j in entries && entries[j].accessCount < INT_MAX then
          k in entries && entries[k].accessCount < INT_MAX
          && forall j :: j in entries ==> entries[k].accessCount <= entries[j].accessCount
        else k == ""
    {
      k := "";
      var minCount := INT_MAX;
      var rest := entries.Keys;
      while rest != {}
        invariant rest <= entries.Keys
        invariant minCount <= INT_MAX
        invariant forall j :: j in entries && j !in rest ==> minCount <= entries[j].accessCount
        invariant if minCount == INT_MAX then k == "" else k in entries && entries[k].accessCount == minCount
        decreases rest
      {
        var j :| j in rest;
        rest := rest - {j};
        if entries[j].accessCount < minCount {
          minCount := entries[j].accessCount;
          k := j;
        }
      }
    }

    method SoonestExpiry() returns (k: string)
      ensures if exists j :: j in entries && entries[j].expiresAt < TIME_MAX then
          k in entries && entries[k].expiresAt < TIME_MAX
          && forall j :: j in entries ==> entries[k].expiresAt <= entries[j].expiresAt
        else k == ""
    {
      k := "";
      var minExpiry := TIME_MAX;
      var rest := entries.Keys;
      while rest != {}
        invariant rest <= entries.Keys
        invariant minExpiry <= TIME_MAX
        invariant forall j :: j in entries && j !in rest ==> minExpiry <= entries[j].expiresAt
        invariant if minExpiry == TIME_MAX then k == "" else k in entries && entries[k].expiresAt == minExpiry
        decreases rest
      {
        var j :| j in rest;
        rest := rest - {j};
        if entries[j].expiresAt < minExpiry {
          minExpiry := entries[j].expiresAt;
          k := j;
        }
      }
    }

    /** Drops an entry with its bytes and the list node the index knows, as del and cleanup_expired do. */
    method Discard(key: string)
      requires key in entries
      modifies this
      ensures State() == Model.Del(old(State()), key)
    {
      currentMemoryBytes := currentMemoryBytes - entries[key].Size();
      if key in accessOrderIndex {
        accessOrder := Model.EraseNodes(accessOrder, {accessOrderIndex[key]});
        accessOrderIndex := accessOrderIndex - {key};
      }
      entries := entries - {key};
    }

    method Del(key: string)
      requires Valid()
      modifies this
      ensures Valid() && State() == Model.Del(old(State()), key)
    {
      DelKeepsInv(State(), key);
      if key in entries {
        Discard(key);
      }
    }

    method CleanupExpired(now: int)
      requires Valid()
      modifies this
      ensures Valid() && State() == Model.Drop(old(State()), Model.ExpiredKeys(old(State()), now))
    {
      ghost var start := State();
      DropKeepsInv(start, Model.ExpiredKeys(start, now));
      var rest := entries.Keys;
      ghost var gone: set<string> := {};
      DropNothing(start);
      while rest != {}
        invariant rest <= start.entries.Keys
        invariant gone == Model.ExpiredKeys(start, now) - rest
        invariant State() == Model.Drop(start, gone)
        decreases rest
      {
        var k :| k in rest;
        rest := rest - {k};
        if entries[k].IsExpired(now) {
          DropOneMore(start, gone, k);
          Discard(k);
          gone := gone + {k};
        }
      }
      assert gone == Model.ExpiredKeys(start, now);
    }

    method CleanupCount(now: int) returns (count: nat)
      ensures count == |Model.ExpiredKeys(State(), now)|
    {
      count := 0;
      var rest := entries.Keys;
      ghost var seen: set<string> := {};
      while rest != {}
        invariant rest <= entries.Keys
        invariant seen == Model.ExpiredKeys(State(), now) - rest
        invariant count == |seen|
        decreases rest
      {
        var k :| k in rest;
        rest := rest - {k};
        if entries[k].IsExpired(now) {
          count := count + 1;
          seen := seen + {k};
        }
      }
    }

    method Clear()
      modifies this
      ensures Valid() && State() == Model.Clear(old(State()))
    {
      entries, accessOrder, accessOrderIndex, currentMemoryBytes := map[], [], map[], 0;
      assert Sizes(map[]) == map[];
    }
  }

  lemma {:induction false} EvictLast(s: Model.State, victims: seq<string>, k: string)
    requires Model.Evictable(s, victims)
    requires var t := Model.EvictAll(s, victims); Model.Over(t) && Model.MayPick(t, k)
    ensures Model.Evictable(s, victims + [k])
    ensures Model.EvictAll(s, victims + [k]) == Model.EvictOne(Model.EvictAll(s, victims), k)
    decreases |victims|
  {
    if victims == [] {
      assert (victims + [k])[1..] == [];
    } else {
      EvictLast(Model.EvictOne(s, victims[0]), victims[1..], k);
      assert (victims + [k])[1..] == victims[1..] + [k];
    }
  }

  lemma {:induction false} EraseNothing(order: seq<Model.Node>)
    ensures Model.EraseNodes(order, {}) == order
  {
    if order != [] { EraseNothing(order[1..]); }
  }

  lemma DropNothing(s: Model.State)
    ensures Model.Drop(s, {}) == s
  {
    EraseNothing(s.order);
    assert Sizes(Model.Part(s.entries, {})) == map[];
    assert Model.NodesOf(s, {}) == {};
    assert s.entries - {} == s.entries && s.index - {} == s.index;
  }

  /** Dropping keys one at a time and dropping them at once come to the same state. */
  lemma DropOneMore(s: Model.State, gone: set<string>, k: string)
    requires k in s.entries && k !in gone
    ensures k in Model.Drop(s, gone).entries && Model.Drop(s, gone).entries[k] == s.entries[k]
    ensures Model.Drop(s, gone + {k}) == Model.Del(Model.Drop(s, gone), k)
  {
    var more := gone + {k};
    TotalSizeRemove(Model.Part(s.entries, more), k);
    assert Model.Part(s.entries, more) - {k} == Model.Part(s.entries, gone);
    assert s.entries - gone - {k} == s.entries - more;
    assert s.index - gone - {k} == s.index - more;
    if k in s.index {
      Model.EraseNodesTwice(s.order, Model.NodesOf(s, gone), {s.index[k]});
      assert Model.NodesOf(s, more) == Model.NodesOf(s, gone) + {s.index[k]};
    } else {
      assert Model.NodesOf(s, more) == Model.NodesOf(s, gone);
    }
  }
}
