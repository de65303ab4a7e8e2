/** What every run of the memory cache keeps: the memory bound, live iterators, and last-written values. */
module MemoryCacheRuns {
  import opened Results
  import opened Sums
  import opened CacheEntries
  import opened MemoryCacheModel
  import opened MemoryCacheEviction

  // ---------------------------------------------------------------- the invariant

  lemma EvictedInv(s: State, key: string, victims: seq<string>)
    requires Evicting(s, key) && EvictTrace(s, victims)
    ensures Inv(EvictAll(s, victims))
  {
    EvictionKeeps(s, key, victims);
    var t := EvictAll(s, victims);
    EvictAllFixed(s, victims);
    TotalSizeNonNegative(t.entries);
    if t.entries == map[] {
      assert t.bytes <= t.limit;
    }
  }

  lemma {:induction false} EvictAllFixed(s: State, victims: seq<string>)
    ensures EvictAll(s, victims).limit == s.limit && EvictAll(s, victims).strategy == s.strategy
    ensures forall k :: k in EvictAll(s, victims).entries ==>
      k in s.entries && EvictAll(s, victims).entries[k] == s.entries[k]
    decreases |victims|
  {
    if victims != [] {
      EvictAllFixed(EvictOne(s, victims[0]), victims[1..]);
    }
  }

  lemma GetKeepsInv(s: State, key: string, now: int)
    requires Inv(s) && Legal(s, OpGet(key, now))
    ensures Inv(Get(s, key, now))
  {
    if key in s.entries {
      if s.entries[key].IsExpired(now) {
        TotalSizeRemove(s.entries, key);
      } else {
        HitKeepsInv(s, key);
        var t := s.(entries := s.entries[key := s.entries[key].Accessed()]);
        UnlinkLinked(t, key);
        PushFrontLinked(Unlink(t, key), key);
      }
    }
  }

  lemma HitKeepsInv(s: State, key: string)
    requires Inv(s) && key in s.entries && s.entries[key].accessCount + 1 < INT_MAX
    ensures Inv(s.(entries := s.entries[key := s.entries[key].Accessed()]))
  {
    TotalSizeUpdate(s.entries, key, s.entries[key].Accessed());
  }

  lemma DelKeepsInv(s: State, key: string)
    requires Inv(s)
    ensures Inv(Del(s, key))
  {
    if key in s.entries {
      TotalSizeRemove(s.entries, key);
      UnlinkLinked(s.(bytes := s.bytes - s.entries[key].Size(), entries := s.entries - {key}), key);
      TotalSizeNonNegative(s.entries);
    }
  }

  lemma DropKeepsInv(s: State, keys: set<string>)
    requires Inv(s)
    ensures Inv(Drop(s, keys))
  {
    TotalSizeSplit(s.entries, keys);
    TotalSizeNonNegative(Part(s.entries, keys));
    var ids := NodesOf(s, keys);
    EraseNodesDistinct(s.order, ids);
    forall k | k in s.index && k !in keys ensures s.index[k] !in ids {
      forall j | j in keys && j in s.index ensures s.index[j] != s.index[k] {
        var a :| 0 <= a < |s.order| && s.order[a] == Node(s.index[k], k);
        var b :| 0 <= b < |s.order| && s.order[b] == Node(s.index[j], j);
        assert a != b;
      }
    }
  }

  lemma StepKeepsInv(s: State, op: Op)
    requires Inv(s) && Legal(s, op)
    ensures Inv(Apply(s, op))
    ensures Apply(s, op).limit == s.limit
  {
    match op
    case OpGet(key, now) => GetKeepsInv(s, key, now);
    case OpSet(key, value, ttl, now, victims) =>
      InsertEvicting(s, key, value, ttl, now);
      EvictedInv(Insert(s, key, value, ttl, now), key, victims);
      EvictAllFixed(Insert(s, key, value, ttl, now), victims);
    case OpDel(key) => DelKeepsInv(s, key);
    case OpCleanup(now) => DropKeepsInv(s, ExpiredKeys(s, now));
    case OpClear => assert Sizes(map[]) == map[];
    case OpStrategy(strategy) =>
  }

  lemma {:induction false} RunKeepsInv(s: State, ops: seq<Op>)
    requires Inv(s) && LegalRun(s, ops)
    ensures Inv(Run(s, ops)) && Run(s, ops).limit == s.limit
    decreases |ops|
  {
    if ops != [] {
      StepKeepsInv(s, ops[0]);
      RunKeepsInv(Apply(s, ops[0]), ops[1..]);
    }
  }

  /**
   Memory bound: on every run, from any strategy, the real bytes never exceed the counter nor the counter the
   limit.
   */
  lemma MemoryBound(limit: nat, strategy: Strategy, ops: seq<Op>)
    requires LegalRun(Empty(limit, strategy), ops)
    ensures var t := Run(Empty(limit, strategy), ops);
      0 <= TotalSize(t.entries) <= t.bytes <= limit
      && forall k :: k in t.index ==> Node(t.index[k], k) in t.order
  {
    assert Sizes(map[]) == map[];
    RunKeepsInv(Empty(limit, strategy), ops);
    TotalSizeNonNegative(Run(Empty(limit, strategy), ops).entries);
  }

  // ---------------------------------------------------------------- last-written values

  /** The map a client believes in: set writes, del and clear forget, nothing else changes it. */
  function Written(m: map<string, string>, op: Op): map<string, string> {
    match op
    case OpGet(_, _) => m
    case OpSet(key, value, _, _, _) => m[key := value]
    case OpDel(key) => m - {key}
    case OpCleanup(_) => m
    case OpClear => map[]
    case OpStrategy(_) => m
  }

  function WrittenAll(m: map<string, string>, ops: seq<Op>): map<string, string>
    decreases |ops|
  {
    if ops == [] then m else WrittenAll(Written(m, ops[0]), ops[1..])
  }

  /** The cache may have lost entries, but it holds nothing else than what was written last. */
  predicate Within(entries: map<string, Entry>, m: map<string, string>) {
    forall k :: k in entries ==> k in m && entries[k].value == m[k]
  }

  lemma StepStaysWithin(s: State, op: Op, m: map<string, string>)
    requires Within(s.entries, m)
    ensures Within(Apply(s, op).entries, Written(m, op))
  {
    match op
    case OpSet(key, value, ttl, now, victims) =>
      EvictAllFixed(Insert(s, key, value, ttl, now), victims);
    case OpGet(_, _) =>
    case OpDel(_) =>
    case OpCleanup(_) =>
    case OpClear =>
    case OpStrategy(_) =>
  }

  /** Lossy-map refinement: after every run, get answers nothing or the value written last. */
  lemma {:induction false} GetAnswersLastWritten(s: State, ops: seq<Op>, m: map<string, string>, key: string, now: int)
    requires Within(s.entries, m)
    ensures Within(Run(s, ops).entries, WrittenAll(m, ops))
    ensures GetValue(Run(s, ops), key, now).Some? ==>
      key in WrittenAll(m, ops) && GetValue(Run(s, ops), key, now).value == WrittenAll(m, ops)[key]
    decreases |ops|
  {
    if ops != [] {
      StepStaysWithin(s, ops[0], m);
      GetAnswersLastWritten(Apply(s, ops[0]), ops[1..], Written(m, ops[0]), key, now);
    }
  }
}
