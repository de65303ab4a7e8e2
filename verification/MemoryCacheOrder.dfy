/**
 Exact LRU and FIFO behaviour: on runs that stay with these two strategies, store only absent keys
 and never read an expired entry, the list is the entry keys in order of last touch, where a hit
 touches a key under LRU only.
 */
module MemoryCacheOrder {
  import opened Results
  import opened Sums
  import opened CacheEntries
  import opened MemoryCacheModel
  import opened MemoryCacheEviction
  import opened MemoryCacheRuns

  /** A cache state with its history: the step at which each key was last touched. */
  datatype Hist = Hist(s: State, touched: map<string, nat>, tick: nat)

  /** A write touches a key, and under LRU so does a hit. */
  function Stamp(s: State, op: Op, touched: map<string, nat>, tick: nat): map<string, nat> {
    match op
    case OpGet(k, now) => if s.strategy.LRU? && Hit(s, k, now) then touched[k := tick] else touched
    case OpSet(k, _, _, _, _) => touched[k := tick]
    case OpDel(_) => touched
    case OpCleanup(_) => touched
    case OpClear => touched
    case OpStrategy(_) => touched
  }

  ghost function Next(h: Hist, op: Op): Hist {
    Hist(Apply(h.s, op), Stamp(h.s, op, h.touched, h.tick), h.tick + 1)
  }

  /** The steps on which the list is exact. */
  predicate Exact(s: State, op: Op) {
    Legal(s, op) &&
    match op
    case OpGet(k, now) => k in s.entries ==> !s.entries[k].IsExpired(now)
    case OpSet(k, _, _, _, victims) => k !in s.entries && "" !in victims
    case OpDel(_) => true
    case OpCleanup(_) => true
    case OpClear => true
    case OpStrategy(strategy) => strategy.Listed()
  }

  ghost predicate ExactRun(h: Hist, ops: seq<Op>)
    decreases |ops|
  {
    ops == [] || (Exact(h.s, ops[0]) && ExactRun(Next(h, ops[0]), ops[1..]))
  }

  ghost function Final(h: Hist, ops: seq<Op>): Hist
    decreases |ops|
  {
    if ops == [] then h else Final(Next(h, ops[0]), ops[1..])
  }

  /** The list names the keys of the entries, each once, and the index names its nodes. */
  predicate Faithful(s: State) {
    && s.index.Keys == s.entries.Keys
    && (forall n :: n in s.order ==> n.key in s.index && s.index[n.key] == n.id)
  }

  predicate Newer(a: string, b: string, touched: map<string, nat>) {
    a in touched && b in touched && touched[a] > touched[b]
  }

  /** Newest touch first. */
  predicate ByRecency(order: seq<Node>, touched: map<string, nat>) {
    && (forall n :: n in order ==> n.key in touched)
    && (forall i, j :: 0 <= i < j < |order| ==> Newer(order[i].key, order[j].key, touched))
  }

  ghost predicate OrderInv(h: Hist) {
    && h.s.strategy.Listed()
    && Inv(h.s)
    && h.s.bytes == TotalSize(h.s.entries)
    && ListExact(h)
  }

  /** The list is faithful and ordered by last touch. */
  ghost predicate ListExact(h: Hist) {
    && Faithful(h.s) && ByRecency(h.s.order, h.touched)
    && forall k :: k in h.touched ==> h.touched[k] < h.tick
  }

  // ---------------------------------------------------------------- the list is a permutation

  /** Each entry key stands at exactly one place of the list, the one the index remembers. */
  lemma FaithfulIsPermutation(s: State)
    requires Linked(s) && Faithful(s)
    ensures forall i, j :: 0 <= i < j < |s.order| ==> s.order[i].key != s.order[j].key
    ensures forall k :: k in s.entries <==> InList(s.order, k)
    ensures |s.order| == |s.entries|
  {
    forall k | k in s.entries ensures InList(s.order, k) {
      assert Node(s.index[k], k) in s.order;
    }
    forall i, j | 0 <= i < j < |s.order| ensures s.order[i].key != s.order[j].key {
      assert s.order[i] in s.order && s.order[j] in s.order;
    }
    KeysCount(s.order, s.entries.Keys);
  }

  lemma {:induction false} KeysCount(order: seq<Node>, keys: set<string>)
    requires forall i, j :: 0 <= i < j < |order| ==> order[i].key != order[j].key
    requires forall k :: k in keys <==> InList(order, k)
    ensures |order| == |keys|
  {
    assert forall k :: k in keys ==> InList(order, k);
    if order != [] {
      var t := order[1..];
      assert order[0] in order;
      assert InList(order, order[0].key);
      forall k ensures k in keys - {order[0].key} <==> InList(t, k) {
        if InList(t, k) {
          var n :| n in t && n.key == k;
          assert n in order;
          var i :| 0 <= i < |t| && t[i] == n;
          assert order[i + 1].key != order[0].key;
        }
        if k in keys - {order[0].key} {
          var n :| n in order && n.key == k;
          assert n in t;
        }
      }
      KeysCount(t, keys - {order[0].key});
    }
  }

  // ---------------------------------------------------------------- eviction takes the oldest key

  /** While the loop runs, with the list exact. */
  ghost predicate Draining(s: State, key: string, touched: map<string, nat>) {
    && Evicting(s, key) && s.strategy.Listed() && s.bytes == TotalSize(s.entries)
    && Faithful(s) && ByRecency(s.order, touched)
  }

  /** In an exact list the last node is the entry whose touch is the oldest. */
  lemma LastIsOldest(s: State, touched: map<string, nat>)
    requires Linked(s) && Faithful(s) && ByRecency(s.order, touched) && s.order != []
    ensures var k := s.order[|s.order| - 1].key;
      k in s.entries && forall j :: j in s.entries && j != k ==> Newer(j, k, touched)
  {
    var last := |s.order| - 1;
    assert s.order[last] in s.order;
    forall j | j in s.entries && j != s.order[last].key ensures Newer(j, s.order[last].key, touched) {
      assert Node(s.index[j], j) in s.order;
      var i :| 0 <= i < |s.order| && s.order[i] == Node(s.index[j], j);
      assert i < last;
    }
  }

  lemma PopBackFaithful(s: State, touched: map<string, nat>)
    requires Linked(s) && Faithful(s) && ByRecency(s.order, touched) && s.strategy.Listed() && s.order != []
    ensures var k := s.order[|s.order| - 1].key; var t := PopBack(s, k);
      t.index.Keys == s.entries.Keys - {k} && ByRecency(t.order, touched)
      && forall n :: n in t.order ==> n.key in t.index && t.index[n.key] == n.id
  {
    var k := s.order[|s.order| - 1].key;
    var t := PopBack(s, k);
    forall n | n in t.order ensures n.key in t.index && t.index[n.key] == n.id {
      var i :| 0 <= i < |t.order| && t.order[i] == n;
      assert s.order[i] == n && n in s.order;
      assert Newer(n.key, k, touched);
    }
  }

  /** Each eviction removes exactly the key whose last touch is the oldest. */
  lemma EvictsOldest(s: State, key: string, touched: map<string, nat>, k: string)
    requires Draining(s, key, touched) && Over(s) && MayPick(s, k) && k != ""
    ensures k in s.entries
    ensures forall j :: j in s.entries && j != k ==> Newer(j, k, touched)
    ensures EvictOne(s, k).entries == s.entries - {k}
    ensures Draining(EvictOne(s, k), key, touched)
  {
    EvictOneKeeps(s, key, k);
    FaithfulIsPermutation(s);
    var e := AnyKey(s.entries);
    LastIsOldest(s, touched);
    PopBackFaithful(s, touched);
    TotalSizeRemove(s.entries, k);
  }

  predicate OlderThanAll(entries: map<string, Entry>, k: string, touched: map<string, nat>) {
    k in entries && forall j :: j in entries && j != k ==> Newer(j, k, touched)
  }

  /** Every choice is the live key touched longest ago, and the only one to go. */
  predicate PicksOldest(s: State, touched: map<string, nat>, victims: seq<string>)
    decreases |victims|
  {
    victims == []
    || (OlderThanAll(s.entries, victims[0], touched)
        && EvictOne(s, victims[0]).entries == s.entries - {victims[0]}
        && PicksOldest(EvictOne(s, victims[0]), touched, victims[1..]))
  }

  lemma {:induction false} StaysDraining(s: State, key: string, touched: map<string, nat>, victims: seq<string>)
    requires Draining(s, key, touched) && Evictable(s, victims) && "" !in victims
    ensures Draining(EvictAll(s, victims), key, touched)
    ensures PicksOldest(s, touched, victims)
    decreases |victims|
  {
    if victims != [] {
      EvictsOldest(s, key, touched, victims[0]);
      StaysDraining(EvictOne(s, victims[0]), key, touched, victims[1..]);
    }
  }

  /** The loop removes the victims and nothing else. */
  lemma {:induction false} RemovesVictims(s: State, touched: map<string, nat>, victims: seq<string>)
    requires PicksOldest(s, touched, victims)
    ensures forall j :: j in s.entries <==> j in EvictAll(s, victims).entries || j in victims
    decreases |victims|
  {
    if victims != [] {
      RemovesVictims(EvictOne(s, victims[0]), touched, victims[1..]);
      assert victims == [victims[0]] + victims[1..];
    }
  }

  /** The victims come oldest first, and every survivor was touched after every victim. */
  lemma {:induction false} VictimsInOrder(s: State, touched: map<string, nat>, victims: seq<string>)
    requires PicksOldest(s, touched, victims)
    ensures forall i, j :: 0 <= i < j < |victims| ==> Newer(victims[j], victims[i], touched)
    ensures forall i, j :: 0 <= i < |victims| && j in EvictAll(s, victims).entries ==> Newer(j, victims[i], touched)
    decreases |victims|
  {
    if victims != [] {
      var t := EvictOne(s, victims[0]);
      RemovesVictims(t, touched, victims[1..]);
      VictimsInOrder(t, touched, victims[1..]);
      forall i, j | 0 <= i < j < |victims| ensures Newer(victims[j], victims[i], touched) {
        assert victims[j] == victims[1..][j - 1] && victims[j] in victims[1..];
        if i > 0 { assert victims[i] == victims[1..][i - 1]; }
      }
      forall i, j | 0 <= i < |victims| && j in EvictAll(s, victims).entries ensures Newer(j, victims[i], touched) {
        if i > 0 { assert victims[i] == victims[1..][i - 1]; }
      }
    }
  }

  /** One whole set: the keys that go are those touched longest ago, oldest first; survivors were all touched later. */
  lemma SetEvictsOldest(h: Hist, op: Op)
    requires OrderInv(h) && op.OpSet? && Exact(h.s, op)
    ensures var touched := h.touched[op.key := h.tick]; var survivors := Apply(h.s, op).entries;
      (forall j :: j in h.s.entries || j == op.key <==> j in survivors || j in op.victims)
      && (forall i, j :: 0 <= i < j < |op.victims| ==> Newer(op.victims[j], op.victims[i], touched))
      && (forall i, j :: 0 <= i < |op.victims| && j in survivors ==> Newer(j, op.victims[i], touched))
  {
    var t := Insert(h.s, op.key, op.value, op.ttl, op.now);
    var touched := h.touched[op.key := h.tick];
    InsertDraining(h, op.key, op.value, op.ttl, op.now);
    StaysDraining(t, op.key, touched, op.victims);
    RemovesVictims(t, touched, op.victims);
    VictimsInOrder(t, touched, op.victims);
  }

  // ---------------------------------------------------------------- steps

  lemma {:induction false} EraseNodesByRecency(order: seq<Node>, ids: set<nat>, touched: map<string, nat>)
    requires ByRecency(order, touched)
    ensures ByRecency(EraseNodes(order, ids), touched)
  {
    if order != [] {
      EraseNodesByRecency(order[1..], ids, touched);
      var rest := EraseNodes(order[1..], ids);
      forall n | n in rest ensures Newer(order[0].key, n.key, touched) {
        var i :| 0 <= i < |order[1..]| && order[1..][i] == n;
        assert order[1 + i] == n;
      }
    }
  }

  lemma PushFrontByRecency(order: seq<Node>, n: Node, touched: map<string, nat>, tick: nat)
    requires ByRecency(order, touched)
    requires forall k :: k in touched ==> touched[k] < tick
    requires forall m :: m in order ==> m.key != n.key
    ensures ByRecency([n] + order, touched[n.key := tick])
  {
    var o := [n] + order;
    forall i, j | 0 <= i < j < |o| ensures Newer(o[i].key, o[j].key, touched[n.key := tick]) {
      assert o[j] == order[j - 1] && order[j - 1] in order;
      if i > 0 { assert o[i] == order[i - 1] && order[i - 1] in order; }
    }
  }

  lemma HitKeepsOrder(h: Hist, key: string, now: int)
    requires OrderInv(h) && Exact(h.s, OpGet(key, now)) && Hit(h.s, key, now)
    ensures OrderInv(Next(h, OpGet(key, now)))
  {
    var s := h.s;
    GetKeepsInv(s, key, now);
    TotalSizeUpdate(s.entries, key, s.entries[key].Accessed());
    var t := s.(entries := s.entries[key := s.entries[key].Accessed()]);
    assert t.entries.Keys == s.entries.Keys;
    if s.strategy.LRU? { TouchedHist(Hist(t, h.touched, h.tick), key); }
  }

  lemma TouchedHist(h: Hist, key: string)
    requires Linked(h.s) && ListExact(h) && key in h.s.index
    ensures ListExact(Hist(PushFront(Unlink(h.s, key), key), h.touched[key := h.tick], h.tick + 1))
  {
    TouchedList(h.s, key, h.touched, h.tick);
  }

  /** Moving the node of a key to the front. */
  lemma TouchedList(s: State, key: string, touched: map<string, nat>, tick: nat)
    requires Linked(s) && Faithful(s) && key in s.index && ByRecency(s.order, touched)
    requires forall k :: k in touched ==> touched[k] < tick
    ensures Faithful(PushFront(Unlink(s, key), key))
    ensures ByRecency(PushFront(Unlink(s, key), key).order, touched[key := tick])
  {
    var rest := EraseNodes(s.order, {s.index[key]});
    EraseNodesByRecency(s.order, {s.index[key]}, touched);
    PushFrontByRecency(rest, Node(s.nextNode, key), touched, tick);
  }

  lemma InsertDraining(h: Hist, key: string, value: string, ttl: int, now: int)
    requires OrderInv(h) && key !in h.s.entries && now + ttl < TIME_MAX
    ensures Draining(Insert(h.s, key, value, ttl, now), key, h.touched[key := h.tick])
  {
    InsertEvicting(h.s, key, value, ttl, now);
    TotalSizeUpdate(h.s.entries, key, NewEntry(key, value, ttl, now));
    PushFrontByRecency(h.s.order, Node(h.s.nextNode, key), h.touched, h.tick);
    InsertFaithful(h.s, key, value, ttl, now);
  }

  lemma InsertFaithful(s: State, key: string, value: string, ttl: int, now: int)
    requires Linked(s) && Faithful(s) && s.strategy.Listed() && key !in s.entries
    ensures Faithful(Insert(s, key, value, ttl, now))
  {
  }

  lemma SetKeepsOrder(h: Hist, op: Op)
    requires OrderInv(h) && op.OpSet? && Exact(h.s, op)
    ensures OrderInv(Next(h, op))
  {
    var t := Insert(h.s, op.key, op.value, op.ttl, op.now);
    InsertDraining(h, op.key, op.value, op.ttl, op.now);
    StaysDraining(t, op.key, h.touched[op.key := h.tick], op.victims);
    StepKeepsInv(h.s, op);
  }

  lemma DropKeepsOrder(h: Hist, keys: set<string>)
    requires OrderInv(h)
    ensures OrderInv(h.(s := Drop(h.s, keys)))
  {
    var s := h.s;
    DropKeepsInv(s, keys);
    TotalSizeSplit(s.entries, keys);
    EraseNodesByRecency(s.order, NodesOf(s, keys), h.touched);
  }

  lemma DelIsDrop(s: State, key: string)
    requires key in s.entries && key in s.index
    ensures Del(s, key) == Drop(s, {key})
  {
    var part := Part(s.entries, {key});
    TotalSizeRemove(part, key);
    assert Sizes(part - {key}) == map[];
    assert TotalSize(part - {key}) == 0;
    assert NodesOf(s, {key}) == {s.index[key]};
  }

  lemma StepKeepsOrder(h: Hist, op: Op)
    requires OrderInv(h) && Exact(h.s, op)
    ensures OrderInv(Next(h, op))
  {
    match op
    case OpGet(key, now) => if Hit(h.s, key, now) { HitKeepsOrder(h, key, now); }
    case OpSet(_, _, _, _, _) => SetKeepsOrder(h, op);
    case OpDel(key) => if key in h.s.entries { DelIsDrop(h.s, key); DropKeepsOrder(h, {key}); }
    case OpCleanup(now) => DropKeepsOrder(h, ExpiredKeys(h.s, now));
    case OpClear => assert Sizes(map[]) == map[];
    case OpStrategy(_) =>
  }

  /** Over every exact run: exact bytes, one list node per entry, newest touch first. */
  lemma {:induction false} OrderRun(h: Hist, ops: seq<Op>)
    requires OrderInv(h) && ExactRun(h, ops)
    ensures OrderInv(Final(h, ops))
    decreases |ops|
  {
    if ops != [] {
      StepKeepsOrder(h, ops[0]);
      OrderRun(Next(h, ops[0]), ops[1..]);
    }
  }

  lemma OrderFromStart(limit: nat, strategy: Strategy, ops: seq<Op>)
    requires strategy.Listed() && ExactRun(Hist(Empty(limit, strategy), map[], 0), ops)
    ensures var h := Final(Hist(Empty(limit, strategy), map[], 0), ops);
      ByRecency(h.s.order, h.touched) && |h.s.order| == |h.s.entries|
      && h.s.bytes == TotalSize(h.s.entries)
      && forall k :: k in h.s.entries <==> InList(h.s.order, k)
  {
    assert Sizes(map[]) == map[];
    var h := Final(Hist(Empty(limit, strategy), map[], 0), ops);
    OrderRun(Hist(Empty(limit, strategy), map[], 0), ops);
    FaithfulIsPermutation(h.s);
  }

  // ---------------------------------------------------------------- where exactness ends

  /** While the loop runs after key was stored over an old entry: the list and the index disagree about key. */
  ghost predicate Stale(s: State, key: string) {
    && s.strategy.Listed() && Linked(s) && s.index.Keys == s.entries.Keys
    && s.order != [] && s.order[0].key == key
    && ((exists i :: 0 < i < |s.order| && s.order[i].key == key) || key !in s.entries)
  }

  lemma StaleNotAlone(s: State, key: string)
    requires Stale(s, key) && Over(s)
    ensures |s.order| > 1
  {
    var e := AnyKey(s.entries);
    assert Node(s.index[e], e) in s.order;
  }

  /** A stale node at the back takes the new entry with it; the node at the front stays. */
  lemma EvictOneStale(s: State, key: string, k: string)
    requires Stale(s, key) && Over(s) && MayPick(s, k)
    ensures Stale(EvictOne(s, k), key) || Unlisted(EvictOne(s, k))
  {
    StaleNotAlone(s, key);
    if k != "" || "" !in s.entries { EvictedIsStale(s, key, k); }
  }

  lemma EvictedIsStale(s: State, key: string, k: string)
    requires Stale(s, key) && |s.order| > 1 && MayPick(s, k) && (k != "" || "" !in s.entries)
    ensures Stale(EvictOne(s, k), key)
  {
    PopBackLinked(s);
    var t := EvictOne(s, k);
    assert t.index.Keys == t.entries.Keys;
    assert t.order == s.order[..|s.order| - 1] && t.order[0] == s.order[0];
    if k != key && key in s.entries { StaleNodeLeft(s, key, t.order); }
  }

  lemma StaleNodeLeft(s: State, key: string, order: seq<Node>)
    requires |s.order| > 1 && order == s.order[..|s.order| - 1] && s.order[|s.order| - 1].key != key
    requires exists i :: 0 < i < |s.order| && s.order[i].key == key
    ensures exists i :: 0 < i < |order| && order[i].key == key
  {
    var i :| 0 < i < |s.order| && s.order[i].key == key;
    assert order[i] == s.order[i];
  }

  /** The loop took the node of the empty key but not its entry. */
  predicate Unlisted(s: State) { "" in s.entries && "" !in s.index }

  lemma {:induction false} StaysUnlisted(s: State, victims: seq<string>)
    requires Unlisted(s)
    ensures Unlisted(EvictAll(s, victims))
    decreases |victims|
  {
    if victims != [] { StaysUnlisted(EvictOne(s, victims[0]), victims[1..]); }
  }

  lemma {:induction false} StaysStale(s: State, key: string, victims: seq<string>)
    requires Stale(s, key) && Evictable(s, victims)
    ensures Stale(EvictAll(s, victims), key) || Unlisted(EvictAll(s, victims))
    decreases |victims|
  {
    if victims != [] {
      EvictOneStale(s, key, victims[0]);
      var t := EvictOne(s, victims[0]);
      if Unlisted(t) { StaysUnlisted(t, victims[1..]); } else { StaysStale(t, key, victims[1..]); }
    }
  }

  /** A loop that chooses the empty key in an exact list leaves its entry without a node. */
  lemma {:induction false} EmptyKeyUnlisted(s: State, key: string, touched: map<string, nat>, victims: seq<string>)
    requires Draining(s, key, touched) && Evictable(s, victims) && "" in victims
    ensures Unlisted(EvictAll(s, victims))
    decreases |victims|
  {
    var t := EvictOne(s, victims[0]);
    if victims[0] == "" {
      FaithfulIsPermutation(s);
      var e := AnyKey(s.entries);
      assert s.order[|s.order| - 1] in s.order;
      StaysUnlisted(t, victims[1..]);
    } else {
      EvictsOldest(s, key, touched, victims[0]);
      EmptyKeyUnlisted(t, key, touched, victims[1..]);
    }
  }

  lemma StaleIsNotFaithful(s: State, key: string)
    requires Stale(s, key)
    ensures !Faithful(s)
  {
    assert s.order[0] in s.order;
    if i :| 0 < i < |s.order| && s.order[i].key == key {
      assert s.order[i] in s.order && s.order[0].id != s.order[i].id;
    }
  }

  /**
   A whole set, evictions included, keeps the list ordered by last touch and the byte counter exact
   precisely when the key was absent and the loop did not come to the empty key, which stays.
   */
  lemma SetKeepsOrderIff(h: Hist, op: Op)
    requires OrderInv(h) && op.OpSet? && Legal(h.s, op)
    ensures OrderInv(Next(h, op)) <==> op.key !in h.s.entries && "" !in op.victims
  {
    if op.key in h.s.entries {
      RestoredIsStale(h, op);
    } else if "" in op.victims {
      InsertDraining(h, op.key, op.value, op.ttl, op.now);
      var t := Insert(h.s, op.key, op.value, op.ttl, op.now);
      EmptyKeyUnlisted(t, op.key, h.touched[op.key := h.tick], op.victims);
    } else {
      SetKeepsOrder(h, op);
    }
  }

  lemma RestoredIsStale(h: Hist, op: Op)
    requires OrderInv(h) && op.OpSet? && Legal(h.s, op) && op.key in h.s.entries
    ensures !Faithful(Next(h, op).s)
  {
    var t := Insert(h.s, op.key, op.value, op.ttl, op.now);
    var former := Node(h.s.index[op.key], op.key);
    assert former in h.s.order;
    var i :| 0 <= i < |h.s.order| && h.s.order[i] == former;
    assert t.order[i + 1] == former;
    PushFrontLinked(h.s.(entries := t.entries, bytes := t.bytes), op.key);
    StaysStale(t, op.key, op.victims);
    var u := EvictAll(t, op.victims);
    if Stale(u, op.key) { StaleIsNotFaithful(u, op.key); }
  }

  /** Reading a key keeps list and byte counter exact precisely when no expired entry is met. */
  lemma GetKeepsOrderIff(h: Hist, key: string, now: int)
    requires OrderInv(h) && Legal(h.s, OpGet(key, now))
    ensures OrderInv(Next(h, OpGet(key, now))) <==> !(key in h.s.entries && h.s.entries[key].IsExpired(now))
  {
    if Hit(h.s, key, now) {
      HitKeepsOrder(h, key, now);
    } else if key in h.s.entries {
      var t := Next(h, OpGet(key, now)).s;
      assert key in t.index && key !in t.entries;
      assert !Faithful(t);
    }
  }

  /** The conditions are exact: a legal step keeps the list exact precisely when it is one of the exact steps. */
  lemma StepOrderIff(h: Hist, op: Op)
    requires OrderInv(h) && Legal(h.s, op)
    ensures OrderInv(Next(h, op)) <==> Exact(h.s, op)
  {
    match op
    case OpGet(key, now) => GetKeepsOrderIff(h, key, now);
    case OpSet(_, _, _, _, _) => SetKeepsOrderIff(h, op);
    case _ => if Exact(h.s, op) { StepKeepsOrder(h, op); }
  }

  /** Re-storing a key makes it the next victim although it was touched last. */
  lemma StaleNodeEvictsNewest()
    ensures var s0 := Empty(6, LRU);
      var s1 := Apply(s0, OpSet("a", "1", 10, 0, []));
      var s2 := Apply(s1, OpSet("b", "1", 10, 0, []));
      var s3 := Apply(s2, OpSet("a", "2", 10, 0, []));
      Legal(s0, OpSet("a", "1", 10, 0, [])) && Legal(s1, OpSet("b", "1", 10, 0, []))
      && Legal(s2, OpSet("a", "2", 10, 0, [])) && "a" in s3.entries && "b" in s3.entries
      && Legal(s3, OpSet("c", "123", 10, 0, ["a"]))
  {
    var s0 := Empty(6, LRU);
    var a, b := Entry("a", "1", 10, 0), Entry("b", "1", 10, 0);
    var s1 := Insert(s0, "a", "1", 10, 0);
    assert s1 == State(6, 2, LRU, map["a" := a], [Node(0, "a")], map["a" := 0], 1);
    var s2 := Insert(s1, "b", "1", 10, 0);
    assert s2 == State(6, 4, LRU, map["a" := a, "b" := b], [Node(1, "b"), Node(0, "a")], map["a" := 0, "b" := 1], 2);
    var s3 := Insert(s2, "a", "2", 10, 0);
    assert s3.order == [Node(2, "a"), Node(1, "b"), Node(0, "a")] && s3.bytes == 4;
    StaleStep(s3);
  }

  lemma StaleStep(s: State)
    requires s.limit == 6 && s.bytes == 4 && s.strategy.LRU? && |s.order| == 3 && s.order[2] == Node(0, "a")
    requires "a" in s.entries && s.entries["a"].Size() == 2 && "c" !in s.entries
    ensures Legal(s, OpSet("c", "123", 10, 0, ["a"]))
  {
    var t := Insert(s, "c", "123", 10, 0);
    assert t.bytes == 8 && t.order[3] == Node(0, "a");
    var u := EvictOne(t, "a");
    assert u.bytes == 6;
    assert EvictAll(t, ["a"]) == EvictAll(u, []);
    assert Evictable(u, []);
  }
}
