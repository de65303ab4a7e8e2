/**
 The in-memory cache tier as a state machine over values: entry map, recency list,
 index of list positions, byte counter and the eviction loop with its five strategies.
 List nodes carry an identity, so that an iterator kept in the index is a node's identity.
 */
module MemoryCacheModel {
  import opened Results
  import opened Sums
  import opened CacheEntries

  datatype Strategy = LRU | LFU | FIFO | RANDOM | TTL_ONLY {
    predicate Listed() { LRU? || FIFO? }
  }

  datatype Node = Node(id: nat, key: string)

  datatype State = State(
    limit: nat,
    bytes: int,
    strategy: Strategy,
    entries: map<string, Entry>,
    order: seq<Node>,
    index: map<string, nat>,
    nextNode: nat)

  function Empty(limit: nat, strategy: Strategy): State {
    State(limit, 0, strategy, map[], [], map[], 0)
  }

  // ---------------------------------------------------------------- list primitives

  /** Erases the nodes with the given identities and keeps the order of the others. */
  function EraseNodes(order: seq<Node>, ids: set<nat>): (r: seq<Node>)
    ensures forall n :: n in r <==> n in order && n.id !in ids
  {
    if order == [] then []
    else if order[0].id in ids then EraseNodes(order[1..], ids)
    else [order[0]] + EraseNodes(order[1..], ids)
  }

  predicate DistinctIds(order: seq<Node>) {
    forall i, j :: 0 <= i < j < |order| ==> order[i].id != order[j].id
  }

  lemma {:induction false} EraseNodesDistinct(order: seq<Node>, ids: set<nat>)
    requires DistinctIds(order)
    ensures DistinctIds(EraseNodes(order, ids))
    ensures |EraseNodes(order, ids)| <= |order|
  {
    if order != [] {
      EraseNodesDistinct(order[1..], ids);
      var rest := EraseNodes(order[1..], ids);
      forall j | 0 <= j < |rest| ensures rest[j].id != order[0].id {
        assert rest[j] in order[1..];
      }
      assert EraseNodes(order, ids) == if order[0].id in ids then rest else [order[0]] + rest;
    }
  }

  lemma {:induction false} EraseNodesTwice(order: seq<Node>, a: set<nat>, b: set<nat>)
    ensures EraseNodes(EraseNodes(order, a), b) == EraseNodes(order, a + b)
  {
    if order != [] {
      EraseNodesTwice(order[1..], a, b);
    }
  }

  /** access_order_.push_front(key) and access_order_index_[key] = begin(). */
  function PushFront(s: State, key: string): State {
    s.(order := [Node(s.nextNode, key)] + s.order,
       index := s.index[key := s.nextNode],
       nextNode := s.nextNode + 1)
  }

  /** Erases the node the index remembers for key, if any. */
  function Unlink(s: State, key: string): State {
    if key in s.index then
      s.(order := EraseNodes(s.order, {s.index[key]}), index := s.index - {key})
    else s
  }

  // ---------------------------------------------------------------- operations

  predicate Hit(s: State, key: string, now: int) {
    key in s.entries && !s.entries[key].IsExpired(now)
  }

  function GetValue(s: State, key: string, now: int): Option<string> {
    if Hit(s, key, now) then Some(s.entries[key].value) else None
  }

  /** An expired entry is dropped, but neither its bytes nor its list node. */
  function Get(s: State, key: string, now: int): State {
    if key !in s.entries then s
    else if s.entries[key].IsExpired(now) then s.(entries := s.entries - {key})
    else
      var t := s.(entries := s.entries[key := s.entries[key].Accessed()]);
      if s.strategy.LRU? then PushFront(Unlink(t, key), key) else t
  }

  /** set up to the eviction loop: a replaced key leaves its old list node behind. */
  function Insert(s: State, key: string, value: string, ttl: int, now: int): State {
    var e := NewEntry(key, value, ttl, now);
    var freed := if key in s.entries then s.entries[key].Size() else 0;
    var t := s.(bytes := s.bytes - freed + e.Size(), entries := s.entries[key := e]);
    if s.strategy.Listed() then PushFront(t, key) else t
  }

  /** The guard of the eviction loop. */
  predicate Over(s: State) {
    s.bytes > s.limit && s.entries != map[]
  }

  /** The keys evict_one may choose; "" stands for no choice. */
  predicate MayPick(s: State, k: string) {
    match s.strategy
    case LRU => k == if s.order == [] then "" else s.order[|s.order| - 1].key
    case FIFO => k == if s.order == [] then "" else s.order[|s.order| - 1].key
    case RANDOM => k in s.entries
    case LFU =>
      if exists j :: j in s.entries && s.entries[j].accessCount < INT_MAX then
        k in s.entries && s.entries[k].accessCount < INT_MAX
        && forall j :: j in s.entries ==> s.entries[k].accessCount <= s.entries[j].accessCount
      else k == ""
    case TTL_ONLY =>
      if exists j :: j in s.entries && s.entries[j].expiresAt < TIME_MAX then
        k in s.entries && s.entries[k].expiresAt < TIME_MAX
        && forall j :: j in s.entries ==> s.entries[k].expiresAt <= s.entries[j].expiresAt
      else k == ""
  }

  function PopBack(s: State, k: string): State {
    if s.strategy.Listed() && s.order != []
    then s.(order := s.order[..|s.order| - 1], index := s.index - {k}) else s
  }

  function RemoveEntry(s: State, k: string): State {
    if k != "" && k in s.entries
    then s.(bytes := s.bytes - s.entries[k].Size(), entries := s.entries - {k}) else s
  }

  /** One call of evict_one that chose k. */
  function EvictOne(s: State, k: string): State {
    RemoveEntry(PopBack(s, k), k)
  }

  function EvictAll(s: State, victims: seq<string>): State
    decreases |victims|
  {
    if victims == [] then s else EvictAll(EvictOne(s, victims[0]), victims[1..])
  }

  /** victims is a possible sequence of choices of the running loop. */
  predicate Evictable(s: State, victims: seq<string>)
    decreases |victims|
  {
    victims == []
    || (Over(s) && MayPick(s, victims[0]) && Evictable(EvictOne(s, victims[0]), victims[1..]))
  }

  /** victims is a possible sequence of choices up to the loop's exit. */
  predicate EvictTrace(s: State, victims: seq<string>) {
    Evictable(s, victims) && !Over(EvictAll(s, victims))
  }

  function Del(s: State, key: string): State {
    if key in s.entries then
      Unlink(s.(bytes := s.bytes - s.entries[key].Size(), entries := s.entries - {key}), key)
    else s
  }

  function ExpiredKeys(s: State, now: int): set<string> {
    set k | k in s.entries && s.entries[k].IsExpired(now)
  }

  function Part(entries: map<string, Entry>, keys: set<string>): map<string, Entry> {
    map k | k in entries && k in keys :: entries[k]
  }

  function NodesOf(s: State, keys: set<string>): set<nat> {
    set k | k in keys && k in s.index :: s.index[k]
  }

  /** Drops a set of keys with their bytes and list nodes; cleanup_expired drops the expired ones. */
  ghost function Drop(s: State, keys: set<string>): State
  {
    s.(bytes := s.bytes - TotalSize(Part(s.entries, keys)),
       entries := s.entries - keys,
       order := EraseNodes(s.order, NodesOf(s, keys)),
       index := s.index - keys)
  }

  function Clear(s: State): State {
    s.(entries := map[], order := [], index := map[], bytes := 0)
  }

  // ---------------------------------------------------------------- runs

  datatype Op =
    | OpGet(key: string, now: int)
    | OpSet(key: string, value: string, ttl: int, now: int, victims: seq<string>)
    | OpDel(key: string)
    | OpCleanup(now: int)
    | OpClear
    | OpStrategy(strategy: Strategy)

  ghost function Apply(s: State, op: Op): State {
    match op
    case OpGet(key, now) => Get(s, key, now)
    case OpSet(key, value, ttl, now, victims) => EvictAll(Insert(s, key, value, ttl, now), victims)
    case OpDel(key) => Del(s, key)
    case OpCleanup(now) => Drop(s, ExpiredKeys(s, now))
    case OpClear => Clear(s)
    case OpStrategy(strategy) => s.(strategy := strategy)
  }

  /** The eviction loop came to its end, and machine integers do not reach the sentinels of evict_one. */
  predicate Legal(s: State, op: Op) {
    match op
    case OpGet(key, now) => Hit(s, key, now) ==> s.entries[key].accessCount + 1 < INT_MAX
    case OpSet(key, value, ttl, now, victims) =>
      now + ttl < TIME_MAX && EvictTrace(Insert(s, key, value, ttl, now), victims)
    case OpDel(_) => true
    case OpCleanup(_) => true
    case OpClear => true
    case OpStrategy(_) => true
  }

  ghost predicate LegalRun(s: State, ops: seq<Op>)
    decreases |ops|
  {
    ops == [] || (Legal(s, ops[0]) && LegalRun(Apply(s, ops[0]), ops[1..]))
  }

  ghost function Run(s: State, ops: seq<Op>): State
    decreases |ops|
  {
    if ops == [] then s else Run(Apply(s, ops[0]), ops[1..])
  }

  // ---------------------------------------------------------------- invariant

  /** Every iterator in the index points at a live node of its own key. */
  predicate Linked(s: State) {
    && DistinctIds(s.order)
    && (forall n :: n in s.order ==> n.id < s.nextNode)
    && (forall k :: k in s.index ==> Node(s.index[k], k) in s.order)
  }

  predicate Tame(entries: map<string, Entry>) {
    forall k :: k in entries ==>
      entries[k].key == k && entries[k].accessCount < INT_MAX && entries[k].expiresAt < TIME_MAX
  }

  /** The counter covers the real bytes and stays within the limit. */
  ghost predicate Inv(s: State) {
    Linked(s) && Tame(s.entries) && TotalSize(s.entries) <= s.bytes <= s.limit
  }

  predicate InList(order: seq<Node>, key: string) {
    exists n :: n in order && n.key == key
  }

  /** What holds while the loop runs after key was stored: without key's own bytes the limit is met. */
  ghost predicate Evicting(s: State, key: string) {
    && Linked(s) && Tame(s.entries) && TotalSize(s.entries) <= s.bytes
    && (if key in s.entries then
          s.bytes - s.entries[key].Size() <= s.limit && (s.strategy.Listed() && key != "" ==> InList(s.order, key))
        else s.bytes <= s.limit)
  }

  lemma PushFrontLinked(s: State, key: string)
    requires Linked(s)
    ensures Linked(PushFront(s, key))
  {
  }

  lemma UnlinkLinked(s: State, key: string)
    requires Linked(s)
    ensures Linked(Unlink(s, key))
    ensures key in s.index ==> |Unlink(s, key).order| <= |s.order|
  {
    if key in s.index {
      EraseNodesDistinct(s.order, {s.index[key]});
      forall k | k in s.index && k != key ensures s.index[k] != s.index[key] {
        var i :| 0 <= i < |s.order| && s.order[i] == Node(s.index[k], k);
        var j :| 0 <= j < |s.order| && s.order[j] == Node(s.index[key], key);
        assert i != j;
      }
    }
  }

  lemma InsertEvicting(s: State, key: string, value: string, ttl: int, now: int)
    requires Inv(s) && now + ttl < TIME_MAX
    ensures Evicting(Insert(s, key, value, ttl, now), key)
  {
    var e := NewEntry(key, value, ttl, now);
    TotalSizeUpdate(s.entries, key, e);
    TotalSizeNonNegative(s.entries);
    var t := Insert(s, key, value, ttl, now);
    if s.strategy.Listed() {
      assert t.order[0] in t.order && t.order[0].key == key;
    }
  }

  lemma PopBackLinked(s: State)
    requires Linked(s) && s.strategy.Listed() && s.order != []
    ensures var k := s.order[|s.order| - 1].key;
      Linked(PopBack(s, k)) && |PopBack(s, k).order| == |s.order| - 1
      && forall n :: n in s.order && n.key != k ==> n in PopBack(s, k).order
  {
    var last := s.order[|s.order| - 1];
    var t := PopBack(s, last.key);
    forall n | n in s.order && n != last ensures n in t.order {
      var i :| 0 <= i < |s.order| && s.order[i] == n;
      assert t.order[i] == n;
    }
    forall j | j in t.index ensures Node(t.index[j], j) in t.order {
      assert Node(s.index[j], j) in s.order;
    }
  }
}
