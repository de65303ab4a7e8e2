/** What the memory cache must answer, read from the calls alone: the value of the last set, up to its expiry. */
module MemoryCacheHistory {
  import opened Results
  import opened CacheEntries
  import opened MemoryCacheModel
  import opened MemoryCacheEviction
  import opened MemoryCacheRuns

  /** What the last set of a key said, and how often the key was read in time since then. */
  datatype Said = Said(value: string, until: int, hits: nat)

  /** The calls as a client sees them; which entries were evicted is not known here. */
  function Tell(m: map<string, Said>, op: Op): map<string, Said> {
    match op
    case OpSet(k, value, ttl, now, _) => m[k := Said(value, now + ttl, 0)]
    case OpGet(k, now) =>
      if k !in m then m
      else if now <= m[k].until then m[k := m[k].(hits := m[k].hits + 1)]
      else m - {k}
    case OpCleanup(now) => map k | k in m && now <= m[k].until :: m[k]
    case OpDel(k) => m - {k}
    case OpClear => map[]
    case OpStrategy(_) => m
  }

  function TellAll(m: map<string, Said>, ops: seq<Op>): map<string, Said>
    decreases |ops|
  {
    if ops == [] then m else TellAll(Tell(m, ops[0]), ops[1..])
  }

  /** Every entry is what its last set said. */
  predicate AsSaid(entries: map<string, Entry>, m: map<string, Said>) {
    forall k :: k in entries ==>
      k in m && entries[k].value == m[k].value && entries[k].expiresAt == m[k].until
      && entries[k].accessCount == m[k].hits
  }

  lemma StepAsSaid(s: State, op: Op, m: map<string, Said>)
    requires AsSaid(s.entries, m)
    ensures AsSaid(Apply(s, op).entries, Tell(m, op))
  {
    match op
    case OpSet(key, value, ttl, now, victims) => EvictAllFixed(Insert(s, key, value, ttl, now), victims);
    case OpGet(_, _) =>
    case OpDel(_) =>
    case OpCleanup(_) =>
    case OpClear =>
    case OpStrategy(_) =>
  }

  lemma {:induction false} RunAsSaid(s: State, ops: seq<Op>, m: map<string, Said>)
    requires AsSaid(s.entries, m)
    ensures AsSaid(Run(s, ops).entries, TellAll(m, ops))
    decreases |ops|
  {
    if ops != [] {
      StepAsSaid(s, ops[0], m);
      RunAsSaid(Apply(s, ops[0]), ops[1..], Tell(m, ops[0]));
    }
  }

  /**
   After every run from an empty cache: a key that is still there is answered with the value of its
   last set up to and including its expiry and with nothing later; a key that is not there is
   answered with nothing. Every entry was set, was not deleted or cleared since, and has counted the
   reads since then.
   */
  lemma GetAnswersExactly(limit: nat, strategy: Strategy, ops: seq<Op>, key: string, now: int)
    ensures var t := Run(Empty(limit, strategy), ops); var m := TellAll(map[], ops);
      && (key in t.entries ==>
            key in m && t.entries[key].accessCount == m[key].hits
            && GetValue(t, key, now) == if now <= m[key].until then Some(m[key].value) else None)
      && (key !in t.entries ==> GetValue(t, key, now) == None)
  {
    RunAsSaid(Empty(limit, strategy), ops, map[]);
  }

  /** A key that survives its own set is answered with what was stored, exactly until the time to live has passed. */
  lemma SetThenGet(s: State, key: string, value: string, ttl: int, now: int, victims: seq<string>, later: int)
    requires Legal(s, OpSet(key, value, ttl, now, victims))
    requires key in Apply(s, OpSet(key, value, ttl, now, victims)).entries
    ensures GetValue(Apply(s, OpSet(key, value, ttl, now, victims)), key, later)
         == if later <= now + ttl then Some(value) else None
  {
    EvictAllFixed(Insert(s, key, value, ttl, now), victims);
  }

  // ---------------------------------------------------------------- what makes an entry go

  /** The loop removes the keys it chooses, except the empty one. */
  lemma {:induction false} EvictedIff(s: State, victims: seq<string>, k: string)
    requires k in s.entries
    ensures k in EvictAll(s, victims).entries <==> k !in victims || k == ""
    decreases |victims|
  {
    if victims != [] {
      if k in EvictOne(s, victims[0]).entries {
        EvictedIff(EvictOne(s, victims[0]), victims[1..], k);
      } else {
        EvictAllFixed(EvictOne(s, victims[0]), victims[1..]);
      }
    }
  }

  /**
   An entry goes exactly by a deletion or clear, by a read or cleanup after its expiry, or as a
   victim of a set; in particular cleanup keeps every entry that is not expired.
   */
  lemma GoneIff(s: State, op: Op, m: map<string, Said>, k: string)
    requires AsSaid(s.entries, m) && k in s.entries
    ensures k !in Apply(s, op).entries <==>
      match op
      case OpDel(j) => j == k
      case OpClear => true
      case OpGet(j, now) => j == k && now > m[k].until
      case OpCleanup(now) => now > m[k].until
      case OpSet(_, _, _, _, victims) => k in victims && k != ""
      case OpStrategy(_) => false
  {
    if op.OpSet? {
      EvictedIff(Insert(s, op.key, op.value, op.ttl, op.now), op.victims, k);
    }
  }

  // ---------------------------------------------------------------- the victims of LFU and TTL_ONLY

  /** What the two strategies go by. */
  function Rank(strategy: Strategy, said: Said): int {
    if strategy.LFU? then said.hits else said.until
  }

  predicate Ranked(s: State) { s.strategy.LFU? || s.strategy.TTL_ONLY? }

  predicate NotAbove(strategy: Strategy, m: map<string, Said>, a: string, b: string) {
    a in m && b in m && Rank(strategy, m[a]) <= Rank(strategy, m[b])
  }

  /** The victims come lowest first, and none of them is above an entry that stays. */
  predicate LowestFirst(strategy: Strategy, m: map<string, Said>, victims: seq<string>, left: map<string, Entry>) {
    && (forall i, j :: 0 <= i < j < |victims| ==> NotAbove(strategy, m, victims[i], victims[j]))
    && (forall i, j :: 0 <= i < |victims| && j in left ==> NotAbove(strategy, m, victims[i], j))
  }

  lemma PickIsLowest(s: State, m: map<string, Said>, k: string)
    requires Ranked(s) && AsSaid(s.entries, m) && Tame(s.entries) && s.entries != map[] && MayPick(s, k)
    ensures k in s.entries && forall j :: j in s.entries ==> NotAbove(s.strategy, m, k, j)
  {
    var any := AnyKey(s.entries);
  }

  lemma {:induction false} LoopTakesLowest(s: State, m: map<string, Said>, victims: seq<string>)
    requires Ranked(s) && AsSaid(s.entries, m) && Tame(s.entries) && Evictable(s, victims)
    ensures forall i :: 0 <= i < |victims| ==> victims[i] in s.entries
    ensures LowestFirst(s.strategy, m, victims, EvictAll(s, victims).entries)
    decreases |victims|
  {
    if victims != [] {
      var t, rest := EvictOne(s, victims[0]), victims[1..];
      PickIsLowest(s, m, victims[0]);
      LoopTakesLowest(t, m, rest);
      EvictAllFixed(t, rest);
      forall i | 0 <= i < |victims| ensures victims[i] in s.entries { if i > 0 { assert victims[i] == rest[i - 1]; } }
      forall i, j | 0 <= i < j < |victims| ensures NotAbove(s.strategy, m, victims[i], victims[j]) {
        assert victims[j] == rest[j - 1];
        if i > 0 { assert victims[i] == rest[i - 1]; }
      }
      forall i, j | 0 <= i < |victims| && j in EvictAll(s, victims).entries
        ensures NotAbove(s.strategy, m, victims[i], j)
      {
        if i > 0 { assert victims[i] == rest[i - 1]; }
      }
    }
  }

  /**
   After every run, a set under LFU evicts the keys with the fewest reads since they were stored, a
   set under TTL_ONLY those that expire soonest: lowest first, and no survivor ranks below a victim.
   */
  lemma LowestEvicted(limit: nat, strategy: Strategy, ops: seq<Op>, op: Op)
    requires LegalRun(Empty(limit, strategy), ops) && op.OpSet? && Legal(Run(Empty(limit, strategy), ops), op)
    requires Ranked(Run(Empty(limit, strategy), ops))
    ensures var s := Run(Empty(limit, strategy), ops);
      LowestFirst(s.strategy, Tell(TellAll(map[], ops), op), op.victims, Apply(s, op).entries)
  {
    var s := Run(Empty(limit, strategy), ops);
    RunAsSaid(Empty(limit, strategy), ops, map[]);
    assert Sizes(map[]) == map[];
    RunKeepsInv(Empty(limit, strategy), ops);
    InsertTakesLowest(s, TellAll(map[], ops), op);
  }

  lemma InsertTakesLowest(s: State, m: map<string, Said>, op: Op)
    requires Inv(s) && Ranked(s) && AsSaid(s.entries, m) && op.OpSet? && Legal(s, op)
    ensures LowestFirst(s.strategy, Tell(m, op), op.victims, Apply(s, op).entries)
  {
    var t := Insert(s, op.key, op.value, op.ttl, op.now);
    InsertEvicting(s, op.key, op.value, op.ttl, op.now);
    assert AsSaid(t.entries, Tell(m, op));
    LoopTakesLowest(t, Tell(m, op), op.victims);
  }
}
