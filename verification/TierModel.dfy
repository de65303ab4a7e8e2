/** Tiers of either kind, stacked: reads go down until a hit and are copied back up, writes go to all. */
module TierModel {
  import opened Results
  import opened CacheEntries
  import M = MemoryCacheModel
  import ME = MemoryCacheEviction
  import MR = MemoryCacheRuns
  import R = RedisModel

  const BACKFILL_TTL: int := 3600

  datatype Tier = Memory(m: M.State) | Redis(r: R.State)

  datatype State = State(tiers: seq<Tier>, writeThrough: bool, readThrough: bool)

  // ---------------------------------------------------------------- one tier

  predicate Available(t: Tier) { t.Memory? || t.r.connected }

  /** What a tier answers to get; an error of a disconnected tier counts as no answer. */
  function Answer(t: Tier, key: string, now: int): Option<string> {
    match t
    case Memory(m) => M.GetValue(m, key, now)
    case Redis(r) => if R.GetResult(r, key, now).Ok? then R.GetResult(r, key, now).value else None
  }

  function TierGet(t: Tier, key: string, now: int): Tier {
    match t
    case Memory(m) => Memory(M.Get(m, key, now))
    case Redis(r) => Redis(R.Get(r, key, now))
  }

  function TierSet(t: Tier, key: string, value: string, ttl: int, now: int, victims: seq<string>): Tier {
    match t
    case Memory(m) => Memory(M.EvictAll(M.Insert(m, key, value, ttl, now), victims))
    case Redis(r) => Redis(R.Set(r, key, value, ttl, now))
  }

  function TierDel(t: Tier, key: string): Tier {
    match t
    case Memory(m) => Memory(M.Del(m, key))
    case Redis(r) => Redis(R.Del(r, key))
  }

  function TierClear(t: Tier): Tier {
    match t
    case Memory(m) => Memory(M.Clear(m))
    case Redis(r) => Redis(R.Clear(r))
  }

  predicate GetLegal(t: Tier, key: string, now: int) {
    t.Memory? ==> M.Legal(t.m, M.OpGet(key, now))
  }

  predicate SetLegal(t: Tier, key: string, value: string, ttl: int, now: int, victims: seq<string>) {
    t.Memory? ==> M.Legal(t.m, M.OpSet(key, value, ttl, now, victims))
  }

  /** The eviction loop of such a write must end; a Redis tier has none. */
  ghost predicate SetEnds(t: Tier, key: string, value: string, ttl: int, now: int) {
    t.Memory? ==> now + ttl < TIME_MAX && ME.MustEnd(M.Insert(t.m, key, value, ttl, now))
  }

  /** As long as the empty key is not used, every loop ends. */
  lemma NonEmptyKeyEnds(t: Tier, key: string, value: string, ttl: int, now: int)
    requires key != "" && Holds(t, "").None? && now + ttl < TIME_MAX
    ensures SetEnds(t, key, value, ttl, now)
  {
  }

  // ---------------------------------------------------------------- the stack

  /** The first tier that answers, or the number of tiers. */
  function FirstHit(tiers: seq<Tier>, key: string, now: int): (n: nat)
    ensures n <= |tiers|
    ensures forall i :: 0 <= i < n ==> Answer(tiers[i], key, now).None?
    ensures n < |tiers| ==> Answer(tiers[n], key, now).Some?
  {
    if tiers == [] || Answer(tiers[0], key, now).Some? then 0
    else 1 + FirstHit(tiers[1..], key, now)
  }

  function GetAnswer(s: State, key: string, now: int): Option<string> {
    var n := FirstHit(s.tiers, key, now);
    if n < |s.tiers| then Answer(s.tiers[n], key, now) else None
  }

  /** The loops of the backfill must end. */
  ghost predicate GetEnds(s: State, key: string, now: int) {
    var n := FirstHit(s.tiers, key, now);
    n < |s.tiers| && s.readThrough ==> forall i :: 0 <= i < n ==>
      SetEnds(TierGet(s.tiers[i], key, now), key, Answer(s.tiers[n], key, now).value, BACKFILL_TTL, now)
  }

  /** One tier after a get whose first hit is tier n. */
  function AfterGet(s: State, n: nat, i: nat, key: string, now: int, victims: seq<string>): Tier
    requires i < |s.tiers| && n <= |s.tiers|
  {
    var t := s.tiers[i];
    if i > n then t
    else if i < n < |s.tiers| && s.readThrough && Answer(s.tiers[n], key, now).Some? then
      TierSet(TierGet(t, key, now), key, Answer(s.tiers[n], key, now).value, BACKFILL_TTL, now, victims)
    else TierGet(t, key, now)
  }

  function Get(s: State, key: string, now: int, victims: seq<seq<string>>): State
    requires |victims| == |s.tiers|
  {
    var n := FirstHit(s.tiers, key, now);
    s.(tiers := seq(|s.tiers|, i requires 0 <= i < |s.tiers| => AfterGet(s, n, i, key, now, victims[i])))
  }

  /** Without write-through a failing tier ends the write. */
  function LastWritten(tiers: seq<Tier>, writeThrough: bool): (n: nat)
    ensures n <= |tiers|
    ensures writeThrough ==> n == |tiers|
  {
    if tiers == [] then 0
    else if !writeThrough && !Available(tiers[0]) then 0
    else 1 + LastWritten(tiers[1..], writeThrough)
  }

  /** The tier at which a broken write stops is disconnected, so that setting it changes nothing. */
  function Set(s: State, key: string, value: string, ttl: int, now: int, victims: seq<seq<string>>): State
    requires |victims| == |s.tiers|
  {
    var n := LastWritten(s.tiers, s.writeThrough);
    s.(tiers := seq(|s.tiers|, i requires 0 <= i < |s.tiers| =>
      if i < n then TierSet(s.tiers[i], key, value, ttl, now, victims[i]) else s.tiers[i]))
  }

  function Del(s: State, key: string): State {
    s.(tiers := seq(|s.tiers|, i requires 0 <= i < |s.tiers| => TierDel(s.tiers[i], key)))
  }

  function Clear(s: State): State {
    s.(tiers := seq(|s.tiers|, i requires 0 <= i < |s.tiers| => TierClear(s.tiers[i])))
  }

  // ---------------------------------------------------------------- what a tier holds

  function Holds(t: Tier, key: string): Option<string> {
    match t
    case Memory(m) => if key in m.entries then Some(m.entries[key].value) else None
    case Redis(r) => R.Holds(r, key)
  }

  /** A tier lost key or kept it as it was. */
  predicate SameOrNone(after: Option<string>, before: Option<string>) {
    after.None? || after == before
  }

  lemma GetHolds(t: Tier, key: string, now: int, j: string)
    ensures SameOrNone(Holds(TierGet(t, key, now), j), Holds(t, j))
    ensures Answer(t, key, now).Some? ==> Holds(t, key) == Answer(t, key, now)
  {
    if t.Redis? {
      R.FullKeyInjective(t.r, key, j);
    }
  }

  lemma SetHolds(t: Tier, key: string, value: string, ttl: int, now: int, victims: seq<string>, j: string)
    ensures SameOrNone(Holds(TierSet(t, key, value, ttl, now, victims), j),
      if j == key && Available(t) then Some(value) else Holds(t, j))
  {
    match t
    case Memory(m) => MR.EvictAllFixed(M.Insert(m, key, value, ttl, now), victims);
    case Redis(r) => R.FullKeyInjective(r, key, j);
  }

  lemma DelHolds(t: Tier, key: string, j: string)
    ensures Available(t) ==> Holds(TierDel(t, key), j) == if j == key then None else Holds(t, j)
    ensures !Available(t) ==> TierDel(t, key) == t
  {
    if t.Redis? {
      R.FullKeyInjective(t.r, key, j);
    }
  }
}
