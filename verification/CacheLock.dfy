/** Locks built on set-if-absent: any number of lock objects over one Redis cache. */
module LockModel {
  import opened Results
  import opened CacheEntries
  import R = RedisModel

  const LOCK_TTL: int := 10

  datatype Lock = Lock(key: string, acquired: bool)

  datatype State = State(redis: R.State, locks: map<nat, Lock>)

  function LockKey(key: string): string { "lock:" + key }

  predicate IsLockKey(key: string) { |key| >= 5 && key[..5] == "lock:" }

  function TryAcquire(s: State, id: nat, now: int): State
    requires id in s.locks
  {
    var l := s.locks[id];
    State(R.SetNx(s.redis, l.key, "1", LOCK_TTL, now),
          s.locks[id := l.(acquired := R.SetNxResult(s.redis, l.key) == Ok(true))])
  }

  /** release deletes the key whoever calls it. */
  function Release(s: State, id: nat): State
    requires id in s.locks
  {
    var l := s.locks[id];
    State(R.Del(s.redis, l.key), s.locks[id := l.(acquired := false)])
  }

  datatype Op =
    | OpNew(id: nat, name: string, now: int)
    | OpTry(id: nat, now: int)
    | OpRelease(id: nat)
    | OpDestroy(id: nat)
    | OpRedis(f: R.Op)

  /** What any caller can do; OpRedis is what else happens to the cache, by any client. */
  predicate Allowed(s: State, op: Op) {
    match op
    case OpNew(id, _, _) => id !in s.locks
    case OpTry(id, _) => id in s.locks
    case OpRelease(id) => id in s.locks
    case OpDestroy(id) => id in s.locks
    case OpRedis(_) => true
  }

  /** An operation on an object that does not exist does nothing. */
  function Apply(s: State, op: Op): State {
    if !Allowed(s, op) then s
    else
      match op
      case OpNew(id, name, now) => TryAcquire(s.(locks := s.locks[id := Lock(LockKey(name), false)]), id, now)
      case OpTry(id, now) => TryAcquire(s, id, now)
      case OpRelease(id) => Release(s, id)
      case OpDestroy(id) =>
        var t := if s.locks[id].acquired then Release(s, id) else s;
        t.(locks := t.locks - {id})
      case OpRedis(f) => s.(redis := R.Apply(s.redis, f))
  }

  function Run(s: State, ops: seq<Op>): State
    decreases |ops|
  {
    if ops == [] then s else Run(Apply(s, ops[0]), ops[1..])
  }

  /**
   The discipline: lock objects are released by their holders only, and other clients leave lock
   keys alone.
   */
  predicate Legal(s: State, op: Op) {
    && Allowed(s, op)
    && (op.OpRelease? ==> s.locks[op.id].acquired)
    && (op.OpRedis? ==> op.f.OpLink? || (!op.f.OpClear? && !IsLockKey(op.f.key)))
  }

  predicate LegalRun(s: State, ops: seq<Op>)
    decreases |ops|
  {
    ops == [] || (Legal(s, ops[0]) && LegalRun(Apply(s, ops[0]), ops[1..]))
  }

  /** At most one holder per key. */
  predicate Exclusive(s: State) {
    forall a, b :: a in s.locks && b in s.locks && a != b && s.locks[a].acquired && s.locks[b].acquired ==>
      s.locks[a].key != s.locks[b].key
  }

  /** A held key is present in the cache, expired or not. */
  predicate Backed(s: State) {
    forall a :: a in s.locks && s.locks[a].acquired ==> R.Holds(s.redis, s.locks[a].key).Some?
  }

  predicate Named(s: State) {
    forall a :: a in s.locks ==> IsLockKey(s.locks[a].key)
  }

  predicate Inv(s: State) { Exclusive(s) && Backed(s) && Named(s) }

  lemma TryKeepsInv(s: State, id: nat, now: int)
    requires Inv(s) && id in s.locks
    ensures Inv(TryAcquire(s, id, now))
    ensures TryAcquire(s, id, now).locks[id].acquired <==> s.redis.connected && R.Holds(s.redis, s.locks[id].key).None?
  {
    var t := TryAcquire(s, id, now);
    forall a | a in t.locks && t.locks[a].acquired ensures R.Holds(t.redis, t.locks[a].key).Some? {
      if s.locks[a].key != s.locks[id].key {
        R.OtherKeysUntouched(s.redis, R.OpSetNx(s.locks[id].key, "1", LOCK_TTL, now), s.locks[a].key);
      }
    }
  }

  /** Releasing a lock object is safe exactly when the cache is unreachable or no other object holds its key. */
  lemma ReleaseSafeIff(s: State, id: nat)
    requires Inv(s) && id in s.locks
    ensures Inv(Release(s, id)) <==>
      !s.redis.connected || forall a :: a in s.locks && a != id && s.locks[a].acquired ==>
        s.locks[a].key != s.locks[id].key
  {
    var t := Release(s, id);
    forall a | a in s.locks && s.locks[a].key != s.locks[id].key
      ensures R.Holds(t.redis, s.locks[a].key) == R.Holds(s.redis, s.locks[a].key)
    {
      R.OtherKeysUntouched(s.redis, R.OpDel(s.locks[id].key), s.locks[a].key);
    }
    if s.redis.connected && Backed(t) {
      forall a | a in s.locks && a != id && s.locks[a].acquired ensures s.locks[a].key != s.locks[id].key {
        assert t.locks[a] == s.locks[a];
      }
    }
  }

  lemma TrafficSafeIff(s: State, f: R.Op)
    requires Inv(s)
    ensures Inv(s.(redis := R.Apply(s.redis, f))) <==>
      forall a :: a in s.locks && s.locks[a].acquired ==> !R.Frees(s.redis, f, s.locks[a].key)
  {
    var t := s.(redis := R.Apply(s.redis, f));
    forall a | a in s.locks && s.locks[a].acquired
      ensures R.Holds(t.redis, s.locks[a].key).None? <==> R.Frees(s.redis, f, s.locks[a].key)
    {
      R.FreesIff(s.redis, f, s.locks[a].key);
    }
    if Inv(t) {
      forall a | a in s.locks && s.locks[a].acquired ensures !R.Frees(s.redis, f, s.locks[a].key) {
        assert t.locks[a] == s.locks[a];
      }
    }
  }

  /** The steps that take no held key away from its holder. */
  predicate Safe(s: State, op: Op) {
    match op
    case OpRelease(id) =>
      id in s.locks && s.redis.connected ==>
        forall a :: a in s.locks && a != id && s.locks[a].acquired ==> s.locks[a].key != s.locks[id].key
    case OpRedis(f) => forall a :: a in s.locks && s.locks[a].acquired ==> !R.Frees(s.redis, f, s.locks[a].key)
    case OpNew(_, _, _) => true
    case OpTry(_, _) => true
    case OpDestroy(_) => true
  }

  /** A step keeps the invariant exactly when it is safe. */
  lemma StepSafeIff(s: State, op: Op)
    requires Inv(s)
    ensures Inv(Apply(s, op)) <==> Safe(s, op)
  {
    if Allowed(s, op) {
      match op
      case OpNew(id, name, now) => TryKeepsInv(s.(locks := s.locks[id := Lock(LockKey(name), false)]), id, now);
      case OpTry(id, now) => TryKeepsInv(s, id, now);
      case OpRelease(id) => ReleaseSafeIff(s, id);
      case OpDestroy(id) => DestroyKeepsInv(s, id);
      case OpRedis(f) => TrafficSafeIff(s, f);
    }
  }

  lemma DestroyKeepsInv(s: State, id: nat)
    requires Inv(s) && id in s.locks
    ensures Inv(Apply(s, OpDestroy(id)))
  {
    if s.locks[id].acquired { ReleaseSafeIff(s, id); }
  }

  lemma LegalIsSafe(s: State, op: Op)
    requires Inv(s) && Legal(s, op)
    ensures Safe(s, op)
  {
    if op.OpRedis? {
      forall a | a in s.locks && s.locks[a].acquired ensures !R.Frees(s.redis, op.f, s.locks[a].key) {
        assert IsLockKey(s.locks[a].key);
      }
    }
  }

  predicate SafeRun(s: State, ops: seq<Op>)
    decreases |ops|
  {
    ops == [] || (Safe(s, ops[0]) && SafeRun(Apply(s, ops[0]), ops[1..]))
  }

  lemma {:induction false} RunKeepsInv(s: State, ops: seq<Op>)
    requires Inv(s) && SafeRun(s, ops)
    ensures Inv(Run(s, ops))
    decreases |ops|
  {
    if ops != [] {
      StepSafeIff(s, ops[0]);
      RunKeepsInv(Apply(s, ops[0]), ops[1..]);
    }
  }

  lemma {:induction false} LegalRunIsSafe(s: State, ops: seq<Op>)
    requires Inv(s) && LegalRun(s, ops)
    ensures SafeRun(s, ops)
    decreases |ops|
  {
    if ops != [] {
      LegalIsSafe(s, ops[0]);
      StepSafeIff(s, ops[0]);
      LegalRunIsSafe(Apply(s, ops[0]), ops[1..]);
    }
  }

  /**
   Mutual exclusion: from a cache without lock objects, after any interleaving of constructions,
   attempts, releases, destructions, connects, disconnects and traffic of other clients, at any
   times, of which no step takes a held key away, two lock objects that both count as acquired guard
   different keys, and an attempt on a held key fails. Disciplined runs are of this kind.
   */
  lemma MutualExclusion(redis: R.State, ops: seq<Op>, a: nat, b: nat, now: int)
    requires SafeRun(State(redis, map[]), ops) || LegalRun(State(redis, map[]), ops)
    requires var t := Run(State(redis, map[]), ops); a in t.locks && b in t.locks && a != b
    ensures var t := Run(State(redis, map[]), ops);
      t.locks[a].acquired && t.locks[a].key == t.locks[b].key ==>
        !t.locks[b].acquired && !TryAcquire(t, b, now).locks[b].acquired
  {
    var t := Run(State(redis, map[]), ops);
    if LegalRun(State(redis, map[]), ops) { LegalRunIsSafe(State(redis, map[]), ops); }
    RunKeepsInv(State(redis, map[]), ops);
    TryKeepsInv(t, b, now);
  }

  // ---------------------------------------------------------------- a release that breaks mutual exclusion

  ghost predicate TwoHolders(s: State, ops: seq<Op>) {
    LegalRun(s, ops) && !Exclusive(Run(s, ops))
  }

  /**
   After a release a disciplined run can lead to two holders of one key exactly when it reached the cache and
   another object held the key.
   */
  lemma ReleaseBreaksIff(s: State, id: nat)
    requires Inv(s) && id in s.locks
    ensures (exists ops :: TwoHolders(Release(s, id), ops)) <==>
      s.redis.connected && exists a ::
        a in s.locks && a != id && s.locks[a].acquired && s.locks[a].key == s.locks[id].key
  {
    var t := Release(s, id);
    ReleaseSafeIff(s, id);
    if a :| s.redis.connected && a in s.locks && a != id && s.locks[a].acquired && s.locks[a].key == s.locks[id].key {
      var b := FreshId(t.locks.Keys);
      Acquire(t, b, s.locks[id].key);
      var create := OpNew(b, s.locks[id].key[5..], 0);
      OneStep(t, create, []);
      var u := Apply(t, create);
      assert a in u.locks && u.locks[a].acquired && u.locks[a].key == u.locks[b].key && a != b;
      assert !Exclusive(u);
      assert TwoHolders(t, [create] + []);
    } else {
      forall ops ensures !TwoHolders(t, ops) {
        if LegalRun(t, ops) {
          LegalRunIsSafe(t, ops);
          RunKeepsInv(t, ops);
        }
      }
    }
  }

  /** A new lock object gets a free key of a connected cache. */
  lemma Acquire(s: State, id: nat, key: string)
    requires id !in s.locks && IsLockKey(key) && s.redis.connected && R.Holds(s.redis, key).None?
    ensures Legal(s, OpNew(id, key[5..], 0))
    ensures HoldsLock(Apply(s, OpNew(id, key[5..], 0)), id, key)
  {
    assert LockKey(key[5..]) == key;
  }

  predicate HoldsLock(s: State, id: nat, key: string) {
    id in s.locks && s.locks[id].acquired && s.locks[id].key == key
  }

  lemma OneStep(s: State, op: Op, more: seq<Op>)
    ensures Run(s, [op] + more) == Run(Apply(s, op), more)
    ensures LegalRun(s, [op] + more) <==> Legal(s, op) && LegalRun(Apply(s, op), more)
  {
    assert ([op] + more)[1..] == more;
  }

  lemma {:induction false} FreshId(used: set<nat>) returns (id: nat)
    ensures id !in used && forall x :: x in used ==> x < id
  {
    if used == {} {
      id := 0;
    } else {
      var x :| x in used;
      assert forall y :: y in used ==> y == x || y in used - {x};
      var rest := FreshId(used - {x});
      id := if x < rest then rest else x + 1;
    }
  }

  /** A lock is granted, a second one refused and released all the same: now a third one is granted beside the first. */
  lemma RefusedReleaseGivesTwoHolders()
    ensures var start := State(R.State(true, "oms:", map[]), map[]);
      var ops := [OpNew(0, "k", 0)] + ([OpNew(1, "k", 0)] + ([OpRelease(1)] + ([OpNew(2, "k", 0)] + [])));
      HoldsLock(Run(start, ops), 0, LockKey("k")) && HoldsLock(Run(start, ops), 2, LockKey("k"))
  {
    var start := State(R.State(true, "oms:", map[]), map[]);
    var key := LockKey("k");
    assert IsLockKey(key) && key[5..] == "k";
    Acquire(start, 0, key);
    var s1 := Apply(start, OpNew(0, "k", 0));
    var s2 := Apply(s1, OpNew(1, "k", 0));
    assert s2.redis == s1.redis && s2.locks == s1.locks[1 := Lock(key, false)];
    var s3 := Apply(s2, OpRelease(1));
    Acquire(s3, 2, key);
    OneStep(s3, OpNew(2, "k", 0), []);
    OneStep(s2, OpRelease(1), [OpNew(2, "k", 0)] + []);
    OneStep(s1, OpNew(1, "k", 0), [OpRelease(1)] + ([OpNew(2, "k", 0)] + []));
    OneStep(start, OpNew(0, "k", 0), [OpNew(1, "k", 0)] + ([OpRelease(1)] + ([OpNew(2, "k", 0)] + [])));
  }

  // ---------------------------------------------------------------- keys without a holder

  /** The key is in the cache although no lock object holds it. */
  predicate Blocked(s: State, key: string) {
    && R.Holds(s.redis, key).Some?
    && forall a :: a in s.locks && s.locks[a].key == key ==> !s.locks[a].acquired
  }

  /**
   The steps that free a blocked key: a release that reaches the cache, by any object of the key, or another
   client's.
   */
  predicate Unblocks(s: State, op: Op, key: string) {
    match op
    case OpRelease(id) => id in s.locks && s.locks[id].key == key && s.redis.connected
    case OpRedis(f) => R.Frees(s.redis, f, key)
    case OpNew(_, _, _) => false
    case OpTry(_, _) => false
    case OpDestroy(_) => false
  }

  lemma StepBlockedIff(s: State, op: Op, key: string)
    requires Blocked(s, key)
    ensures Blocked(Apply(s, op), key) <==> !Unblocks(s, op, key)
  {
    if Allowed(s, op) {
      match op
      case OpNew(id, name, now) => R.FreesIff(s.redis, R.OpSetNx(LockKey(name), "1", LOCK_TTL, now), key);
      case OpTry(id, now) => R.FreesIff(s.redis, R.OpSetNx(s.locks[id].key, "1", LOCK_TTL, now), key);
      case OpRelease(id) => R.FreesIff(s.redis, R.OpDel(s.locks[id].key), key);
      case OpDestroy(id) => R.FreesIff(s.redis, R.OpDel(s.locks[id].key), key);
      case OpRedis(f) => R.FreesIff(s.redis, f, key);
    }
  }

  predicate NeverUnblocked(s: State, ops: seq<Op>, key: string)
    decreases |ops|
  {
    ops == [] || (!Unblocks(s, ops[0], key) && NeverUnblocked(Apply(s, ops[0]), ops[1..], key))
  }

  /** A blocked key stays blocked as long as no step frees it: expiry does not help, and every attempt is refused. */
  lemma {:induction false} BlockedUntilFreed(s: State, ops: seq<Op>, key: string)
    requires Blocked(s, key) && NeverUnblocked(s, ops, key)
    ensures Blocked(Run(s, ops), key)
    decreases |ops|
  {
    if ops != [] {
      StepBlockedIff(s, ops[0], key);
      BlockedUntilFreed(Apply(s, ops[0]), ops[1..], key);
    }
  }

  ghost predicate Obtains(s: State, key: string, ops: seq<Op>) {
    exists a :: HoldsLock(Run(s, ops), a, key)
  }

  /** Without a step that frees it, some run gives the key to some object exactly when it is not blocked. */
  lemma ObtainableIff(s: State, key: string)
    requires Inv(s) && IsLockKey(key)
    ensures (exists ops :: NeverUnblocked(s, ops, key) && Obtains(s, key, ops)) <==> !Blocked(s, key)
  {
    if Blocked(s, key) {
      forall ops ensures !(NeverUnblocked(s, ops, key) && Obtains(s, key, ops)) {
        if NeverUnblocked(s, ops, key) { BlockedUntilFreed(s, ops, key); }
      }
    } else if a :| HoldsLock(s, a, key) {
      assert HoldsLock(Run(s, []), a, key);
      assert NeverUnblocked(s, [], key) && Obtains(s, key, []);
    } else {
      var id := FreshId(s.locks.Keys);
      var link, create := OpRedis(R.OpLink(true)), OpNew(id, key[5..], 0);
      var up := Apply(s, link);
      forall a | a in s.locks && s.locks[a].key == key ensures !s.locks[a].acquired { assert !HoldsLock(s, a, key); }
      assert R.Holds(up.redis, key) == R.Holds(s.redis, key);
      Acquire(up, id, key);
      OneStep(up, create, []);
      OneStep(s, link, [create] + []);
      var ops := [link] + ([create] + []);
      assert HoldsLock(Run(s, ops), id, key);
      assert ops[1..] == [create] && [create][1..] == [];
      assert NeverUnblocked(up, [create], key);
      assert NeverUnblocked(s, ops, key) && Obtains(s, key, ops);
    }
  }

  /** With it every key can be obtained from every state: a new object is refused, releases, and tries again. */
  lemma ReleaseUnblocks(s: State, key: string)
    requires IsLockKey(key)
    ensures exists ops :: Obtains(s, key, ops)
  {
    var id := FreshId(s.locks.Keys);
    var link, create := OpRedis(R.OpLink(true)), OpNew(id, key[5..], 0);
    assert LockKey(key[5..]) == key;
    var s1 := Apply(s, link);
    var s2 := Apply(s1, create);
    var s3 := Apply(s2, OpRelease(id));
    var s4 := Apply(s3, OpTry(id, 0));
    assert HoldsLock(s4, id, key);
    OneStep(s3, OpTry(id, 0), []);
    OneStep(s2, OpRelease(id), [OpTry(id, 0)] + []);
    OneStep(s1, create, [OpRelease(id)] + ([OpTry(id, 0)] + []));
    OneStep(s, link, [create] + ([OpRelease(id)] + ([OpTry(id, 0)] + [])));
    var ops := [link] + ([create] + ([OpRelease(id)] + ([OpTry(id, 0)] + [])));
    assert HoldsLock(Run(s, ops), id, key);
    assert Obtains(s, key, ops);
  }

  /** A lock that was just granted loses its key to another client's read from the eleventh second on, not before. */
  lemma GrantedForTenSeconds(s: State, id: nat, now: int, later: int)
    requires id in s.locks && HoldsLock(TryAcquire(s, id, now), id, s.locks[id].key)
    ensures R.Frees(TryAcquire(s, id, now).redis, R.OpGet(s.locks[id].key, later), s.locks[id].key) <==>
      later > now + 10
  {
    assert R.SetNxResult(s.redis, s.locks[id].key) == Ok(true);
  }

  /** After the holder's release the key is free, unless the release did not reach the cache: then it is blocked. */
  lemma ReleaseBlocksIff(s: State, id: nat)
    requires Inv(s) && id in s.locks && s.locks[id].acquired
    ensures Blocked(Release(s, id), s.locks[id].key) <==> !s.redis.connected
    ensures R.Holds(Release(s, id).redis, s.locks[id].key).None? <==> s.redis.connected
  {
  }

  /**
   Destroying an object frees the key it holds, if that reaches the cache, and leaves the cache alone if it
   holds none.
   */
  lemma DestroyFrees(s: State, id: nat)
    requires Inv(s) && id in s.locks
    ensures var t := Apply(s, OpDestroy(id));
      && id !in t.locks
      && if s.locks[id].acquired then R.Holds(t.redis, s.locks[id].key).None? <==> s.redis.connected
         else t.redis == s.redis
  {
  }

  /** An attempt blocks the key exactly when the object holds the lock already, or it was blocked before. */
  lemma TryBlocksIff(s: State, id: nat, now: int)
    requires Inv(s) && id in s.locks
    ensures Blocked(TryAcquire(s, id, now), s.locks[id].key) <==> s.locks[id].acquired || Blocked(s, s.locks[id].key)
  {
    var key := s.locks[id].key;
    var t := TryAcquire(s, id, now);
    if s.locks[id].acquired {
      assert R.Holds(s.redis, key).Some?;
    } else if h :| h in s.locks && s.locks[h].key == key && s.locks[h].acquired {
      assert h in t.locks && t.locks[h].key == key && t.locks[h].acquired;
    } else if R.Holds(s.redis, key).None? && s.redis.connected {
      assert id in t.locks && t.locks[id].key == key && t.locks[id].acquired;
    }
  }

  /**
   A holder that asks again loses its claim but not its key: over every later run, up to a step that
   frees the key, nobody holds the lock. Its own release is such a step if it reaches the cache.
   */
  lemma RetryBlocksEveryone(s: State, a: nat, now: int, ops: seq<Op>)
    requires Inv(s) && a in s.locks && s.locks[a].acquired
    ensures var t := TryAcquire(s, a, now); var key := s.locks[a].key;
      && (NeverUnblocked(t, ops, key) ==> Blocked(Run(t, ops), key))
      && (Unblocks(t, OpRelease(a), key) <==> s.redis.connected)
  {
    TryBlocksIff(s, a, now);
    var t := TryAcquire(s, a, now);
    if NeverUnblocked(t, ops, s.locks[a].key) { BlockedUntilFreed(t, ops, s.locks[a].key); }
  }
}

module CacheLocks {
  import opened Results
  import opened RedisCaches
  import R = RedisModel
  import T = TierModel
  import Model = LockModel
  import opened MultiTierCaches

  /** What a lock can be built on. */
  datatype LockBackend = Single(tier: Backend) | Stack(tiers: MultiTierCache) {
    ghost predicate Valid()
      reads Objects()
    {
      match this
      case Single(b) => b.Valid()
      case Stack(c) => c.Valid()
    }

    /** The objects that an operation on the backend may change. */
    ghost function Objects(): set<object>
      reads if Stack? then {tiers} else {}
    {
      match this
      case Single(b) => {b.Object()}
      case Stack(c) => {c} + c.Objects()
    }

    /** The contents, tier by tier. */
    ghost function Contents(): seq<T.Tier>
      reads Objects()
    {
      match this
      case Single(b) => [b.Tier()]
      case Stack(c) => c.Tiers()
    }
  }

  class CacheLock {
    const backend: LockBackend
    const key: string
    var acquired: bool

    predicate OnRedis() { backend.Single? && backend.tier.RedisBackend? }

    constructor (backend: LockBackend, name: string, now: int)
      requires backend.Valid()
      modifies backend.Objects()
      ensures this.backend == backend && this.key == Model.LockKey(name) && backend.Valid()
      ensures OnRedis() ==>
        acquired == (R.SetNxResult(old(backend.tier.redis.State()), key) == Ok(true))
        && backend.tier.redis.State() == R.SetNx(old(backend.tier.redis.State()), key, "1", Model.LOCK_TTL, now)
      ensures !OnRedis() ==> acquired && backend.Contents() == old(backend.Contents())
    {
      this.backend := backend;
      key := Model.LockKey(name);
      acquired := false;
      new;
      var _ := TryAcquire(now);
    }

    /** Over any backend but a Redis cache the lock is always granted, a stack with a Redis tier included. */
    method TryAcquire(now: int) returns (r: bool)
      requires backend.Valid() && this !in backend.Objects()
      modifies `acquired, backend.Objects()
      ensures r == acquired && backend.Valid() && backend.Objects() == old(backend.Objects())
      ensures OnRedis() ==>
        acquired == (R.SetNxResult(old(backend.tier.redis.State()), key) == Ok(true))
        && backend.tier.redis.State() == R.SetNx(old(backend.tier.redis.State()), key, "1", Model.LOCK_TTL, now)
      ensures !OnRedis() ==> acquired && backend.Contents() == old(backend.Contents())
    {
      if OnRedis() {
        var result := backend.tier.redis.SetNx(key, "1", Model.LOCK_TTL, now);
        acquired := result == Ok(true);
      } else {
        acquired := true;
      }
      return acquired;
    }

    /** Deletes the key from every tier, whoever holds the lock. */
    method Release()
      requires backend.Valid() && this !in backend.Objects()
      modifies `acquired, backend.Objects()
      ensures !acquired && backend.Valid() && |backend.Contents()| == |old(backend.Contents())|
      ensures forall i :: 0 <= i < |backend.Contents()| ==>
        backend.Contents()[i] == T.TierDel(old(backend.Contents())[i], key)
    {
      match backend {
        case Single(b) => b.Del(key);
        case Stack(c) => c.Del(key);
      }
      acquired := false;
    }

    /** The destructor releases a lock that is held, and only that. */
    method Destroy()
      requires backend.Valid() && this !in backend.Objects()
      modifies `acquired, backend.Objects()
      ensures backend.Valid() && |backend.Contents()| == |old(backend.Contents())|
      ensures forall i :: 0 <= i < |backend.Contents()| ==>
        backend.Contents()[i] == if old(acquired) then T.TierDel(old(backend.Contents())[i], key)
          else old(backend.Contents())[i]
    {
      if acquired {
        Release();
      }
    }
  }
}
