/** The (simulated) Redis tier: a prefixed entry map that answers only while connected. */
module RedisModel {
  import opened Results
  import opened CacheEntries

  datatype State = State(connected: bool, prefix: string, entries: map<string, Entry>)

  function FullKey(s: State, key: string): string { s.prefix + key }

  lemma FullKeyInjective(s: State, a: string, b: string)
    ensures FullKey(s, a) == FullKey(s, b) ==> a == b
  {
    assert FullKey(s, a)[|s.prefix|..] == a && FullKey(s, b)[|s.prefix|..] == b;
  }

  predicate Hit(s: State, key: string, now: int) {
    FullKey(s, key) in s.entries && !s.entries[FullKey(s, key)].IsExpired(now)
  }

  function GetResult(s: State, key: string, now: int): Result<Option<string>> {
    if !s.connected then Error(CacheError)
    else if Hit(s, key, now) then Ok(Some(s.entries[FullKey(s, key)].value))
    else Ok(None)
  }

  function Get(s: State, key: string, now: int): State {
    var k := FullKey(s, key);
    if !s.connected || k !in s.entries then s
    else if s.entries[k].IsExpired(now) then s.(entries := s.entries - {k})
    else s.(entries := s.entries[k := s.entries[k].Accessed()])
  }

  function Set(s: State, key: string, value: string, ttl: int, now: int): State {
    if s.connected
    then s.(entries := s.entries[FullKey(s, key) := NewEntry(FullKey(s, key), value, ttl, now)])
    else s
  }

  function Del(s: State, key: string): State {
    if s.connected then s.(entries := s.entries - {FullKey(s, key)}) else s
  }

  function Clear(s: State): State {
    if s.connected then s.(entries := map[]) else s
  }

  function Expire(s: State, key: string, seconds: int, now: int): State {
    var k := FullKey(s, key);
    if s.connected && k in s.entries
    then s.(entries := s.entries[k := s.entries[k].(expiresAt := now + seconds)])
    else s
  }

  /** set_nx looks at presence only: an expired entry still blocks. */
  function SetNxResult(s: State, key: string): Result<bool> {
    if !s.connected then Error(CacheError) else Ok(FullKey(s, key) !in s.entries)
  }

  function SetNx(s: State, key: string, value: string, ttl: int, now: int): State {
    if SetNxResult(s, key) == Ok(true) then Set(s, key, value, ttl, now) else s
  }

  /** The value stored under an unprefixed key, expired or not. */
  function Holds(s: State, key: string): Option<string> {
    if FullKey(s, key) in s.entries then Some(s.entries[FullKey(s, key)].value) else None
  }

  // ---------------------------------------------------------------- runs

  datatype Op =
    | OpGet(key: string, now: int)
    | OpSet(key: string, value: string, ttl: int, now: int)
    | OpSetNx(key: string, value: string, ttl: int, now: int)
    | OpDel(key: string)
    | OpExpire(key: string, seconds: int, now: int)
    | OpClear
    | OpLink(up: bool)

  function Apply(s: State, op: Op): State {
    match op
    case OpGet(key, now) => Get(s, key, now)
    case OpSet(key, value, ttl, now) => Set(s, key, value, ttl, now)
    case OpSetNx(key, value, ttl, now) => SetNx(s, key, value, ttl, now)
    case OpDel(key) => Del(s, key)
    case OpExpire(key, seconds, now) => Expire(s, key, seconds, now)
    case OpClear => Clear(s)
    case OpLink(up) => s.(connected := up)
  }

  function Run(s: State, ops: seq<Op>): State
    decreases |ops|
  {
    if ops == [] then s else Run(Apply(s, ops[0]), ops[1..])
  }

  /** The operations that say nothing about key. */
  predicate Elsewhere(op: Op, key: string) {
    op.OpLink? || (!op.OpClear? && op.key != key)
  }

  /** Operations on one key leave every other key alone, whatever the prefix. */
  lemma OtherKeysUntouched(s: State, op: Op, other: string)
    requires Elsewhere(op, other)
    ensures Holds(Apply(s, op), other) == Holds(s, other)
  {
    if !op.OpLink? { FullKeyInjective(s, op.key, other); }
  }

  /** The operations that remove key: a delete or clear that arrives, and a get that meets it expired. */
  predicate Frees(s: State, op: Op, key: string) {
    && s.connected
    && (op == OpDel(key) || op.OpClear?
        || (op.OpGet? && op.key == key && FullKey(s, key) in s.entries && s.entries[FullKey(s, key)].IsExpired(op.now)))
  }

  lemma FreesIff(s: State, op: Op, key: string)
    requires Holds(s, key).Some?
    ensures Holds(Apply(s, op), key).None? <==> Frees(s, op, key)
  {
    if Elsewhere(op, key) { OtherKeysUntouched(s, op, key); }
  }

  predicate NeverFreed(s: State, ops: seq<Op>, key: string)
    decreases |ops|
  {
    ops == [] || (!Frees(s, ops[0], key) && NeverFreed(Apply(s, ops[0]), ops[1..], key))
  }

  lemma {:induction false} StaysHeld(s: State, ops: seq<Op>, key: string)
    requires Holds(s, key).Some? && NeverFreed(s, ops, key)
    ensures Holds(Run(s, ops), key).Some?
    decreases |ops|
  {
    if ops != [] {
      FreesIff(s, ops[0], key);
      StaysHeld(Apply(s, ops[0]), ops[1..], key);
    }
  }

  /**
   set_nx succeeds once: after a success, and any run of operations none of which removes the key,
   every further attempt is refused, at any time and long after the entry has expired.
   */
  lemma SetNxOnce(s: State, key: string, value: string, ttl: int, now: int, ops: seq<Op>)
    requires SetNxResult(s, key) == Ok(true) && NeverFreed(SetNx(s, key, value, ttl, now), ops, key)
    ensures SetNxResult(Run(SetNx(s, key, value, ttl, now), ops), key) != Ok(true)
  {
    StaysHeld(SetNx(s, key, value, ttl, now), ops, key);
  }
}

module RedisCaches {
  import opened Results
  import opened CacheEntries
  import Model = RedisModel

  class RedisCache {
    var keyPrefix: string
    var connected: bool
    var entries: map<string, Entry>

    function State(): Model.State
      reads this
    {
      Model.State(connected, keyPrefix, entries)
    }

    constructor (prefix: string)
      ensures State() == Model.State(false, prefix, map[])
    {
      keyPrefix, connected, entries := prefix, false, map[];
    }

    method Connect()
      modifies `connected
      ensures State() == old(State()).(connected := true)
    {
      connected := true;
    }

    method Disconnect()
      modifies `connected
      ensures State() == old(State()).(connected := false)
    {
      connected := false;
    }

    method Get(key: string, now: int) returns (r: Result<Option<string>>)
      modifies `entries
      ensures State() == Model.Get(old(State()), key, now)
      ensures r == Model.GetResult(old(State()), key, now)
    {
      if !connected {
        return Error(CacheError);
      }
      var fullKey := keyPrefix + key;
      if fullKey !in entries {
        return Ok(None);
      }
      if entries[fullKey].IsExpired(now) {
        entries := entries - {fullKey};
        return Ok(None);
      }
      entries := entries[fullKey := entries[fullKey].Accessed()];
      return Ok(Some(entries[fullKey].value));
    }

    method Set(key: string, value: string, ttl: int, now: int) returns (r: Outcome)
      modifies `entries
      ensures State() == Model.Set(old(State()), key, value, ttl, now)
      ensures r.Ok? <==> connected
    {
      if !connected {
        return Error(CacheError);
      }
      var fullKey := keyPrefix + key;
      entries := entries[fullKey := NewEntry(fullKey, value, ttl, now)];
      return Ok(());
    }

    method Del(key: string) returns (r: Outcome)
      modifies `entries
      ensures State() == Model.Del(old(State()), key)
      ensures r.Ok? <==> connected
    {
      if !connected {
        return Error(CacheError);
      }
      entries := entries - {keyPrefix + key};
      return Ok(());
    }

    method Clear() returns (r: Outcome)
      modifies `entries
      ensures State() == Model.Clear(old(State()))
      ensures r.Ok? <==> connected
    {
      if !connected {
        return Error(CacheError);
      }
      entries := map[];
      return Ok(());
    }

    method Expire(key: string, seconds: int, now: int) returns (r: Outcome)
      modifies `entries
      ensures State() == Model.Expire(old(State()), key, seconds, now)
      ensures r.Ok? <==> connected
    {
      if !connected {
        return Error(CacheError);
      }
      var fullKey := keyPrefix + key;
      if fullKey in entries {
        entries := entries[fullKey := entries[fullKey].(expiresAt := now + seconds)];
      }
      return Ok(());
    }

    method SetNx(key: string, value: string, ttl: int, now: int) returns (r: Result<bool>)
      modifies `entries
      ensures State() == Model.SetNx(old(State()), key, value, ttl, now)
      ensures r == Model.SetNxResult(old(State()), key)
    {
      if !connected {
        return Error(CacheError);
      }
      var fullKey := keyPrefix + key;
      if fullKey in entries {
        return Ok(false);
      }
      entries := entries[fullKey := NewEntry(fullKey, value, ttl, now)];
      return Ok(true);
    }
  }
}
