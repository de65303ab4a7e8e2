/** The stack of cache backends as objects that the operations update in place. */
module MultiTierCaches {
  import opened Results
  import opened CacheEntries
  import M = MemoryCacheModel
  import R = RedisModel
  import opened MemoryCaches
  import opened RedisCaches
  import Model = TierModel
  import TierCoherence

  datatype Backend = MemoryBackend(memory: MemoryCache) | RedisBackend(redis: RedisCache) {
    function Object(): object {
      match this
      case MemoryBackend(m) => m
      case RedisBackend(r) => r
    }

    function Tier(): Model.Tier
      reads Object()
    {
      match this
      case MemoryBackend(m) => Model.Memory(m.State())
      case RedisBackend(r) => Model.Redis(r.State())
    }

    ghost predicate Valid()
      reads Object()
    {
      MemoryBackend? ==> memory.Valid()
    }

    method Get(key: string, now: int) returns (r: Result<Option<string>>)
      requires Valid() && Model.GetLegal(Tier(), key, now)
      modifies Object()
      ensures Valid() && Tier() == Model.TierGet(old(Tier()), key, now)
      ensures Model.Answer(old(Tier()), key, now) == if r.Ok? then r.value else None
    {
      match this {
        case MemoryBackend(m) =>
          var v := m.Get(key, now);
          r := Ok(v);
        case RedisBackend(c) => r := c.Get(key, now);
      }
    }

    method Set(key: string, value: string, ttl: int, now: int) returns (r: Outcome, ghost victims: seq<string>)
      requires Valid() && Model.SetEnds(Tier(), key, value, ttl, now)
      modifies Object()
      ensures Model.SetLegal(old(Tier()), key, value, ttl, now, victims)
      ensures Valid() && Tier() == Model.TierSet(old(Tier()), key, value, ttl, now, victims)
      ensures r.Ok? <==> Model.Available(old(Tier()))
      ensures r.Error? ==> Tier() == old(Tier())
    {
      victims := [];
      match this {
        case MemoryBackend(m) =>
          victims := m.Set(key, value, ttl, now);
          r := Ok(());
        case RedisBackend(c) => r := c.Set(key, value, ttl, now);
      }
    }

    method Del(key: string)
      requires Valid()
      modifies Object()
      ensures Valid() && Tier() == Model.TierDel(old(Tier()), key)
    {
      match this {
        case MemoryBackend(m) => m.Del(key);
        case RedisBackend(c) => var _ := c.Del(key);
      }
    }

    method Clear()
      requires Valid()
      modifies Object()
      ensures Valid() && Tier() == Model.TierClear(old(Tier()))
    {
      match this {
        case MemoryBackend(m) => m.Clear();
        case RedisBackend(c) => var _ := c.Clear();
      }
    }
  }

  class MultiTierCache {
    var backends: seq<Backend>
    var writeThrough: bool
    var readThrough: bool

    constructor ()
      ensures backends == [] && writeThrough && readThrough && Valid()
    {
      backends, writeThrough, readThrough := [], true, true;
    }

    ghost function Objects(): set<object>
      reads this
    {
      set i | 0 <= i < |backends| :: backends[i].Object()
    }

    function Tiers(): seq<Model.Tier>
      reads this, Objects()
    {
      seq(|backends|, i requires 0 <= i < |backends| reads this, Objects() => backends[i].Tier())
    }

    function State(): Model.State
      reads this, Objects()
    {
      Model.State(Tiers(), writeThrough, readThrough)
    }

    /** The backends are different objects, none of them the stack itself. */
    ghost predicate Valid()
      reads this, Objects()
    {
      && this !in Objects()
      && (forall i, j :: 0 <= i < j < |backends| ==> backends[i].Object() != backends[j].Object())
      && (forall i :: 0 <= i < |backends| ==> backends[i].Valid())
    }

    method AddBackend(b: Backend)
      requires Valid() && b.Valid() && b.Object() !in Objects() && b.Object() != this
      modifies `backends
      ensures Valid() && backends == old(backends) + [b]
    {
      backends := backends + [b];
    }

    method Get(key: string, now: int) returns (r: Option<string>, ghost victims: seq<seq<string>>)
      requires Valid() && Model.GetEnds(State(), key, now)
      requires forall i :: 0 <= i < |backends| ==> Model.GetLegal(backends[i].Tier(), key, now)
      modifies Objects()
      ensures TierCoherence.Legal(old(State()), TierCoherence.OpGet(key, now, victims))
      ensures Valid() && State() == Model.Get(old(State()), key, now, victims)
      ensures r == Model.GetAnswer(old(State()), key, now)
    {
      ghost var start := State();
      var n;
      n, r := Probe(key, now);
      BackfillEnds(start, key, now, n);
      if r.Some? && readThrough && n > 0 {
        victims := Backfill(n, key, r.value, now);
      } else {
        victims := seq(|backends|, _ => []);
      }
      GetDone(start, key, now, n, victims, Tiers());
    }

    method ReadAt(n: nat, key: string, now: int) returns (r: Result<Option<string>>)
      requires Valid() && n < |backends| && Model.GetLegal(backends[n].Tier(), key, now)
      modifies backends[n].Object()
      ensures Valid()
      ensures backends[n].Tier() == Model.TierGet(old(backends[n].Tier()), key, now)
      ensures Model.Answer(old(backends[n].Tier()), key, now) == if r.Ok? then r.value else None
      ensures forall i :: 0 <= i < |backends| && i != n ==> backends[i].Tier() == old(backends[i].Tier())
    {
      r := backends[n].Get(key, now);
    }

    /** Asks one tier after the other, up to the first that answers. */
    method Probe(key: string, now: int) returns (n: nat, r: Option<string>)
      requires Valid()
      requires forall i :: 0 <= i < |backends| ==> Model.GetLegal(backends[i].Tier(), key, now)
      modifies Objects()
      ensures Valid() && n <= |backends|
      ensures forall i :: 0 <= i < n ==> Model.Answer(old(Tiers())[i], key, now).None?
      ensures if n < |backends| then r == Model.Answer(old(Tiers())[n], key, now) && r.Some? else r.None?
      ensures forall i :: 0 <= i < |backends| ==>
        backends[i].Tier() == if i <= n then Model.TierGet(old(Tiers())[i], key, now) else old(Tiers())[i]
    {
      ghost var start := Tiers();
      n, r := 0, None;
      while n < |backends|
        invariant 0 <= n <= |backends| && Valid() && r.None?
        invariant forall i :: 0 <= i < n ==> Model.Answer(start[i], key, now).None?
        invariant forall i :: 0 <= i < |backends| ==>
          backends[i].Tier() == if i < n then Model.TierGet(start[i], key, now) else start[i]
      {
        var answer := ReadAt(n, key, now);
        if answer.Ok? && answer.value.Some? {
          r := answer.value;
          return;
        }
        n := n + 1;
      }
    }

    /** Copies a value found at tier n into the tiers above it. */
    method Backfill(n: nat, key: string, value: string, now: int) returns (ghost victims: seq<seq<string>>)
      requires Valid() && n <= |backends|
      requires forall i :: 0 <= i < n ==> Model.SetEnds(backends[i].Tier(), key, value, Model.BACKFILL_TTL, now)
      modifies Objects()
      ensures |victims| == |backends|
      ensures Valid() && |Tiers()| == |backends|
      ensures forall i :: 0 <= i < n ==>
        Model.SetLegal(old(Tiers())[i], key, value, Model.BACKFILL_TTL, now, victims[i])
        && backends[i].Tier() == Model.TierSet(old(Tiers())[i], key, value, Model.BACKFILL_TTL, now, victims[i])
      ensures forall i :: n <= i < |backends| ==> backends[i].Tier() == old(Tiers())[i]
    {
      ghost var start := Tiers();
      victims := [];
      for j := 0 to n
        invariant Valid() && |victims| == j
        invariant forall i :: 0 <= i < j ==>
          Model.SetLegal(start[i], key, value, Model.BACKFILL_TTL, now, victims[i])
          && backends[i].Tier() == Model.TierSet(start[i], key, value, Model.BACKFILL_TTL, now, victims[i])
        invariant forall i :: j <= i < |backends| ==> backends[i].Tier() == start[i]
      {
        var r, v := WriteAt(j, key, value, Model.BACKFILL_TTL, now);
        victims := victims + [v];
      }
      victims := victims + seq(|backends| - n, _ => []);
    }

    /** The outcome is that of the last backend that was tried. */
    method Set(key: string, value: string, ttl: int, now: int) returns (r: Outcome, ghost victims: seq<seq<string>>)
      requires Valid()
      requires forall i :: 0 <= i < Model.LastWritten(Tiers(), writeThrough) ==>
        Model.SetEnds(Tiers()[i], key, value, ttl, now)
      modifies Objects()
      ensures |victims| == |backends|
      ensures TierCoherence.Legal(old(State()), TierCoherence.OpSet(key, value, ttl, now, victims))
      ensures Valid() && State() == Model.Set(old(State()), key, value, ttl, now, victims)
      ensures writeThrough ==> (r.Ok? <==> backends == [] || Model.Available(old(Tiers())[|backends| - 1]))
      ensures !writeThrough ==> (r.Ok? <==> forall i :: 0 <= i < |backends| ==> Model.Available(old(Tiers())[i]))
    {
      ghost var start := State();
      var n;
      r, n, victims := WriteTiers(key, value, ttl, now);
      victims := victims + seq(|backends| - n, _ => []);
      SetDone(start, key, value, ttl, now, n, victims, Tiers());
    }

    method WriteAt(n: nat, key: string, value: string, ttl: int, now: int) returns (r: Outcome, ghost v: seq<string>)
      requires Valid() && n < |backends| && Model.SetEnds(backends[n].Tier(), key, value, ttl, now)
      modifies backends[n].Object()
      ensures Valid()
      ensures Model.SetLegal(old(backends[n].Tier()), key, value, ttl, now, v)
      ensures backends[n].Tier() == Model.TierSet(old(backends[n].Tier()), key, value, ttl, now, v)
      ensures r.Ok? <==> Model.Available(old(backends[n].Tier()))
      ensures r.Error? ==> backends[n].Tier() == old(backends[n].Tier())
      ensures forall i :: 0 <= i < |backends| && i != n ==> backends[i].Tier() == old(backends[i].Tier())
    {
      r, v := backends[n].Set(key, value, ttl, now);
    }

    /** Writes one tier after the other; without write-through, up to the first that fails. */
    method WriteTiers(key: string, value: string, ttl: int, now: int)
        returns (r: Outcome, n: nat, ghost victims: seq<seq<string>>)
      requires Valid()
      requires forall i :: 0 <= i < Model.LastWritten(Tiers(), writeThrough) ==>
        Model.SetEnds(Tiers()[i], key, value, ttl, now)
      modifies Objects()
      ensures Valid() && n <= |backends| && |victims| == n
      ensures !writeThrough ==> forall i :: 0 <= i < n ==> Model.Available(old(Tiers())[i])
      ensures forall i :: 0 <= i < n ==> Model.SetLegal(old(Tiers())[i], key, value, ttl, now, victims[i])
      ensures forall i :: 0 <= i < n ==>
        backends[i].Tier() == Model.TierSet(old(Tiers())[i], key, value, ttl, now, victims[i])
      ensures forall i :: n <= i < |backends| ==> backends[i].Tier() == old(Tiers())[i]
      ensures if n < |backends| then !writeThrough && !Model.Available(old(Tiers())[n]) && r.Error?
        else r.Ok? <==> backends == [] || Model.Available(old(Tiers())[|backends| - 1])
    {
      ghost var start := Tiers();
      r, n, victims := Ok(()), 0, [];
      while n < |backends|
        invariant 0 <= n <= |backends| && |victims| == n && Valid()
        invariant !writeThrough ==> forall i :: 0 <= i < n ==> Model.Available(start[i])
        invariant forall i :: 0 <= i < n ==> Model.SetLegal(start[i], key, value, ttl, now, victims[i])
        invariant forall i :: 0 <= i < n ==>
          backends[i].Tier() == Model.TierSet(start[i], key, value, ttl, now, victims[i])
        invariant forall i :: n <= i < |backends| ==> backends[i].Tier() == start[i]
        invariant r.Ok? <==> n == 0 || Model.Available(start[n - 1])
      {
        ghost var v;
        WritesOn(start, writeThrough, n);
        assert Model.SetEnds(start[n], key, value, ttl, now);
        r, v := WriteAt(n, key, value, ttl, now);
        if !writeThrough && r.Error? {
          break;
        }
        victims := victims + [v];
        n := n + 1;
      }
    }

    method Del(key: string)
      requires Valid()
      modifies Objects()
      ensures Valid() && State() == Model.Del(old(State()), key)
    {
      ghost var start := Tiers();
      for n := 0 to |backends|
        invariant Valid()
        invariant forall i :: 0 <= i < |backends| ==>
          backends[i].Tier() == if i < n then Model.TierDel(start[i], key) else start[i]
      {
        backends[n].Del(key);
      }
    }

    method Clear()
      requires Valid()
      modifies Objects()
      ensures Valid() && State() == Model.Clear(old(State()))
    {
      ghost var start := Tiers();
      for n := 0 to |backends|
        invariant Valid()
        invariant forall i :: 0 <= i < |backends| ==>
          backends[i].Tier() == if i < n then Model.TierClear(start[i]) else start[i]
      {
        backends[n].Clear();
      }
    }
  }

  /** A probe that stopped at tier n leaves a backfill that must end. */
  lemma BackfillEnds(s: Model.State, key: string, now: int, n: nat)
    requires Model.GetEnds(s, key, now) && n <= |s.tiers|
    requires forall i :: 0 <= i < n ==> Model.Answer(s.tiers[i], key, now).None?
    requires n < |s.tiers| ==> Model.Answer(s.tiers[n], key, now).Some?
    ensures n == Model.FirstHit(s.tiers, key, now)
    ensures n < |s.tiers| && s.readThrough ==> forall i :: 0 <= i < n ==>
      Model.SetEnds(Model.TierGet(s.tiers[i], key, now), key, Model.Answer(s.tiers[n], key, now).value,
        Model.BACKFILL_TTL, now)
  {
  }

  /** A probe that stopped at tier n, with or without backfill, is a get of the stack. */
  lemma GetDone(s: Model.State, key: string, now: int, n: nat, victims: seq<seq<string>>, after: seq<Model.Tier>)
    requires n <= |s.tiers| && |victims| == |after| == |s.tiers|
    requires forall i :: 0 <= i < n ==> Model.Answer(s.tiers[i], key, now).None?
    requires n < |s.tiers| ==> Model.Answer(s.tiers[n], key, now).Some?
    requires forall i :: 0 <= i < |s.tiers| ==>
      Model.GetLegal(s.tiers[i], key, now) && after[i] == Model.AfterGet(s, n, i, key, now, victims[i])
    requires forall i :: 0 <= i < n < |s.tiers| && s.readThrough ==>
      Model.SetLegal(Model.TierGet(s.tiers[i], key, now), key, Model.Answer(s.tiers[n], key, now).value,
        Model.BACKFILL_TTL, now, victims[i])
    ensures TierCoherence.Legal(s, TierCoherence.OpGet(key, now, victims))
    ensures Model.Get(s, key, now, victims) == s.(tiers := after)
    ensures Model.GetAnswer(s, key, now) == if n < |s.tiers| then Model.Answer(s.tiers[n], key, now) else None
  {
    assert Model.FirstHit(s.tiers, key, now) == n;
  }

  lemma SetDone(s: Model.State, key: string, value: string, ttl: int, now: int, n: nat, victims: seq<seq<string>>,
      after: seq<Model.Tier>)
    requires n <= |s.tiers| && |victims| == |after| == |s.tiers|
    requires !s.writeThrough ==> forall i :: 0 <= i < n ==> Model.Available(s.tiers[i])
    requires n < |s.tiers| ==> !s.writeThrough && !Model.Available(s.tiers[n])
    requires forall i :: 0 <= i < n ==> Model.SetLegal(s.tiers[i], key, value, ttl, now, victims[i])
    requires forall i :: 0 <= i < |s.tiers| ==>
      after[i] == if i < n then Model.TierSet(s.tiers[i], key, value, ttl, now, victims[i]) else s.tiers[i]
    ensures TierCoherence.Legal(s, TierCoherence.OpSet(key, value, ttl, now, victims))
    ensures Model.Set(s, key, value, ttl, now, victims) == s.(tiers := after)
  {
    LastWrittenIs(s.tiers, s.writeThrough, n);
  }

  /** A write that comes to a tier reaches it, or finds it disconnected. */
  lemma {:induction false} WritesOn(tiers: seq<Model.Tier>, writeThrough: bool, n: nat)
    requires n < |tiers| && (!writeThrough ==> forall i :: 0 <= i < n ==> Model.Available(tiers[i]))
    ensures n < Model.LastWritten(tiers, writeThrough) || !Model.Available(tiers[n])
  {
    if n > 0 { WritesOn(tiers[1..], writeThrough, n - 1); }
  }

  lemma {:induction false} LastWrittenIs(tiers: seq<Model.Tier>, writeThrough: bool, n: nat)
    requires n <= |tiers| && (!writeThrough ==> forall i :: 0 <= i < n ==> Model.Available(tiers[i]))
    requires n < |tiers| ==> !writeThrough && !Model.Available(tiers[n])
    ensures Model.LastWritten(tiers, writeThrough) == n
  {
    if n > 0 { LastWrittenIs(tiers[1..], writeThrough, n - 1); }
  }
}
