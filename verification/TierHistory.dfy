/** Where writes and backfills arrive in a stack, and how long a backfilled copy can outlive the value. */
module TierHistory {
  import opened Results
  import opened CacheEntries
  import opened TierModel
  import opened TierCoherence
  import M = MemoryCacheModel
  import ME = MemoryCacheEviction
  import MR = MemoryCacheRuns
  import MH = MemoryCacheHistory
  import R = RedisModel

  // ---------------------------------------------------------------- what arrives

  /** A tier that has the key answers it with value exactly up to the given time. */
  ghost predicate AnswersUntil(t: Tier, key: string, value: string, until: int) {
    forall now :: Answer(t, key, now) == if now <= until then Some(value) else None
  }

  /**
   A written tier that can be reached answers the value for its time to live, unless a memory tier evicted it
   at once.
   */
  lemma WrittenTierAnswers(t: Tier, key: string, value: string, ttl: int, now: int, victims: seq<string>)
    requires SetLegal(t, key, value, ttl, now, victims)
    ensures var u := TierSet(t, key, value, ttl, now, victims);
      Available(t) ==> (Holds(u, key).None? && u.Memory?) || AnswersUntil(u, key, value, now + ttl)
  {
    match t
    case Memory(m) =>
      var u := M.EvictAll(M.Insert(m, key, value, ttl, now), victims);
      if key in u.entries {
        forall later ensures Answer(Memory(u), key, later) == if later <= now + ttl then Some(value) else None {
          MH.SetThenGet(m, key, value, ttl, now, victims, later);
        }
      }
    case Redis(r) =>
  }

  /** A set writes a tier exactly if write-through is on or no tier down to it is disconnected. */
  lemma SetArrives(s: State, key: string, value: string, ttl: int, now: int, victims: seq<seq<string>>, i: nat)
    requires Legal(s, OpSet(key, value, ttl, now, victims)) && i < |s.tiers|
    ensures var u := Apply(s, OpSet(key, value, ttl, now, victims)).tiers[i];
      if Missed(s, i) then u == s.tiers[i]
      else (Holds(u, key).None? && u.Memory?) || AnswersUntil(u, key, value, now + ttl)
  {
    ReachedIff(s.tiers, s.writeThrough, i);
    if !Missed(s, i) { WrittenTierAnswers(s.tiers[i], key, value, ttl, now, victims[i]); }
  }

  /**
   A read-through get copies what it finds: every tier above that can be reached answers the value
   for another 3600 seconds, unless a memory tier evicted it at once; the tiers below are untouched.
   */
  lemma BackfillArrives(s: State, key: string, now: int, victims: seq<seq<string>>, n: nat, i: nat)
    requires Legal(s, OpGet(key, now, victims)) && i < n < |s.tiers|
    requires Answer(s.tiers[n], key, now).Some? && forall j :: 0 <= j < n ==> Answer(s.tiers[j], key, now).None?
    ensures var u := Apply(s, OpGet(key, now, victims)).tiers; var value := Answer(s.tiers[n], key, now).value;
      && GetAnswer(s, key, now) == Some(value)
      && (s.readThrough && Available(s.tiers[i]) ==>
            (Holds(u[i], key).None? && u[i].Memory?) || AnswersUntil(u[i], key, value, now + 3600))
      && forall j :: n < j < |s.tiers| ==> u[j] == s.tiers[j]
  {
    assert FirstHit(s.tiers, key, now) == n;
    if s.readThrough {
      WrittenTierAnswers(TierGet(s.tiers[i], key, now), key, Answer(s.tiers[n], key, now).value, 3600, now, victims[i]);
    }
  }

  // ---------------------------------------------------------------- how long copies live

  /** The expiry of the copy a tier holds. */
  function Expiry(t: Tier, key: string): Option<int> {
    match t
    case Memory(m) => if key in m.entries then Some(m.entries[key].expiresAt) else None
    case Redis(r) =>
      if R.FullKey(r, key) in r.entries then Some(r.entries[R.FullKey(r, key)].expiresAt) else None
  }

  predicate Same(after: Option<int>, before: Option<int>) { after.None? || after == before }

  lemma GetExpiry(t: Tier, key: string, now: int, j: string)
    ensures Same(Expiry(TierGet(t, key, now), j), Expiry(t, j))
  {
    if t.Redis? { R.FullKeyInjective(t.r, key, j); }
  }

  lemma SetExpiry(t: Tier, key: string, value: string, ttl: int, now: int, victims: seq<string>, j: string)
    ensures Same(Expiry(TierSet(t, key, value, ttl, now, victims), j),
      if j == key && Available(t) then Some(now + ttl) else Expiry(t, j))
  {
    match t
    case Memory(m) => MR.EvictAllFixed(M.Insert(m, key, value, ttl, now), victims);
    case Redis(r) => R.FullKeyInjective(r, key, j);
  }

  /** The copy lives no longer than what was promised last, or than 3600 seconds from the last step on. */
  predicate Timely(t: Tier, key: string, m: map<string, Written>, clock: int) {
    Expiry(t, key).Some? ==>
      key in m && (Expiry(t, key).value <= m[key].until || Expiry(t, key).value <= clock + 3600)
  }

  ghost predicate AllTimely(y: Sys) {
    forall i, key :: 0 <= i < |y.s.tiers| ==> Timely(y.s.tiers[i], key, y.written, y.clock)
  }

  lemma StepTimely(y: Sys, op: Op, i: nat, key: string)
    requires Enabled(y, op) && Steady(y, op) && AllBlank(y.s.tiers) && AllTimely(y) && i < |y.s.tiers|
    ensures i < |Next(y, op).s.tiers| && Timely(Next(y, op).s.tiers[i], key, Next(y, op).written, Next(y, op).clock)
  {
    var t := y.s.tiers[i];
    assert Timely(t, key, y.written, y.clock) && Blank(t);
    match op
    case OpGet(k, now, victims) =>
      var n := FirstHit(y.s.tiers, k, now);
      GetExpiry(t, k, now, key);
      assert Next(y, op).s.tiers[i] == AfterGet(y.s, n, i, k, now, victims[i]);
      if i < n < |y.s.tiers| {
        var value := Answer(y.s.tiers[n], k, now).value;
        SetExpiry(TierGet(t, k, now), k, value, BACKFILL_TTL, now, victims[i], key);
        assert Timely(y.s.tiers[n], k, y.written, y.clock);
      }
    case OpSet(k, value, ttl, now, victims) => SetExpiry(t, k, value, ttl, now, victims[i], key);
    case OpDel(k) => if t.Redis? { R.FullKeyInjective(t.r, k, key); }
    case OpClear =>
  }

  lemma {:induction false} RunTimely(y: Sys, ops: seq<Op>)
    requires AllTimely(y) && AllBlank(y.s.tiers) && LegalRun(y, ops) && SteadyRun(y, ops)
    ensures AllTimely(Run(y, ops))
    decreases |ops|
  {
    if ops != [] {
      forall i, key | 0 <= i < |Next(y, ops[0]).s.tiers|
        ensures Timely(Next(y, ops[0]).s.tiers[i], key, Next(y, ops[0]).written, Next(y, ops[0]).clock)
      {
        StepConnections(y.s, ops[0]);
        StepTimely(y, ops[0], i, key);
      }
      StepConnections(y.s, ops[0]);
      RunTimely(Next(y, ops[0]), ops[1..]);
    }
  }

  /**
   After every run with fixed connections, write-through and a monotone clock, a get answers nothing
   once the promised life of the key is over and 3600 seconds have passed since the last step.
   */
  lemma NothingOutlivesBackfill(s: State, clock: int, ops: seq<Op>, key: string, now: int)
    requires Fresh(s) && LegalRun(Sys(s, map[], clock), ops) && SteadyRun(Sys(s, map[], clock), ops)
    ensures var y := Run(Sys(s, map[], clock), ops);
      GetAnswer(y.s, key, now).Some? ==> key in y.written && (now <= y.written[key].until || now <= y.clock + 3600)
  {
    var y0 := Sys(s, map[], clock);
    var y := Run(y0, ops);
    assert AllBlank(s.tiers);
    RunTimely(y0, ops);
    var n := FirstHit(y.s.tiers, key, now);
    if n < |y.s.tiers| { assert Timely(y.s.tiers[n], key, y.written, y.clock); }
  }

  /** Two Redis tiers that can be reached or not. */
  function Pair(up: bool, upper: map<string, Entry>, lower: map<string, Entry>): State {
    State([Redis(R.State(up, "oms:", upper)), Redis(R.State(true, "oms:", lower))], true, true)
  }

  const Tail: seq<Op> := [OpLink(0, true)] + ([OpGet("k", 0, [[], []])] + [])

  const Detour: seq<Op> := [OpLink(0, false)] + ([OpSet("k", "v", 10, 0, [[], []])] + Tail)

  /** A value promised for 10 seconds and read in time is still answered an hour later: the bound is reached. */
  lemma BackfillOutlivesPromise()
    ensures var y0 := Sys(Pair(true, map[], map[]), map[], 0);
      LegalRun(y0, Detour) && Run(y0, Detour).written == map["k" := Written("v", 10)]
      && GetAnswer(Run(y0, Detour).s, "k", 3600) == Some("v")
  {
    var stored := map["oms:k" := Entry("oms:k", "v", 10, 0)];
    var m := map["k" := Written("v", 10)];
    SetBelow();
    ReadBack();
    OneStep(Sys(Pair(false, map[], map[]), map[], 0), OpSet("k", "v", 10, 0, [[], []]),
      Sys(Pair(false, map[], stored), m, 0), Tail);
    OneStep(Sys(Pair(true, map[], map[]), map[], 0), OpLink(0, false), Sys(Pair(false, map[], map[]), map[], 0),
      [OpSet("k", "v", 10, 0, [[], []])] + Tail);
  }

  lemma ReadBack()
    ensures var y := Sys(Pair(false, map[], map["oms:k" := Entry("oms:k", "v", 10, 0)]),
      map["k" := Written("v", 10)], 0);
      LegalRun(y, Tail) && Run(y, Tail).written == y.written && GetAnswer(Run(y, Tail).s, "k", 3600) == Some("v")
  {
    var e := Entry("oms:k", "v", 10, 0);
    var stored, seen := map["oms:k" := e], map["oms:k" := e.Accessed()];
    var copied, m := map["oms:k" := Entry("oms:k", "v", 3600, 0)], map["k" := Written("v", 10)];
    CopyUp();
    OneStep(Sys(Pair(true, map[], stored), m, 0), OpGet("k", 0, [[], []]), Sys(Pair(true, copied, seen), m, 0), []);
    OneStep(Sys(Pair(false, map[], stored), m, 0), OpLink(0, true), Sys(Pair(true, map[], stored), m, 0),
      [OpGet("k", 0, [[], []])] + []);
    UpperAnswers(copied, seen);
  }

  lemma SetBelow()
    ensures Set(Pair(false, map[], map[]), "k", "v", 10, 0, [[], []])
         == Pair(false, map[], map["oms:k" := Entry("oms:k", "v", 10, 0)])
  {
    assert R.FullKey(Pair(false, map[], map[]).tiers[1].r, "k") == "oms:k";
  }

  lemma CopyUp()
    ensures var e := Entry("oms:k", "v", 10, 0);
      Get(Pair(true, map[], map["oms:k" := e]), "k", 0, [[], []])
        == Pair(true, map["oms:k" := Entry("oms:k", "v", 3600, 0)], map["oms:k" := e.Accessed()])
  {
    var s := Pair(true, map[], map["oms:k" := Entry("oms:k", "v", 10, 0)]);
    assert R.FullKey(s.tiers[0].r, "k") == "oms:k" == R.FullKey(s.tiers[1].r, "k");
    assert Answer(s.tiers[1], "k", 0) == Some("v");
    assert FirstHit(s.tiers, "k", 0) == 1 by { assert s.tiers[1..][0] == s.tiers[1]; }
    var after := Get(s, "k", 0, [[], []]).tiers;
    var upper, lower := s.tiers[0].r, s.tiers[1].r;
    assert R.Get(upper, "k", 0) == upper;
    assert R.Set(upper, "k", "v", 3600, 0).entries == map["oms:k" := Entry("oms:k", "v", 3600, 0)];
    assert R.Get(lower, "k", 0).entries == map["oms:k" := Entry("oms:k", "v", 10, 0).Accessed()];
    assert after[0] == AfterGet(s, 1, 0, "k", 0, []) && after[1] == AfterGet(s, 1, 1, "k", 0, []);
    assert after == [after[0], after[1]];
  }

  lemma UpperAnswers(upper: map<string, Entry>, lower: map<string, Entry>)
    requires "oms:k" in upper && upper["oms:k"] == Entry("oms:k", "v", 3600, 0)
    ensures GetAnswer(Pair(true, upper, lower), "k", 3600) == Some("v")
  {
    var s := Pair(true, upper, lower);
    assert R.FullKey(s.tiers[0].r, "k") == "oms:k";
    assert Answer(s.tiers[0], "k", 3600) == Some("v");
    assert FirstHit(s.tiers, "k", 3600) == 0;
  }
}
