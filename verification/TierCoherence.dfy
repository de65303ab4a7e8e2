/** Tier coherence: the stack never answers anything but the value written last. */
module TierCoherence {
  import opened Results
  import opened CacheEntries
  import opened TierModel
  import M = MemoryCacheModel
  import MR = MemoryCacheRuns
  import R = RedisModel

  datatype Written = Written(value: string, until: int)

  datatype Op =
    | OpGet(key: string, now: int, victims: seq<seq<string>>)
    | OpSet(key: string, value: string, ttl: int, now: int, victims: seq<seq<string>>)
    | OpDel(key: string)
    | OpClear
    | OpLink(tier: nat, up: bool)

  predicate Legal(s: State, op: Op) {
    match op
    case OpGet(key, now, victims) =>
      && |victims| == |s.tiers|
      && var n := FirstHit(s.tiers, key, now);
         forall i :: 0 <= i < |s.tiers| ==>
           (i <= n ==> GetLegal(s.tiers[i], key, now))
           && (i < n < |s.tiers| && s.readThrough ==>
                 SetLegal(TierGet(s.tiers[i], key, now), key, Answer(s.tiers[n], key, now).value, BACKFILL_TTL, now,
                   victims[i]))
    case OpSet(key, value, ttl, now, victims) =>
      && |victims| == |s.tiers|
      && forall i :: 0 <= i < LastWritten(s.tiers, s.writeThrough) ==>
           SetLegal(s.tiers[i], key, value, ttl, now, victims[i])
    case OpDel(_) => true
    case OpClear => true
    case OpLink(n, _) => n < |s.tiers| && s.tiers[n].Redis?
  }

  function Apply(s: State, op: Op): State
    requires Legal(s, op)
  {
    match op
    case OpGet(key, now, victims) => Get(s, key, now, victims)
    case OpSet(key, value, ttl, now, victims) => Set(s, key, value, ttl, now, victims)
    case OpDel(key) => Del(s, key)
    case OpClear => Clear(s)
    case OpLink(n, up) => s.(tiers := s.tiers[n := Redis(s.tiers[n].r.(connected := up))])
  }

  /** What a client wrote last and until when it was promised to live. */
  function Record(m: map<string, Written>, op: Op): map<string, Written> {
    match op
    case OpGet(_, _, _) => m
    case OpSet(key, value, ttl, now, _) => m[key := Written(value, now + ttl)]
    case OpDel(key) => m - {key}
    case OpClear => map[]
    case OpLink(_, _) => m
  }

  predicate HoldsOnly(t: Tier, key: string, m: map<string, Written>) {
    Holds(t, key).Some? ==> key in m && Holds(t, key).value == m[key].value
  }

  /** No tier holds anything but the value written last. */
  ghost predicate Coherent(tiers: seq<Tier>, m: map<string, Written>) {
    forall i, key :: 0 <= i < |tiers| ==> HoldsOnly(tiers[i], key, m)
  }

  /** With connectivity fixed from the start, a disconnected tier never holds anything. */
  predicate Blank(t: Tier) {
    !Available(t) ==> t.r.entries == map[]
  }

  predicate AllBlank(tiers: seq<Tier>) {
    forall i :: 0 <= i < |tiers| ==> Blank(tiers[i])
  }

  predicate SameConnections(a: seq<Tier>, b: seq<Tier>) {
    |a| == |b| && forall i :: 0 <= i < |a| ==> Available(a[i]) == Available(b[i]) && a[i].Redis? == b[i].Redis?
  }

  lemma StepConnections(s: State, op: Op)
    requires Legal(s, op) && AllBlank(s.tiers) && !op.OpLink?
    ensures SameConnections(s.tiers, Apply(s, op).tiers) && AllBlank(Apply(s, op).tiers)
    ensures Apply(s, op).writeThrough == s.writeThrough && Apply(s, op).readThrough == s.readThrough
  {
  }

  lemma GetCoherent(s: State, key: string, now: int, victims: seq<seq<string>>, m: map<string, Written>)
    requires Coherent(s.tiers, m) && |victims| == |s.tiers|
    ensures Coherent(Get(s, key, now, victims).tiers, m)
    ensures GetAnswer(s, key, now).Some? ==> key in m && GetAnswer(s, key, now).value == m[key].value
  {
    var n := FirstHit(s.tiers, key, now);
    if n < |s.tiers| {
      GetHolds(s.tiers[n], key, now, key);
      assert HoldsOnly(s.tiers[n], key, m);
    }
    var after := Get(s, key, now, victims).tiers;
    forall i, j | 0 <= i < |after| ensures HoldsOnly(after[i], j, m) {
      assert HoldsOnly(s.tiers[i], j, m);
      assert after[i] == AfterGet(s, n, i, key, now, victims[i]);
      GetHolds(s.tiers[i], key, now, j);
      if i < n < |s.tiers| {
        SetHolds(TierGet(s.tiers[i], key, now), key, Answer(s.tiers[n], key, now).value, BACKFILL_TTL, now,
          victims[i], j);
      }
    }
  }

  /** A deletion keeps the tiers coherent exactly when no unreachable tier holds the key. */
  lemma DelCoherentIff(s: State, key: string, m: map<string, Written>)
    requires Coherent(s.tiers, m)
    ensures Coherent(Del(s, key).tiers, m - {key})
      <==> forall i :: 0 <= i < |s.tiers| && !Available(s.tiers[i]) ==> Holds(s.tiers[i], key).None?
  {
    var after := Del(s, key).tiers;
    forall i, j | 0 <= i < |s.tiers|
      ensures HoldsOnly(after[i], j, m - {key}) <==> Available(s.tiers[i]) || j != key || Holds(s.tiers[i], key).None?
    {
      assert HoldsOnly(s.tiers[i], j, m);
      DelHolds(s.tiers[i], key, j);
    }
    forall i | 0 <= i < |s.tiers| && Coherent(after, m - {key}) && !Available(s.tiers[i])
      ensures Holds(s.tiers[i], key).None? {
      assert HoldsOnly(after[i], key, m - {key});
    }
  }

  predicate HoldsNothing(t: Tier) {
    match t
    case Memory(m) => m.entries == map[]
    case Redis(r) => forall k :: k in r.entries ==> !(r.prefix <= k)
  }

  lemma HoldsNothingIff(t: Tier)
    ensures HoldsNothing(t) <==> forall key :: Holds(t, key).None?
  {
    match t
    case Memory(m) =>
      if key :| key in m.entries { assert Holds(t, key).Some?; }
    case Redis(r) =>
      if k :| k in r.entries && r.prefix <= k {
        assert R.FullKey(r, k[|r.prefix|..]) == k;
        assert Holds(t, k[|r.prefix|..]).Some?;
      }
      forall key ensures r.prefix <= R.FullKey(r, key) {}
  }

  /** Clearing keeps the tiers coherent exactly when no unreachable tier holds anything. */
  lemma ClearCoherentIff(s: State)
    ensures Coherent(Clear(s).tiers, map[])
      <==> forall i :: 0 <= i < |s.tiers| && !Available(s.tiers[i]) ==> HoldsNothing(s.tiers[i])
  {
    var after := Clear(s).tiers;
    forall i | 0 <= i < |s.tiers|
      ensures (forall j :: HoldsOnly(after[i], j, map[])) <==> Available(s.tiers[i]) || HoldsNothing(s.tiers[i])
    {
      forall j ensures HoldsOnly(after[i], j, map[]) <==> Holds(after[i], j).None? {}
      HoldsNothingIff(s.tiers[i]);
      if Available(s.tiers[i]) {
        forall j ensures Holds(after[i], j).None? {}
      } else {
        assert after[i] == s.tiers[i];
        forall j ensures HoldsOnly(after[i], j, map[]) <==> Holds(s.tiers[i], j).None? {}
      }
    }
  }

  /** The tiers that a write does not reach: disconnected, or without write-through below a disconnected one. */
  predicate Missed(s: State, i: nat)
    requires i < |s.tiers|
  {
    !Available(s.tiers[i]) || (!s.writeThrough && exists j :: 0 <= j < i && !Available(s.tiers[j]))
  }

  lemma {:induction false} ReachedIff(tiers: seq<Tier>, writeThrough: bool, i: nat)
    requires i < |tiers|
    ensures i < LastWritten(tiers, writeThrough) <==>
      writeThrough || forall j :: 0 <= j <= i ==> Available(tiers[j])
  {
    if !writeThrough && Available(tiers[0]) && i > 0 {
      var rest := tiers[1..];
      ReachedIff(rest, writeThrough, i - 1);
      if forall j :: 0 <= j <= i - 1 ==> Available(rest[j]) {
        forall j | 0 < j <= i ensures Available(tiers[j]) { assert tiers[j] == rest[j - 1]; }
      }
    }
  }

  /** A write keeps the tiers coherent exactly when no tier that it misses holds another value under the key. */
  lemma SetCoherentIff(s: State, key: string, value: string, ttl: int, now: int, victims: seq<seq<string>>,
      m: map<string, Written>)
    requires Coherent(s.tiers, m) && |victims| == |s.tiers|
    ensures Coherent(Set(s, key, value, ttl, now, victims).tiers, m[key := Written(value, now + ttl)])
      <==> forall i :: 0 <= i < |s.tiers| && Missed(s, i) ==> SameOrNone(Holds(s.tiers[i], key), Some(value))
  {
    var after := Set(s, key, value, ttl, now, victims).tiers;
    var m' := m[key := Written(value, now + ttl)];
    forall i, j | 0 <= i < |s.tiers|
      ensures HoldsOnly(after[i], j, m') <==>
        !Missed(s, i) || j != key || SameOrNone(Holds(s.tiers[i], key), Some(value))
    {
      assert HoldsOnly(s.tiers[i], j, m);
      SetHolds(s.tiers[i], key, value, ttl, now, victims[i], j);
      ReachedIff(s.tiers, s.writeThrough, i);
      if Missed(s, i) { assert after[i] == s.tiers[i]; }
    }
    forall i | 0 <= i < |s.tiers| && Coherent(after, m') && Missed(s, i)
      ensures SameOrNone(Holds(s.tiers[i], key), Some(value)) {
      assert HoldsOnly(after[i], key, m');
    }
  }

  lemma LinkCoherent(s: State, n: nat, up: bool, m: map<string, Written>)
    requires Coherent(s.tiers, m) && Legal(s, OpLink(n, up))
    ensures Coherent(Apply(s, OpLink(n, up)).tiers, m)
  {
    var after := Apply(s, OpLink(n, up)).tiers;
    forall i, j | 0 <= i < |after| ensures HoldsOnly(after[i], j, m) {
      assert HoldsOnly(s.tiers[i], j, m);
      assert Holds(after[i], j) == Holds(s.tiers[i], j);
    }
  }

  /** What a step must not leave behind in the tiers it does not reach. */
  predicate Safe(s: State, op: Op) {
    match op
    case OpGet(_, _, _) => true
    case OpSet(key, value, _, _, _) =>
      forall i :: 0 <= i < |s.tiers| && Missed(s, i) ==> SameOrNone(Holds(s.tiers[i], key), Some(value))
    case OpDel(key) => forall i :: 0 <= i < |s.tiers| && !Available(s.tiers[i]) ==> Holds(s.tiers[i], key).None?
    case OpClear => forall i :: 0 <= i < |s.tiers| && !Available(s.tiers[i]) ==> HoldsNothing(s.tiers[i])
    case OpLink(_, _) => true
  }

  /** Tiers going up and down, write-through on or off: a step keeps coherence precisely when it is safe. */
  lemma StepCoherentIff(s: State, op: Op, m: map<string, Written>)
    requires Legal(s, op) && Coherent(s.tiers, m)
    ensures Coherent(Apply(s, op).tiers, Record(m, op)) <==> Safe(s, op)
  {
    match op
    case OpGet(key, now, victims) => GetCoherent(s, key, now, victims, m);
    case OpSet(key, value, ttl, now, victims) => SetCoherentIff(s, key, value, ttl, now, victims, m);
    case OpDel(key) => DelCoherentIff(s, key, m);
    case OpClear => ClearCoherentIff(s);
    case OpLink(n, up) => LinkCoherent(s, n, up, m);
  }

  /** With fixed connections and write-through every step is safe. */
  lemma StepCoherent(s: State, op: Op, m: map<string, Written>)
    requires Legal(s, op) && Coherent(s.tiers, m) && AllBlank(s.tiers) && (op.OpSet? ==> s.writeThrough)
    ensures Safe(s, op) && Coherent(Apply(s, op).tiers, Record(m, op))
  {
    forall i, key | 0 <= i < |s.tiers| && !Available(s.tiers[i])
      ensures HoldsNothing(s.tiers[i]) && Holds(s.tiers[i], key).None?
    {
      assert Blank(s.tiers[i]);
    }
    StepCoherentIff(s, op, m);
  }

  // ---------------------------------------------------------------- a connected Redis tier keeps its promise

  /** A connected Redis tier still has every value whose promised life is not over. */
  ghost predicate Durable(t: Tier, m: map<string, Written>, clock: int) {
    t.Redis? && t.r.connected &&
    forall key :: key in m && clock <= m[key].until ==>
      var k := R.FullKey(t.r, key);
      k in t.r.entries && t.r.entries[k].value == m[key].value && t.r.entries[k].expiresAt >= m[key].until
  }

  lemma DurableAnswers(t: Tier, m: map<string, Written>, clock: int, key: string, now: int)
    requires Durable(t, m, clock) && clock <= now && key in m && now <= m[key].until
    ensures Answer(t, key, now) == Some(m[key].value)
  {
  }

  lemma DurableGet(t: Tier, m: map<string, Written>, clock: int, key: string, now: int)
    requires Durable(t, m, clock) && clock <= now
    ensures Durable(TierGet(t, key, now), m, now)
  {
    forall j | j in m && now <= m[j].until
      ensures R.FullKey(t.r, j) in TierGet(t, key, now).r.entries
      ensures TierGet(t, key, now).r.entries[R.FullKey(t.r, j)].value == m[j].value
      ensures TierGet(t, key, now).r.entries[R.FullKey(t.r, j)].expiresAt >= m[j].until
    {
      R.FullKeyInjective(t.r, key, j);
    }
  }

  lemma DurableSet(t: Tier, m: map<string, Written>, clock: int, key: string, value: string, ttl: int, now: int,
      victims: seq<string>)
    requires Durable(t, m, clock) && clock <= now
    ensures Durable(TierSet(t, key, value, ttl, now, victims), m[key := Written(value, now + ttl)], now)
    ensures key in m && now > m[key].until ==> Durable(TierSet(t, key, value, ttl, now, victims), m, now)
    ensures key !in m ==> Durable(TierSet(t, key, value, ttl, now, victims), m, now)
  {
    forall j | j in m ensures R.FullKey(t.r, j) == R.FullKey(t.r, key) ==> j == key {
      R.FullKeyInjective(t.r, key, j);
    }
  }

  lemma DurableDel(t: Tier, m: map<string, Written>, clock: int, key: string)
    requires Durable(t, m, clock)
    ensures Durable(TierDel(t, key), m - {key}, clock)
  {
    forall j | j in m ensures R.FullKey(t.r, j) == R.FullKey(t.r, key) ==> j == key {
      R.FullKeyInjective(t.r, key, j);
    }
  }

  function TimeOf(op: Op, clock: int): int {
    match op
    case OpGet(_, now, _) => now
    case OpSet(_, _, _, now, _) => now
    case OpDel(_) => clock
    case OpClear => clock
    case OpLink(_, _) => clock
  }

  lemma StepDurable(s: State, op: Op, m: map<string, Written>, clock: int, i: nat)
    requires Legal(s, op) && !op.OpLink? && (op.OpSet? ==> s.writeThrough)
    requires i < |s.tiers| && Durable(s.tiers[i], m, clock) && clock <= TimeOf(op, clock)
    ensures Durable(Apply(s, op).tiers[i], Record(m, op), TimeOf(op, clock))
  {
    var t := s.tiers[i];
    match op
    case OpGet(key, now, victims) =>
      DurableGet(t, m, clock, key, now);
      var n := FirstHit(s.tiers, key, now);
      if i < n < |s.tiers| {
        if key in m && now <= m[key].until { DurableAnswers(t, m, clock, key, now); }
        DurableSet(TierGet(t, key, now), m, now, key, Answer(s.tiers[n], key, now).value, BACKFILL_TTL, now,
          victims[i]);
      }
      assert Apply(s, op).tiers[i] == AfterGet(s, n, i, key, now, victims[i]);
    case OpSet(key, value, ttl, now, victims) => DurableSet(t, m, clock, key, value, ttl, now, victims[i]);
    case OpDel(key) => DurableDel(t, m, clock, key);
    case OpClear =>
  }

  // ---------------------------------------------------------------- runs

  /** The stack, what was written last, and the clock. */
  datatype Sys = Sys(s: State, written: map<string, Written>, clock: int)

  predicate Enabled(y: Sys, op: Op) {
    Legal(y.s, op) && y.clock <= TimeOf(op, y.clock)
  }

  /** Connections stay as they are, and writes go through. */
  predicate Steady(y: Sys, op: Op) {
    !op.OpLink? && (op.OpSet? ==> y.s.writeThrough)
  }

  function Next(y: Sys, op: Op): Sys
    requires Enabled(y, op)
  {
    Sys(Apply(y.s, op), Record(y.written, op), TimeOf(op, y.clock))
  }

  ghost predicate LegalRun(y: Sys, ops: seq<Op>)
    decreases |ops|
  {
    ops == [] || (Enabled(y, ops[0]) && LegalRun(Next(y, ops[0]), ops[1..]))
  }

  ghost function Run(y: Sys, ops: seq<Op>): Sys
    requires LegalRun(y, ops)
    decreases |ops|
  {
    if ops == [] then y else Run(Next(y, ops[0]), ops[1..])
  }

  ghost predicate SteadyRun(y: Sys, ops: seq<Op>)
    requires LegalRun(y, ops)
    decreases |ops|
  {
    ops == [] || (Steady(y, ops[0]) && SteadyRun(Next(y, ops[0]), ops[1..]))
  }

  ghost predicate SafeRun(y: Sys, ops: seq<Op>)
    requires LegalRun(y, ops)
    decreases |ops|
  {
    ops == [] || (Safe(y.s, ops[0]) && SafeRun(Next(y, ops[0]), ops[1..]))
  }

  /** Over every run of safe steps, with tiers going up and down at will, the stack stays coherent. */
  lemma {:induction false} SafeRunCoherent(y: Sys, ops: seq<Op>)
    requires Coherent(y.s.tiers, y.written) && LegalRun(y, ops) && SafeRun(y, ops)
    ensures Coherent(Run(y, ops).s.tiers, Run(y, ops).written)
    decreases |ops|
  {
    if ops != [] {
      StepCoherentIff(y.s, ops[0], y.written);
      SafeRunCoherent(Next(y, ops[0]), ops[1..]);
    }
  }

  /** After every run of safe steps get answers nothing or the value written last. */
  lemma SafeRunAnswers(s: State, clock: int, ops: seq<Op>, key: string, now: int)
    requires Fresh(s) && LegalRun(Sys(s, map[], clock), ops) && SafeRun(Sys(s, map[], clock), ops)
    ensures var y := Run(Sys(s, map[], clock), ops); var r := GetAnswer(y.s, key, now);
      r.Some? ==> key in y.written && r.value == y.written[key].value
  {
    var y := Run(Sys(s, map[], clock), ops);
    SafeRunCoherent(Sys(s, map[], clock), ops);
    var n := FirstHit(y.s.tiers, key, now);
    if n < |y.s.tiers| {
      GetHolds(y.s.tiers[n], key, now, key);
      assert HoldsOnly(y.s.tiers[n], key, y.written);
    }
  }

  predicate Fresh(s: State) {
    forall i :: 0 <= i < |s.tiers| ==> if s.tiers[i].Memory? then s.tiers[i].m.entries == map[]
      else s.tiers[i].r.entries == map[]
  }

  ghost predicate SysInv(y: Sys, durable: set<nat>) {
    && Coherent(y.s.tiers, y.written) && AllBlank(y.s.tiers)
    && forall i :: i in durable ==> i < |y.s.tiers| && Durable(y.s.tiers[i], y.written, y.clock)
  }

  lemma {:induction false} RunKeepsSysInv(y: Sys, ops: seq<Op>, durable: set<nat>)
    requires SysInv(y, durable) && LegalRun(y, ops) && SteadyRun(y, ops)
    ensures SysInv(Run(y, ops), durable)
    decreases |ops|
  {
    if ops != [] {
      StepCoherent(y.s, ops[0], y.written);
      StepConnections(y.s, ops[0]);
      var z := Next(y, ops[0]);
      forall i | i in durable ensures i < |z.s.tiers| && Durable(z.s.tiers[i], z.written, z.clock) {
        StepDurable(y.s, ops[0], y.written, y.clock, i);
      }
      RunKeepsSysInv(Next(y, ops[0]), ops[1..], durable);
    }
  }

  /**
   From an empty stack, after any run of get, set, del and clear with fixed connections and a
   clock that does not run backwards: get answers nothing or the value written last, nothing for
   a key that was deleted or never written, and, if some Redis tier is connected, exactly the
   value written last until its time to live has passed.
   */
  lemma StackAnswers(s: State, clock: int, ops: seq<Op>, key: string, now: int)
    requires Fresh(s) && LegalRun(Sys(s, map[], clock), ops) && SteadyRun(Sys(s, map[], clock), ops)
    requires Run(Sys(s, map[], clock), ops).clock <= now
    ensures var y := Run(Sys(s, map[], clock), ops); var r := GetAnswer(y.s, key, now);
      && (r.Some? ==> key in y.written && r.value == y.written[key].value)
      && (key in y.written && now <= y.written[key].until
          && (exists i :: 0 <= i < |s.tiers| && s.tiers[i].Redis? && s.tiers[i].r.connected)
          ==> r == Some(y.written[key].value))
  {
    var y0 := Sys(s, map[], clock);
    var y := Run(y0, ops);
    var durable := set i: nat | i < |s.tiers| && s.tiers[i].Redis? && s.tiers[i].r.connected;
    RunKeepsSysInv(y0, ops, durable);
    var n := FirstHit(y.s.tiers, key, now);
    if n < |y.s.tiers| {
      GetHolds(y.s.tiers[n], key, now, key);
      assert HoldsOnly(y.s.tiers[n], key, y.written);
    }
    if durable != {} && key in y.written && now <= y.written[key].until {
      var i :| i in durable;
      DurableAnswers(y.s.tiers[i], y.written, y.clock, key, now);
    }
    if i :| 0 <= i < |s.tiers| && s.tiers[i].Redis? && s.tiers[i].r.connected {
      assert i in durable;
    }
  }

  /** A single Redis tier with at most one entry. */
  function OneTier(up: bool, entries: map<string, Entry>): State {
    State([Redis(R.State(up, "oms:", entries))], true, true)
  }

  lemma OneStep(y: Sys, op: Op, z: Sys, more: seq<Op>)
    requires Enabled(y, op) && Next(y, op) == z && LegalRun(z, more)
    ensures LegalRun(y, [op] + more) && Run(y, [op] + more) == Run(z, more)
  {
    assert ([op] + more)[1..] == more;
  }

  /** A write, then a step while the tier is disconnected. */
  function Missing(value: string, op: Op): seq<Op> {
    [OpSet("k", value, 100, 0, [[]])] + ([OpLink(0, false)] + ([op] + ([OpLink(0, true)] + [])))
  }

  const Start: Sys := Sys(OneTier(true, map[]), map[], 0)

  function Full(up: bool, value: string): State {
    OneTier(up, map["oms:k" := Entry("oms:k", value, 100, 0)])
  }

  /** A step that does not reach the tier leaves the value there; once connected again, the tier answers it. */
  lemma MissedStep(value: string, op: Op, m: map<string, Written>)
    requires var y := Sys(Full(false, value), map["k" := Written(value, 100)], 0);
      Enabled(y, op) && Next(y, op) == Sys(Full(false, value), m, 0)
    ensures LegalRun(Start, Missing(value, op)) && Run(Start, Missing(value, op)).written == m
    ensures GetAnswer(Run(Start, Missing(value, op)).s, "k", 1) == Some(value)
  {
    var on, off := Full(true, value), Full(false, value);
    var m0, link := map["k" := Written(value, 100)], OpLink(0, true);
    OneStep(Sys(off, m, 0), link, Sys(on, m, 0), []);
    OneStep(Sys(off, m0, 0), op, Sys(off, m, 0), [link] + []);
    OneStep(Sys(on, m0, 0), OpLink(0, false), Sys(off, m0, 0), [op] + ([link] + []));
    FirstWrite(value);
    OneStep(Start, OpSet("k", value, 100, 0, [[]]), Sys(on, m0, 0), [OpLink(0, false)] + ([op] + ([link] + [])));
    FullAnswers(value);
  }

  lemma FullAnswers(value: string)
    ensures GetAnswer(Full(true, value), "k", 1) == Some(value)
  {
    var on := Full(true, value);
    assert R.FullKey(on.tiers[0].r, "k") == "oms:k";
    assert Answer(on.tiers[0], "k", 1) == Some(value);
    assert FirstHit(on.tiers, "k", 1) == 0;
  }

  /** A missed second write: the tier answers the older value. */
  lemma StaleAfterReconnect(value: string, newer: string)
    requires value != newer
    ensures var ops := Missing(value, OpSet("k", newer, 100, 0, [[]]));
      LegalRun(Start, ops) && Run(Start, ops).written == map["k" := Written(newer, 100)]
      && GetAnswer(Run(Start, ops).s, "k", 1) == Some(value)
  {
    MissedStep(value, OpSet("k", newer, 100, 0, [[]]), map["k" := Written(newer, 100)]);
  }

  /** A missed deletion: the key is answered although it was deleted. */
  lemma DeletedAfterReconnect(value: string)
    ensures var ops := Missing(value, OpDel("k"));
      LegalRun(Start, ops) && Run(Start, ops).written == map[] && GetAnswer(Run(Start, ops).s, "k", 1) == Some(value)
  {
    MissedStep(value, OpDel("k"), map[]);
  }

  /** A missed clear: the same. */
  lemma ClearedAfterReconnect(value: string)
    ensures var ops := Missing(value, OpClear);
      LegalRun(Start, ops) && Run(Start, ops).written == map[] && GetAnswer(Run(Start, ops).s, "k", 1) == Some(value)
  {
    MissedStep(value, OpClear, map[]);
  }

  lemma FirstWrite(value: string)
    ensures Set(OneTier(true, map[]), "k", value, 100, 0, [[]])
         == OneTier(true, map["oms:k" := Entry("oms:k", value, 100, 0)])
  {
    assert R.FullKey(OneTier(true, map[]).tiers[0].r, "k") == "oms:k";
  }
}
