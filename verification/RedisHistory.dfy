/** The Redis tier is a plain map with expiry times, read from the calls alone. */
module RedisHistory {
  import opened Results
  import opened CacheEntries
  import opened RedisModel

  datatype Said = Said(value: string, until: int)

  /** What a client knows: whether the tier can be reached, and what it holds under the keys as given. */
  datatype View = View(up: bool, said: map<string, Said>)

  /** Nothing but connecting has an effect while the tier cannot be reached; set_nx does not look at the expiry. */
  function Tell(v: View, op: Op): View {
    match op
    case OpLink(up) => v.(up := up)
    case OpSet(k, value, ttl, now) => if v.up then v.(said := v.said[k := Said(value, now + ttl)]) else v
    case OpSetNx(k, value, ttl, now) =>
      if v.up && k !in v.said then v.(said := v.said[k := Said(value, now + ttl)]) else v
    case OpGet(k, now) => if v.up && k in v.said && now > v.said[k].until then v.(said := v.said - {k}) else v
    case OpExpire(k, seconds, now) =>
      if v.up && k in v.said then v.(said := v.said[k := v.said[k].(until := now + seconds)]) else v
    case OpDel(k) => if v.up then v.(said := v.said - {k}) else v
    case OpClear => if v.up then v.(said := map[]) else v
  }

  function TellAll(v: View, ops: seq<Op>): View
    decreases |ops|
  {
    if ops == [] then v else TellAll(Tell(v, ops[0]), ops[1..])
  }

  predicate Agrees(s: State, v: View, k: string) {
    if k in v.said then
      FullKey(s, k) in s.entries && s.entries[FullKey(s, k)].value == v.said[k].value
      && s.entries[FullKey(s, k)].expiresAt == v.said[k].until
    else FullKey(s, k) !in s.entries
  }

  ghost predicate Matches(s: State, v: View) {
    s.connected == v.up && forall k :: Agrees(s, v, k)
  }

  lemma StepAgrees(s: State, op: Op, v: View, k: string)
    requires s.connected == v.up && Agrees(s, v, k) && (op.OpLink? || op.OpClear? || Agrees(s, v, op.key))
    ensures Agrees(Apply(s, op), Tell(v, op), k)
  {
    if !op.OpLink? && !op.OpClear? { FullKeyInjective(s, op.key, k); }
  }

  lemma StepMatches(s: State, op: Op, v: View)
    requires Matches(s, v)
    ensures Matches(Apply(s, op), Tell(v, op))
  {
    forall k ensures Agrees(Apply(s, op), Tell(v, op), k) { StepAgrees(s, op, v, k); }
    assert Apply(s, op).connected == Tell(v, op).up;
  }

  lemma {:induction false} RunMatches(s: State, ops: seq<Op>, v: View)
    requires Matches(s, v)
    ensures Matches(Run(s, ops), TellAll(v, ops))
    decreases |ops|
  {
    if ops != [] {
      StepMatches(s, ops[0], v);
      RunMatches(Apply(s, ops[0]), ops[1..], Tell(v, ops[0]));
    }
  }

  /**
   After every run, whatever the prefix: get answers the value said last up to and including its
   expiry, nothing later or for other keys, and an error while the tier cannot be reached; set_nx
   succeeds exactly for keys that are not held, expired or not.
   */
  lemma AnswersExactly(prefix: string, ops: seq<Op>, key: string, now: int)
    ensures var t := Run(State(false, prefix, map[]), ops); var v := TellAll(View(false, map[]), ops);
      && GetResult(t, key, now) == (
           if !v.up then Error(CacheError)
           else if key in v.said && now <= v.said[key].until then Ok(Some(v.said[key].value))
           else Ok(None))
      && SetNxResult(t, key) == (if !v.up then Error(CacheError) else Ok(key !in v.said))
  {
    var s := State(false, prefix, map[]);
    RunMatches(s, ops, View(false, map[]));
    assert Agrees(Run(s, ops), TellAll(View(false, map[]), ops), key);
  }
}
