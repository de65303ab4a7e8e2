/** Sessions and their per-user index as a state machine; new ids and the clock are parameters. */
module SessionModel {
  import opened Results
  import opened Sequences

  const DAY: int := 86400

  datatype Session = Session(user: nat, expiresAt: int, lastActivity: int) {
    predicate IsExpired(now: int) { now > expiresAt }
  }

  datatype State = State(
    sessions: map<string, Session>,
    userIndex: map<nat, seq<string>>,
    duration: int)

  const Empty: State := State(map[], map[], DAY)

  function Create(s: State, id: string, user: nat, persistent: bool, now: int): State {
    var expiry := now + if persistent then DAY else s.duration;
    s.(sessions := s.sessions[id := Session(user, expiry, now)],
       userIndex := s.userIndex[user := ListOf(s.userIndex, user) + [id]])
  }

  function Destroy(s: State, id: string): State {
    if id in s.sessions then
      var user := s.sessions[id].user;
      s.(sessions := s.sessions - {id},
         userIndex := s.userIndex[user := Without(ListOf(s.userIndex, user), id)])
    else s
  }

  function DestroyAll(s: State, user: nat): State {
    if user in s.userIndex then
      s.(sessions := s.sessions - (set id | id in s.userIndex[user]), userIndex := s.userIndex - {user})
    else s
  }

  /** get and refresh answer only for sessions that are present and not expired. */
  predicate Answers(s: State, id: string, now: int) {
    id in s.sessions && !s.sessions[id].IsExpired(now)
  }

  function Get(s: State, id: string, now: int): State {
    if Answers(s, id, now) then s.(sessions := s.sessions[id := s.sessions[id].(lastActivity := now)]) else s
  }

  function Refresh(s: State, id: string, now: int): State {
    if Answers(s, id, now)
    then s.(sessions := s.sessions[id := s.sessions[id].(lastActivity := now, expiresAt := now + s.duration)])
    else s
  }

  function ExpiredIds(s: State, now: int): set<string> {
    set id | id in s.sessions && s.sessions[id].IsExpired(now)
  }

  /** The lists without the ids of a set, in their order. */
  function Keep(list: seq<string>, gone: set<string>): (r: seq<string>)
    ensures forall id :: id in r <==> id in list && id !in gone
  {
    if list == [] then []
    else if list[0] in gone then Keep(list[1..], gone) else [list[0]] + Keep(list[1..], gone)
  }

  // ---------------------------------------------------------------- the two structures agree

  /** list is, without repetition, exactly the live sessions of user. */
  predicate ExactSessionsOf(sessions: map<string, Session>, user: nat, list: seq<string>) {
    && NoDuplicates(list)
    && (forall id :: id in list ==> id in sessions && sessions[id].user == user)
    && (forall id :: id in sessions && sessions[id].user == user ==> id in list)
  }

  ghost predicate Inv(s: State) {
    forall u :: ExactSessionsOf(s.sessions, u, ListOf(s.userIndex, u))
  }

  function Cleanup(s: State, now: int): State {
    Purge(s, ExpiredIds(s, now))
  }

  /** Erases a set of sessions from both structures. */
  function Purge(s: State, gone: set<string>): State {
    s.(sessions := s.sessions - gone, userIndex := map u | u in s.userIndex :: Keep(s.userIndex[u], gone))
  }

  // ---------------------------------------------------------------- list facts

  lemma {:induction false} KeepNoDuplicates(list: seq<string>, gone: set<string>)
    requires NoDuplicates(list)
    ensures NoDuplicates(Keep(list, gone))
  {
    if list != [] {
      KeepNoDuplicates(list[1..], gone);
      assert list[0] !in list[1..];
    }
  }

  lemma {:induction false} KeepOneLess(list: seq<string>, gone: set<string>, id: string)
    ensures Without(Keep(list, gone), id) == Keep(list, gone + {id})
  {
    if list != [] { KeepOneLess(list[1..], gone, id); }
  }

  lemma {:induction false} KeepSame(list: seq<string>, gone: set<string>, more: set<string>)
    requires forall id :: id in list ==> (id in gone <==> id in more)
    ensures Keep(list, gone) == Keep(list, more)
  {
    if list != [] {
      assert forall id :: id in list[1..] ==> id in list;
      KeepSame(list[1..], gone, more);
    }
  }

  lemma {:induction false} KeepAll(list: seq<string>)
    ensures Keep(list, {}) == list
  {
    if list != [] { KeepAll(list[1..]); }
  }

  // ---------------------------------------------------------------- runs

  datatype Op =
    | OpCreate(id: string, user: nat, persistent: bool, now: int)
    | OpDestroy(id: string)
    | OpDestroyAll(user: nat)
    | OpGet(id: string, now: int)
    | OpRefresh(id: string, now: int)
    | OpCleanup(now: int)
    | OpDuration(seconds: int)

  /** The random id of a new session is not that of a live one. */
  predicate Legal(s: State, op: Op) {
    op.OpCreate? ==> op.id !in s.sessions
  }

  function Apply(s: State, op: Op): State {
    match op
    case OpCreate(id, user, persistent, now) => Create(s, id, user, persistent, now)
    case OpDestroy(id) => Destroy(s, id)
    case OpDestroyAll(user) => DestroyAll(s, user)
    case OpGet(id, now) => Get(s, id, now)
    case OpRefresh(id, now) => Refresh(s, id, now)
    case OpCleanup(now) => Cleanup(s, now)
    case OpDuration(seconds) => s.(duration := seconds)
  }

  predicate LegalRun(s: State, ops: seq<Op>)
    decreases |ops|
  {
    ops == [] || (Legal(s, ops[0]) && LegalRun(Apply(s, ops[0]), ops[1..]))
  }

  function Run(s: State, ops: seq<Op>): State
    decreases |ops|
  {
    if ops == [] then s else Run(Apply(s, ops[0]), ops[1..])
  }

  /** A new session keeps both structures in agreement exactly when its id is not live. */
  lemma CreateSafeIff(s: State, id: string, user: nat, persistent: bool, now: int)
    requires Inv(s)
    ensures Inv(Create(s, id, user, persistent, now)) <==> id !in s.sessions
  {
    var t := Create(s, id, user, persistent, now);
    if id in s.sessions {
      var list := ListOf(t.userIndex, s.sessions[id].user);
      assert ExactSessionsOf(s.sessions, s.sessions[id].user, ListOf(s.userIndex, s.sessions[id].user));
      assert id in list;
      if s.sessions[id].user == user {
        var former := ListOf(s.userIndex, user);
        var i :| 0 <= i < |former| && former[i] == id;
        assert list == former + [id] && list[i] == list[|former|];
      }
      assert !ExactSessionsOf(t.sessions, s.sessions[id].user, list);
    } else {
      forall u ensures ExactSessionsOf(t.sessions, u, ListOf(t.userIndex, u)) {
        assert ExactSessionsOf(s.sessions, u, ListOf(s.userIndex, u));
      }
    }
  }

  /** An id drawn again while it is live: destroying the sessions of its first user ends the session of the second. */
  lemma LiveIdDrawnTwice()
    ensures var s := Create(Create(Empty, "x", 1, false, 0), "x", 2, false, 0);
      ListOf(s.userIndex, 1) == ["x"] && "x" in s.sessions && s.sessions["x"].user == 2
      && "x" !in DestroyAll(s, 1).sessions && ListOf(DestroyAll(s, 1).userIndex, 2) == ["x"]
  {
    var s1 := Create(Empty, "x", 1, false, 0);
    assert ListOf<nat, string>(map[], 1) + ["x"] == ["x"] == ListOf<nat, string>(map[], 2) + ["x"];
    assert s1.userIndex == map[1 := ["x"]];
    var s := Create(s1, "x", 2, false, 0);
    assert s.userIndex == map[1 := ["x"], 2 := ["x"]];
  }

  lemma DestroyKeepsInv(s: State, id: string)
    requires Inv(s)
    ensures Inv(Destroy(s, id))
  {
    if id in s.sessions {
      var t := Destroy(s, id);
      forall u ensures ExactSessionsOf(t.sessions, u, ListOf(t.userIndex, u)) {
        assert ExactSessionsOf(s.sessions, u, ListOf(s.userIndex, u));
        WithoutKeepsNoDuplicates(ListOf(s.userIndex, u), id);
      }
    }
  }

  lemma DestroyAllKeepsInv(s: State, user: nat)
    requires Inv(s)
    ensures Inv(DestroyAll(s, user))
    ensures forall id :: id in DestroyAll(s, user).sessions <==> id in s.sessions && s.sessions[id].user != user
  {
    var t := DestroyAll(s, user);
    forall u ensures ExactSessionsOf(t.sessions, u, ListOf(t.userIndex, u)) {
      assert ExactSessionsOf(s.sessions, u, ListOf(s.userIndex, u));
      assert ExactSessionsOf(s.sessions, user, ListOf(s.userIndex, user));
    }
    assert ExactSessionsOf(s.sessions, user, ListOf(s.userIndex, user));
  }

  lemma PurgeKeepsInv(s: State, gone: set<string>)
    requires Inv(s)
    ensures Inv(Purge(s, gone))
  {
    var t := Purge(s, gone);
    forall u ensures ExactSessionsOf(t.sessions, u, ListOf(t.userIndex, u)) {
      assert ExactSessionsOf(s.sessions, u, ListOf(s.userIndex, u));
      KeepNoDuplicates(ListOf(s.userIndex, u), gone);
    }
  }

  lemma TouchKeepsInv(s: State, id: string, touched: Session)
    requires Inv(s) && id in s.sessions && touched.user == s.sessions[id].user
    ensures Inv(s.(sessions := s.sessions[id := touched]))
  {
    forall u ensures ExactSessionsOf(s.sessions[id := touched], u, ListOf(s.userIndex, u)) {
      assert ExactSessionsOf(s.sessions, u, ListOf(s.userIndex, u));
    }
  }

  lemma StepKeepsInv(s: State, op: Op)
    requires Inv(s) && Legal(s, op)
    ensures Inv(Apply(s, op))
  {
    match op
    case OpCreate(id, user, persistent, now) => CreateSafeIff(s, id, user, persistent, now);
    case OpDestroy(id) => DestroyKeepsInv(s, id);
    case OpDestroyAll(user) => DestroyAllKeepsInv(s, user);
    case OpGet(id, now) => if Answers(s, id, now) { TouchKeepsInv(s, id, Get(s, id, now).sessions[id]); }
    case OpRefresh(id, now) => if Answers(s, id, now) { TouchKeepsInv(s, id, Refresh(s, id, now).sessions[id]); }
    case OpCleanup(now) => PurgeKeepsInv(s, ExpiredIds(s, now));
    case OpDuration(_) =>
  }

  /** After every run each live session stands exactly once in the index, under its own user, and no dead one does. */
  lemma {:induction false} RunKeepsInv(s: State, ops: seq<Op>)
    requires Inv(s) && LegalRun(s, ops)
    ensures Inv(Run(s, ops))
    decreases |ops|
  {
    if ops != [] {
      StepKeepsInv(s, ops[0]);
      RunKeepsInv(Apply(s, ops[0]), ops[1..]);
    }
  }

  lemma IndexMatchesSessions(ops: seq<Op>, id: string, user: nat)
    requires LegalRun(Empty, ops)
    ensures var t := Run(Empty, ops);
      multiset(ListOf(t.userIndex, user))[id] == if id in t.sessions && t.sessions[id].user == user then 1 else 0
  {
    RunKeepsInv(Empty, ops);
    var t := Run(Empty, ops);
    var list := ListOf(t.userIndex, user);
    assert ExactSessionsOf(t.sessions, user, list);
    NoDuplicatesMultiset(list);
  }

  // ---------------------------------------------------------------- expiry is final

  /** No operation of the run looks at a clock before t. */
  predicate After(ops: seq<Op>, t: int) {
    forall i :: 0 <= i < |ops| ==>
      match ops[i]
      case OpCreate(_, _, _, now) => t <= now
      case OpGet(_, now) => t <= now
      case OpRefresh(_, now) => t <= now
      case OpCleanup(now) => t <= now
      case OpDestroy(_) => true
      case OpDestroyAll(_) => true
      case OpDuration(_) => true
  }

  /** The id is not drawn again for a new session. */
  predicate NotReissued(ops: seq<Op>, id: string) {
    forall i :: 0 <= i < |ops| && ops[i].OpCreate? ==> ops[i].id != id
  }

  /** A session that is gone or expired at time t is never answered again, whatever happens later. */
  lemma {:induction false} ExpiredForGood(s: State, ops: seq<Op>, id: string, t: int, now: int)
    requires NotReissued(ops, id) && After(ops, t) && t <= now && !Answers(s, id, t)
    ensures !Answers(Run(s, ops), id, now)
    decreases |ops|
  {
    if ops != [] {
      var u := Apply(s, ops[0]);
      assert !Answers(u, id, t);
      assert After(ops[1..], t) && NotReissued(ops[1..], id) by {
        forall i | 0 <= i < |ops[1..]| ensures ops[1..][i] == ops[i + 1] {}
      }
      ExpiredForGood(u, ops[1..], id, t, now);
    }
  }
}
