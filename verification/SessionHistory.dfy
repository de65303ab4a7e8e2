/** The sessions are one map with expiry times, read from the calls alone. */
module SessionHistory {
  import opened Results
  import opened Sequences
  import opened SessionModel

  /** Whose session it is, until when it lasts, and when it was last used. */
  datatype Pass = Pass(user: nat, until: int, lastUsed: int)

  /** The sessions handed out and not ended, and the length of new ones. */
  datatype View = View(passes: map<string, Pass>, duration: int)

  function Tell(v: View, op: Op): View {
    match op
    case OpCreate(id, user, persistent, now) =>
      v.(passes := v.passes[id := Pass(user, if persistent then now + 86400 else now + v.duration, now)])
    case OpDestroy(id) => v.(passes := v.passes - {id})
    case OpDestroyAll(user) => v.(passes := map id | id in v.passes && v.passes[id].user != user :: v.passes[id])
    case OpGet(id, now) =>
      if id in v.passes && now <= v.passes[id].until
      then v.(passes := v.passes[id := v.passes[id].(lastUsed := now)]) else v
    case OpRefresh(id, now) =>
      if id in v.passes && now <= v.passes[id].until
      then v.(passes := v.passes[id := v.passes[id].(until := now + v.duration, lastUsed := now)]) else v
    case OpCleanup(now) => v.(passes := map id | id in v.passes && now <= v.passes[id].until :: v.passes[id])
    case OpDuration(seconds) => v.(duration := seconds)
  }

  function TellAll(v: View, ops: seq<Op>): View
    decreases |ops|
  {
    if ops == [] then v else TellAll(Tell(v, ops[0]), ops[1..])
  }

  predicate Matches(s: State, v: View) {
    && s.duration == v.duration && s.sessions.Keys == v.passes.Keys
    && forall id :: id in s.sessions ==>
         s.sessions[id] == Session(v.passes[id].user, v.passes[id].until, v.passes[id].lastUsed)
  }

  lemma StepMatches(s: State, op: Op, v: View)
    requires Inv(s) && Matches(s, v)
    ensures Matches(Apply(s, op), Tell(v, op))
  {
    match op
    case OpDestroyAll(user) => DestroyAllKeepsInv(s, user);
    case OpCreate(_, _, _, _) =>
    case OpDestroy(_) =>
    case OpGet(_, _) =>
    case OpRefresh(_, _) =>
    case OpCleanup(_) =>
    case OpDuration(_) =>
  }

  lemma {:induction false} RunMatches(s: State, ops: seq<Op>, v: View)
    requires Inv(s) && LegalRun(s, ops) && Matches(s, v)
    ensures Matches(Run(s, ops), TellAll(v, ops))
    decreases |ops|
  {
    if ops != [] {
      StepMatches(s, ops[0], v);
      StepKeepsInv(s, ops[0]);
      RunMatches(Apply(s, ops[0]), ops[1..], Tell(v, ops[0]));
    }
  }

  /**
   After every run that draws no live id: the sessions are those created and not destroyed, alone or
   with all sessions of their user, nor cleaned up after their end; get and refresh answer exactly up
   to and including that end, which is 86400 seconds after a persistent creation and the duration set
   last after any other creation or a refresh. The index lists each under its user.
   */
  lemma SessionsAsTold(ops: seq<Op>, id: string, now: int)
    requires LegalRun(Empty, ops)
    ensures var s := Run(Empty, ops); var v := TellAll(View(map[], 86400), ops);
      && (id in s.sessions <==> id in v.passes)
      && (id in s.sessions ==>
        s.sessions[id].user == v.passes[id].user && s.sessions[id].lastActivity == v.passes[id].lastUsed)
      && (Answers(s, id, now) <==> id in v.passes && now <= v.passes[id].until)
      && forall user :: id in ListOf(s.userIndex, user) <==> id in v.passes && v.passes[id].user == user
  {
    RunMatches(Empty, ops, View(map[], 86400));
    RunKeepsInv(Empty, ops);
    var s := Run(Empty, ops);
    forall user ensures id in ListOf(s.userIndex, user) <==> id in s.sessions && s.sessions[id].user == user {
      assert ExactSessionsOf(s.sessions, user, ListOf(s.userIndex, user));
    }
  }

  /** A refresh that is answered makes the session last exactly the duration from then on. */
  lemma RefreshThenGet(s: State, id: string, now: int, later: int)
    requires Answers(s, id, now)
    ensures Answers(Refresh(s, id, now), id, later) <==> later <= now + s.duration
  {
  }
}
