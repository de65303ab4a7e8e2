/** The session manager with its two maps updated in place; the caller supplies fresh ids and the time. */
module SessionManagers {
  import opened Results
  import opened Sequences
  import opened SessionModel

  class SessionManager {
    var sessions: map<string, Session>
    var userSessionIndex: map<nat, seq<string>>
    var defaultDuration: int

    ghost function State(): State
      reads this
    {
      SessionModel.State(sessions, userSessionIndex, defaultDuration)
    }

    /** Sessions and index agree. */
    ghost predicate Valid()
      reads this
    {
      Inv(State())
    }

    constructor ()
      ensures State() == Empty && Valid()
    {
      sessions, userSessionIndex, defaultDuration := map[], map[], DAY;
    }

    method CreateSession(id: string, user: nat, persistent: bool, now: int)
      requires Valid()
      modifies this
      ensures State() == Create(old(State()), id, user, persistent, now)
      ensures Valid() <==> id !in old(sessions)
    {
      CreateSafeIff(State(), id, user, persistent, now);
      var session := Session(user, now + DAY, now);
      if !persistent {
        session := session.(expiresAt := now + defaultDuration);
      }
      sessions := sessions[id := session];
      userSessionIndex := userSessionIndex[user := ListOf(userSessionIndex, user) + [id]];
    }

    method DestroySession(id: string) returns (r: Outcome)
      requires Valid()
      modifies this
      ensures Valid() && State() == Destroy(old(State()), id)
      ensures r == if id in old(sessions) then Ok(()) else Error(AuthRequired)
    {
      DestroyKeepsInv(State(), id);
      if id !in sessions {
        return Error(AuthRequired);
      }
      EraseSession(id);
      return Ok(());
    }

    method DestroyAllUserSessions(user: nat)
      requires Valid()
      modifies this
      ensures Valid() && State() == DestroyAll(old(State()), user)
      ensures forall id :: id in sessions <==> id in old(sessions) && old(sessions)[id].user != user
    {
      DestroyAllKeepsInv(State(), user);
      if user !in userSessionIndex {
        return;
      }
      var ids := userSessionIndex[user];
      ghost var start := sessions;
      for i := 0 to |ids|
        invariant sessions == start - (set id | id in ids[..i]) && userSessionIndex == old(userSessionIndex)
        invariant defaultDuration == old(defaultDuration)
      {
        assert ids[..i + 1] == ids[..i] + [ids[i]];
        sessions := sessions - {ids[i]};
      }
      assert ids[..|ids|] == ids;
      userSessionIndex := userSessionIndex - {user};
    }

    /** An expired session is refused but stays stored until the cleanup. */
    method GetSession(id: string, now: int) returns (r: Result<Session>)
      requires Valid()
      modifies this
      ensures Valid() && State() == Get(old(State()), id, now)
      ensures r.Ok? <==> Answers(old(State()), id, now)
      ensures r.Ok? ==> id in sessions && r.value == sessions[id]
      ensures r.Error? ==> r.code == AuthRequired
    {
      StepKeepsInv(State(), OpGet(id, now));
      if id !in sessions {
        return Error(AuthRequired);
      }
      if sessions[id].IsExpired(now) {
        return Error(AuthRequired);
      }
      sessions := sessions[id := sessions[id].(lastActivity := now)];
      return Ok(sessions[id]);
    }

    method RefreshSession(id: string, now: int) returns (r: Outcome)
      requires Valid()
      modifies this
      ensures Valid() && State() == Refresh(old(State()), id, now)
      ensures r == if Answers(old(State()), id, now) then Ok(()) else Error(AuthRequired)
    {
      StepKeepsInv(State(), OpRefresh(id, now));
      var found := GetSession(id, now);
      if found.Error? {
        return Error(found.code);
      }
      sessions := sessions[id := sessions[id].(expiresAt := now + defaultDuration)];
      return Ok(());
    }

    /** Exactly the unexpired sessions stay. */
    method CleanupExpiredSessions(now: int)
      requires Valid()
      modifies this
      ensures Valid() && State() == Cleanup(old(State()), now)
      ensures forall id :: id in sessions <==> id in old(sessions) && !old(sessions)[id].IsExpired(now)
    {
      ghost var start := State();
      PurgeKeepsInv(start, ExpiredIds(start, now));
      var expired := CollectExpired(now);
      PurgeNothing(start);
      ghost var gone: set<string> := {};
      for i := 0 to |expired|
        invariant State() == Purge(start, gone)
        invariant forall id :: id in gone <==> id in expired[..i]
      {
        var id := expired[i];
        assert expired[..i + 1] == expired[..i] + [id];
        assert id in expired && id !in expired[..i];
        PurgeOneMore(start, gone, id);
        EraseSession(id);
        gone := gone + {id};
      }
      assert expired[..|expired|] == expired;
      assert gone == ExpiredIds(start, now);
    }

    /** The two erasures that destroy_session and the cleanup share. */
    method EraseSession(id: string)
      requires id in sessions
      modifies `sessions, `userSessionIndex
      ensures State() == Destroy(old(State()), id)
    {
      var user := sessions[id].user;
      sessions := sessions - {id};
      userSessionIndex := userSessionIndex[user := Without(ListOf(userSessionIndex, user), id)];
    }

    method CollectExpired(now: int) returns (expired: seq<string>)
      ensures NoDuplicates(expired)
      ensures forall id :: id in expired <==> id in ExpiredIds(State(), now)
    {
      expired := [];
      var rest := sessions.Keys;
      while rest != {}
        invariant rest <= sessions.Keys && NoDuplicates(expired)
        invariant forall id :: id in expired <==> id in ExpiredIds(State(), now) && id !in rest
        decreases rest
      {
        var id :| id in rest;
        rest := rest - {id};
        if sessions[id].IsExpired(now) {
          expired := expired + [id];
        }
      }
    }

    method SetDefaultSessionDuration(seconds: int)
      requires Valid()
      modifies `defaultDuration
      ensures Valid() && State() == old(State()).(duration := seconds)
    {
      defaultDuration := seconds;
    }
  }

  lemma PurgeNothing(s: State)
    ensures Purge(s, {}) == s
  {
    forall u | u in s.userIndex ensures Keep(s.userIndex[u], {}) == s.userIndex[u] { KeepAll(s.userIndex[u]); }
    assert s.sessions - {} == s.sessions;
  }

  /** Erasing one more session only touches the list of its own user. */
  lemma PurgeOneMore(s: State, gone: set<string>, id: string)
    requires Inv(s) && id in s.sessions && id !in gone
    ensures id in Purge(s, gone).sessions && Purge(s, gone + {id}) == Destroy(Purge(s, gone), id)
  {
    var user := s.sessions[id].user;
    assert ExactSessionsOf(s.sessions, user, ListOf(s.userIndex, user));
    KeepOneLess(s.userIndex[user], gone, id);
    forall u | u in s.userIndex && u != user ensures Keep(s.userIndex[u], gone + {id}) == Keep(s.userIndex[u], gone) {
      assert ExactSessionsOf(s.sessions, u, ListOf(s.userIndex, u));
      KeepSame(s.userIndex[u], gone, gone + {id});
    }
    assert s.sessions - (gone + {id}) == s.sessions - gone - {id};
    var a, b := Purge(s, gone + {id}).userIndex, Destroy(Purge(s, gone), id).userIndex;
    assert a == b;
  }
}
