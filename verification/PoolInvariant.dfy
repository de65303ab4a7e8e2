/** The pool invariant, kept by every step of every disciplined run. */
module PoolInvariant {
  import opened Results
  import opened Sequences
  import opened PoolModel
  import C = ConnectionModel

  predicate Disjoint(a: seq<nat>, b: seq<nat>) {
    forall id :: id in a ==> id !in b
  }

  predicate Lists(s: State) {
    && NoDuplicates(s.available) && NoDuplicates(s.busy) && Disjoint(s.available, s.busy)
    && (forall id :: id in s.available ==> id in s.conns)
    && (forall id :: id in s.busy ==> id in s.conns)
    && (forall id :: id in s.conns ==> id < s.nextConn)
    && (!s.hostOk ==> s.conns == map[])
  }

  /** A pooled connection is open for business: linked, and no transaction left in it. */
  predicate Clean(c: C.Conn) {
    c.link.CONNECTED? && !c.inTransaction
  }

  predicate Conns(s: State) {
    && (forall id :: id in s.conns ==> C.ConnInv(s.conns[id]))
    && (forall id :: id in s.available ==> id in s.conns && Clean(s.conns[id]))
  }

  /** Nobody's connection: neither pooled, nor held, nor used by a transaction object. */
  predicate Free(s: State, id: nat) {
    id in s.conns && id !in s.available && id !in s.held
    && forall t :: t in s.txns ==> s.txns[t].conn != Some(id)
  }

  predicate Owners(s: State) {
    && (forall id :: id in s.held ==> id in s.conns && id !in s.available)
    && (forall t :: t in s.txns && s.txns[t].conn.Some? ==>
          var id := s.txns[t].conn.value; id in s.conns && id !in s.available && id !in s.held)
    && (forall t, u :: t in s.txns && u in s.txns && t != u && s.txns[t].conn.Some? ==>
      s.txns[t].conn != s.txns[u].conn)
  }

  /** A connection used by a transaction object: at most one level deep, and open only while the object is active. */
  predicate TxnConn(x: Txn, c: C.Conn) {
    && c.depth <= 1
    && (c.inTransaction ==> x.active)
    && (forall name :: name in c.savepoints ==> c.savepoints[name] == 1)
  }

  predicate Txns(s: State) {
    forall t :: t in s.txns ==>
      var x := s.txns[t];
      && (x.active ==> x.conn.Some?)
      && (x.conn.Some? && x.conn.value in s.conns ==> TxnConn(x, s.conns[x.conn.value]))
  }

  predicate Inv(s: State) {
    Lists(s) && Conns(s) && Owners(s) && Txns(s)
  }

  // ---------------------------------------------------------------- primitives

  lemma GetKeepsInv(s: State, now: int)
    requires Inv(s)
    ensures var (t, id) := GetConnection(s, now);
      Inv(t) && t.txns == s.txns && t.held == s.held && t.hostOk == s.hostOk
      && (id.Some? ==> Free(t, id.value) && Clean(t.conns[id.value]))
  {
    if s.available != [] {
      var n := |s.available| - 1;
      var id := s.available[n];
      assert id in s.available && id !in s.available[..n];
      forall x | x in s.available[..n] ensures x in s.available {}
      AppendDistinct(s.busy, id);
    } else {
      assert s.nextConn !in s.busy;
      AppendDistinct(s.busy, s.nextConn);
    }
  }

  /**
   Releasing a connection nobody else uses keeps the pool clean exactly when it is not pooled with an open
   transaction.
   */
  lemma ReleaseCleanIff(s: State, id: nat)
    requires Inv(s) && Free(s, id)
    ensures Inv(Release(s, id)) <==> (s.conns[id].inTransaction ==> !Returns(s, id))
    ensures Release(s, id).txns == s.txns && Release(s, id).held == s.held
  {
    EraseFirstDistinct(s.busy, id);
    var t := Release(s, id);
    if Returns(s, id) {
      assert id in t.available;
      assert Lists(t) && Owners(t) && Txns(t);
    } else {
      assert Lists(t) && Conns(t) && Owners(t) && Txns(t);
    }
  }

  /** Using a connection that is neither pooled nor in a transaction object touches nothing else. */
  lemma UseKeepsInv(s: State, id: nat, op: C.Op)
    requires Inv(s) && id !in s.available && forall t :: t in s.txns ==> s.txns[t].conn != Some(id)
    ensures Inv(OnConn(s, id, op))
  {
  }

  // ---------------------------------------------------------------- transaction objects

  /** Beginning a transaction object keeps the invariant, even a second time and after a commit. */
  lemma BeginKeepsInv(s: State, t: nat, now: int)
    requires Inv(s) && t in s.txns
    ensures Inv(TxnBegin(s, t, now))
  {
    GetKeepsInv(s, now);
    var (u, id) := GetConnection(s, now);
    if id.Some? {
      UseKeepsInv(u, id.value, C.OpBegin);
      BegunTxn(OnConn(u, id.value, C.OpBegin), t, id.value);
    } else {
      assert s.conns == map[];
    }
  }

  /** Handing a free connection with a fresh transaction to an object. */
  lemma BegunTxn(s: State, t: nat, id: nat)
    requires Inv(s) && t in s.txns && Free(s, id)
    requires s.conns[id].depth == 1 && s.conns[id].savepoints == map[]
    ensures Inv(s.(txns := s.txns[t := s.txns[t].(conn := Some(id), active := true)]))
  {
    var u := s.(txns := s.txns[t := s.txns[t].(conn := Some(id), active := true)]);
    assert TxnConn(u.txns[t], u.conns[id]);
    assert Owners(u);
    assert Txns(u);
  }

  lemma TxnUseKeepsInv(s: State, t: nat, op: C.Op)
    requires Inv(s) && t in s.txns && (op.OpSavepoint? || op.OpRollbackTo? || op.OpExecute?)
    ensures Inv(TxnOnConn(s, t, op))
  {
    var u := TxnOnConn(s, t, op);
    if s.txns[t].conn.Some? {
      var id := s.txns[t].conn.value;
      assert TxnConn(s.txns[t], u.conns[id]);
      forall j | j in s.txns && j != t ensures s.txns[j].conn != Some(id) {}
    }
  }

  lemma CommitKeepsInv(s: State, t: nat)
    requires Inv(s) && t in s.txns
    ensures Inv(TxnCommit(s, t))
  {
    var x := s.txns[t];
    if x.active && x.conn.Some? && Open(s, x.conn.value) {
      var u := TxnCommit(s, t);
      assert TxnConn(s.txns[t], s.conns[x.conn.value]);
      assert !u.conns[x.conn.value].inTransaction;
    }
  }

  lemma RollbackKeepsInv(s: State, t: nat)
    requires Inv(s) && t in s.txns
    ensures Inv(TxnRollback(s, t))
    ensures s.txns[t].conn.Some? ==>
      TxnRollback(s, t).txns[t].conn == s.txns[t].conn && !Open(TxnRollback(s, t), s.txns[t].conn.value)
  {
    var x := s.txns[t];
    if x.conn.Some? { assert TxnConn(x, s.conns[x.conn.value]); }
  }

  /**
   The destructor keeps the pool clean unless the object is active again after a commit and its
   open connection is one that the pool takes back.
   */
  lemma DestroyCleanIff(s: State, t: nat)
    requires Inv(s) && t in s.txns
    ensures Inv(TxnDestroy(s, t)) <==> !Leaks(s, t)
    ensures Leaks(s, t) ==>
      var id := s.txns[t].conn.value; id in TxnDestroy(s, t).available && Open(TxnDestroy(s, t), id)
  {
    var x := s.txns[t];
    var u := if x.active && !x.committed then TxnRollback(s, t) else s;
    if x.active && !x.committed { RollbackKeepsInv(s, t); }
    var without := u.(txns := s.txns - {t});
    assert Inv(without);
    if x.conn.Some? {
      var id := x.conn.value;
      assert TxnConn(u.txns[t], u.conns[id]);
      assert Open(u, id) ==> x.active && x.committed;
      assert Free(without, id);
      ReleaseCleanIff(without, id);
      assert TxnDestroy(s, t) == Release(without, id);
    }
  }

  // ---------------------------------------------------------------- closing many

  lemma CloseKeepsInv(s: State, ids: set<nat>, available: seq<nat>, busy: seq<nat>)
    requires Inv(s)
    requires NoDuplicates(available) && NoDuplicates(busy) && Disjoint(available, busy)
    requires forall id :: id in available ==> id in s.available && id !in ids
    requires forall id :: id in busy ==> id in s.busy
    ensures Inv(s.(conns := Close(s.conns, ids), available := available, busy := busy))
  {
    var t := s.(conns := Close(s.conns, ids), available := available, busy := busy);
    assert t.conns.Keys == s.conns.Keys;
  }

  lemma {:induction false} FreshDistinct(s: State, list: seq<nat>, now: int)
    requires NoDuplicates(list) && forall id :: id in list ==> id in s.conns
    ensures NoDuplicates(Fresh(s, list, now))
  {
    if list != [] {
      assert list[0] !in list[1..];
      FreshDistinct(s, list[1..], now);
    }
  }

  /** A connection used by execute or ping stays pooled for 300 seconds after that use, and no longer. */
  lemma UsedConnectionKept(s: State, now: int, ping: bool, later: int)
    requires Inv(s) && GetConnection(s, now).1.Some? && |GetConnection(s, now).0.available| < s.max
    ensures var (t, id) := GetConnection(s, now); var u := OneShot(s, now, ping);
      && Inv(u) && u.available == t.available + [id.value] && u.busy == s.busy
      && (id.value in CheckConnections(u, later).available <==> later - now <= 300)
  {
    GetKeepsInv(s, now);
    TakenLast(s, now);
    var (t, id) := GetConnection(s, now);
    UsedOnce(t, id.value, now, ping, later);
  }

  lemma UsedOnce(t: State, id: nat, now: int, ping: bool, later: int)
    requires Inv(t) && Free(t, id) && Clean(t.conns[id]) && |t.available| < t.max
    ensures var op := if ping then C.OpPing(now) else C.OpExecute(t.hostOk, now);
      id in OnConn(t, id, op).conns
    ensures var op := if ping then C.OpPing(now) else C.OpExecute(t.hostOk, now);
      var u := Release(OnConn(t, id, op), id);
      && Inv(u) && u.available == t.available + [id] && u.busy == EraseFirst(t.busy, id)
      && (id in CheckConnections(u, later).available <==> later - now <= 300)
  {
    var op := if ping then C.OpPing(now) else C.OpExecute(t.hostOk, now);
    OneUse(t, id, op);
    var u := Release(OnConn(t, id, op), id);
    assert id in u.available && u.conns[id].lastUsed == now;
    IdleSince(u, id, now, later);
  }

  lemma TakenLast(s: State, now: int)
    requires Inv(s) && GetConnection(s, now).1.Some?
    ensures var (t, id) := GetConnection(s, now); EraseFirst(t.busy, id.value) == s.busy
  {
    if s.available != [] { assert s.available[|s.available| - 1] in s.available; }
    EraseLast(s.busy, GetConnection(s, now).1.value);
  }

  lemma IdleSince(s: State, id: nat, used: int, now: int)
    requires Inv(s) && id in s.available && s.conns[id].lastUsed == used
    ensures id in CheckConnections(s, now).available <==> now - used <= 300
  {
  }

  // ---------------------------------------------------------------- runs

  lemma OneUse(s: State, id: nat, op: C.Op)
    requires Inv(s) && Free(s, id) && Clean(s.conns[id]) && (op.OpPing? || op.OpExecute?)
    ensures id in OnConn(s, id, op).conns && Inv(Release(OnConn(s, id, op), id))
  {
    UseKeepsInv(s, id, op);
    assert !OnConn(s, id, op).conns[id].inTransaction;
    ReleaseCleanIff(OnConn(s, id, op), id);
  }

  lemma OneShotKeepsInv(s: State, now: int, ping: bool)
    requires Inv(s)
    ensures Inv(OneShot(s, now, ping))
  {
    GetKeepsInv(s, now);
    var (t, id) := GetConnection(s, now);
    if id.Some? {
      var op := if ping then C.OpPing(now) else C.OpExecute(s.hostOk, now);
      OneUse(t, id.value, op);
    }
  }

  lemma GiveSafeIff(s: State, id: nat)
    requires Inv(s) && Allowed(s, OpGive(id))
    ensures Inv(Apply(s, OpGive(id))) <==> Legal(s, OpGive(id))
  {
    var t := s.(held := s.held - {id});
    assert Inv(t);
    ReleaseCleanIff(t, id);
    assert Apply(s, OpGive(id)) == Release(t, id);
  }

  lemma NewTxnKeepsInv(s: State, t: nat)
    requires Inv(s) && t !in s.txns
    ensures Inv(s.(txns := s.txns[t := NewTxn]))
  {
  }

  lemma CheckKeepsInv(s: State, now: int)
    requires Inv(s)
    ensures Inv(CheckConnections(s, now))
  {
    FreshDistinct(s, s.available, now);
    CloseKeepsInv(s, (set id | id in s.available && IsIdle(s, id, now)), Fresh(s, s.available, now), s.busy);
  }

  lemma ShutdownKeepsInv(s: State)
    requires Inv(s)
    ensures Inv(Shutdown(s))
  {
    CloseKeepsInv(s, (set id | id in s.available) + set id | id in s.busy, [], []);
  }

  /** The discipline is exact: a step breaks the invariant precisely when it is not disciplined. */
  lemma StepSafeIff(s: State, op: Op)
    requires Inv(s) && Allowed(s, op)
    ensures Inv(Apply(s, op)) <==> Legal(s, op)
  {
    if op.OpGive? {
      GiveSafeIff(s, op.id);
    } else if op.OpDestroyTxn? {
      DestroyCleanIff(s, op.t);
    } else {
      StepKeepsInv(s, op);
    }
  }

  lemma StepKeepsInv(s: State, op: Op)
    requires Inv(s) && Legal(s, op)
    ensures Inv(Apply(s, op))
  {
    match op
    case OpNewTxn(t) => NewTxnKeepsInv(s, t);
    case OpBegin(t, now) => BeginKeepsInv(s, t, now);
    case OpCommit(t) => CommitKeepsInv(s, t);
    case OpRollback(t) => RollbackKeepsInv(s, t);
    case OpSavepoint(t, name) => TxnUseKeepsInv(s, t, C.OpSavepoint(name));
    case OpRollbackTo(t, name) => TxnUseKeepsInv(s, t, C.OpRollbackTo(name));
    case OpTxnExecute(t, now) => TxnUseKeepsInv(s, t, C.OpExecute(s.hostOk, now));
    case OpDestroyTxn(t) => DestroyCleanIff(s, t);
    case OpOneShot(now, ping) => OneShotKeepsInv(s, now, ping);
    case OpTake(now) => GetKeepsInv(s, now);
    case OpUseHeld(id, use) => UseKeepsInv(s, id, use);
    case OpGive(id) => GiveSafeIff(s, id);
    case OpCheck(now) => CheckKeepsInv(s, now);
    case OpSetMax(_) =>
    case OpShutdown => ShutdownKeepsInv(s);
  }

  lemma {:induction false} RunKeepsInv(s: State, ops: seq<Op>)
    requires Inv(s) && LegalRun(s, ops)
    ensures Inv(Run(s, ops))
    decreases |ops|
  {
    if ops != [] {
      StepSafeIff(s, ops[0]);
      RunKeepsInv(Apply(s, ops[0]), ops[1..]);
    }
  }

  /**
   On every disciplined run, shutdowns included, no connection is pooled twice or both pooled and
   busy, a pooled connection is linked and has no transaction and no savepoint left in it, and no
   two users share a connection.
   */
  lemma PooledConnectionsAreClean(max: nat, hostOk: bool, ops: seq<Op>, id: nat)
    requires LegalRun(Empty(max, hostOk), ops)
    ensures var t := Run(Empty(max, hostOk), ops);
      && NoDuplicates(t.available) && NoDuplicates(t.busy) && Disjoint(t.available, t.busy)
      && (id in t.available ==>
            id in t.conns && t.conns[id].link.CONNECTED? && t.conns[id].depth == 0 && t.conns[id].savepoints == map[]
            && id !in t.held && forall x :: x in t.txns ==> t.txns[x].conn != Some(id))
  {
    RunKeepsInv(Empty(max, hostOk), ops);
  }

  // ---------------------------------------------------------------- the size of the pool

  /**
   No step but a change of the limit takes the pool above its limit, and below it a linked connection is taken
   back.
   */
  lemma PoolWithinLimit(s: State, op: Op)
    requires Inv(s) && Allowed(s, op) && !op.OpSetMax? && |s.available| <= s.max
    ensures |Apply(s, op).available| <= Apply(s, op).max == s.max
  {
    match op
    case OpCheck(now) => FreshShorter(s, s.available, now);
    case _ =>
  }

  lemma {:induction false} FreshShorter(s: State, list: seq<nat>, now: int)
    requires forall id :: id in list ==> id in s.conns
    ensures |Fresh(s, list, now)| <= |list|
  {
    if list != [] { FreshShorter(s, list[1..], now); }
  }

  lemma {:induction false} RunWithinLimit(s: State, ops: seq<Op>)
    requires Inv(s) && LegalRun(s, ops) && |s.available| <= s.max
    requires forall i :: 0 <= i < |ops| ==> !ops[i].OpSetMax?
    ensures |Run(s, ops).available| <= s.max
    decreases |ops|
  {
    if ops != [] {
      StepSafeIff(s, ops[0]);
      PoolWithinLimit(s, ops[0]);
      RunWithinLimit(Apply(s, ops[0]), ops[1..]);
    }
  }

  /**
   Shutting down empties both lists and leaves every connection in them unlinked, without a transaction or a
   savepoint.
   */
  lemma ShutdownCloses(s: State, id: nat)
    requires Inv(s) && (id in s.available || id in s.busy)
    ensures var t := Shutdown(s);
      && t.available == [] && t.busy == [] && id in t.conns
      && t.conns[id].link.DISCONNECTED? && t.conns[id].depth == 0 && t.conns[id].savepoints == map[]
  {
  }

  /** The idle check unlinks exactly the pooled connections it drops; it touches no other one. */
  lemma CheckCloses(s: State, now: int, id: nat)
    requires Inv(s) && id in s.conns
    ensures var t := CheckConnections(s, now);
      && id in t.conns && t.busy == s.busy
      && (id in t.available <==> id in s.available && now - s.conns[id].lastUsed <= 300)
      && if id in s.available && id !in t.available then t.conns[id].link.DISCONNECTED? else t.conns[id] == s.conns[id]
  {
  }

  /** A connection given back is pooled exactly if it is linked and fewer than the limit are pooled. */
  lemma GivenBackIff(s: State, id: nat)
    requires Inv(s) && Free(s, id)
    ensures id in Release(s, id).available <==> s.conns[id].link.CONNECTED? && |s.available| < s.max
  {
  }

  // ---------------------------------------------------------------- no connection is stranded

  /** Every busy connection is in somebody's hands and will come back. */
  predicate Accounted(s: State) {
    forall id :: id in s.busy ==> id in s.held || UsedByTxn(s, id)
  }

  predicate UsedByTxn(s: State, id: nat) {
    exists t :: t in s.txns && s.txns[t].conn == Some(id)
  }

  /** Beginning an object that has a busy connection, and only that, strands a connection. */
  lemma BeginStrandsIff(s: State, t: nat, now: int)
    requires Inv(s) && Accounted(s) && t in s.txns
    ensures Accounted(TxnBegin(s, t, now)) <==> !(s.txns[t].conn.Some? && s.txns[t].conn.value in s.busy)
  {
    var u := TxnBegin(s, t, now);
    var (_, got) := GetConnection(s, now);
    forall j | j in s.txns && j != t ensures u.txns[j] == s.txns[j] {}
    if s.txns[t].conn.Some? && s.txns[t].conn.value in s.busy {
      var id := s.txns[t].conn.value;
      assert id in u.busy && id !in u.held && !UsedByTxn(u, id);
    } else {
      forall id | id in u.busy ensures id in u.held || UsedByTxn(u, id) {
        if got == Some(id) {
          assert u.txns[t].conn == Some(id);
        } else if id !in s.held {
          var j :| j in s.txns && s.txns[j].conn == Some(id);
          assert j in u.txns && u.txns[j].conn == Some(id);
        }
      }
    }
  }

  lemma ReleaseKeepsAccounted(s: State, id: nat, txns: map<nat, Txn>, held: set<nat>)
    requires Inv(s) && id in s.conns
    requires forall x :: x in s.busy && x != id ==> x in held || UsedByTxn(s.(txns := txns), x)
    ensures Accounted(Release(s, id).(txns := txns, held := held))
  {
    EraseFirstDistinct(s.busy, id);
    var u := Release(s, id).(txns := txns, held := held);
    forall x | x in u.busy ensures x in u.held || UsedByTxn(u, x) {
      if x !in held {
        var t :| t in txns && txns[t].conn == Some(x);
        assert t in u.txns && u.txns[t].conn == Some(x);
      }
    }
  }

  lemma DestroyKeepsAccounted(s: State, t: nat)
    requires Inv(s) && Accounted(s) && t in s.txns
    ensures Accounted(TxnDestroy(s, t))
  {
    var x := s.txns[t];
    var u := if x.active && !x.committed then TxnRollback(s, t) else s;
    if x.active && !x.committed { RollbackKeepsInv(s, t); }
    var rest := s.txns - {t};
    forall id | id in s.busy && x.conn != Some(id) && id !in s.held ensures UsedByTxn(u.(txns := rest), id) {
      var j :| j in s.txns && s.txns[j].conn == Some(id);
      assert j in rest && rest[j].conn == Some(id);
    }
    if x.conn.Some? { ReleaseKeepsAccounted(u, x.conn.value, rest, u.held); }
  }

  lemma OneShotKeepsAccounted(s: State, now: int, ping: bool)
    requires Inv(s) && Accounted(s)
    ensures Accounted(OneShot(s, now, ping))
  {
    GetKeepsInv(s, now);
    var (t, id) := GetConnection(s, now);
    if id.Some? {
      var u := OnConn(t, id.value, if ping then C.OpPing(now) else C.OpExecute(s.hostOk, now));
      UseKeepsInv(t, id.value, if ping then C.OpPing(now) else C.OpExecute(s.hostOk, now));
      forall x | x in u.busy && x != id.value && x !in u.held ensures UsedByTxn(u, x) {
        assert UsedByTxn(s, x);
      }
      ReleaseKeepsAccounted(u, id.value, u.txns, u.held);
    }
  }

  /** Each object takes a connection at most once. */
  predicate BeginsOnce(s: State, op: Op) {
    op.OpBegin? && op.t in s.txns ==> s.txns[op.t].conn.None?
  }

  /** The connections of the objects stay what they are. */
  lemma SameConns(s: State, u: State)
    requires Accounted(s) && u.busy == s.busy && s.held <= u.held && s.txns.Keys <= u.txns.Keys
    requires forall t :: t in s.txns ==> u.txns[t].conn == s.txns[t].conn
    ensures Accounted(u)
  {
    forall id | id in u.busy && id !in u.held ensures UsedByTxn(u, id) {
      var t :| t in s.txns && s.txns[t].conn == Some(id);
      assert t in u.txns && u.txns[t].conn == Some(id);
    }
  }

  lemma StepKeepsAccounted(s: State, op: Op)
    requires Inv(s) && Accounted(s) && Allowed(s, op) && BeginsOnce(s, op)
    ensures Accounted(Apply(s, op))
  {
    match op
    case OpBegin(t, now) => BeginStrandsIff(s, t, now);
    case OpDestroyTxn(t) => DestroyKeepsAccounted(s, t);
    case OpOneShot(now, ping) => OneShotKeepsAccounted(s, now, ping);
    case OpTake(now) => TakeKeepsAccounted(s, now);
    case OpGive(id) =>
      forall x | x in s.busy && x != id && x !in s.held - {id} ensures UsedByTxn(s, x) {}
      ReleaseKeepsAccounted(s, id, s.txns, s.held - {id});
    case OpShutdown =>
    case _ => SameConns(s, Apply(s, op));
  }

  lemma TakeKeepsAccounted(s: State, now: int)
    requires Inv(s) && Accounted(s)
    ensures Accounted(Take(s, now))
  {
    var u := Take(s, now);
    forall x | x in u.busy && x !in u.held ensures UsedByTxn(u, x) {
      assert UsedByTxn(s, x);
    }
  }

  ghost predicate OnceRun(s: State, ops: seq<Op>)
    requires LegalRun(s, ops)
    decreases |ops|
  {
    ops == [] || (BeginsOnce(s, ops[0]) && OnceRun(Apply(s, ops[0]), ops[1..]))
  }

  /** On disciplined runs that begin each object at most once, every busy connection has an owner. */
  lemma {:induction false} NoneStranded(s: State, ops: seq<Op>)
    requires Inv(s) && Accounted(s) && LegalRun(s, ops) && OnceRun(s, ops)
    ensures Accounted(Run(s, ops))
    decreases |ops|
  {
    if ops != [] {
      StepSafeIff(s, ops[0]);
      StepKeepsAccounted(s, ops[0]);
      NoneStranded(Apply(s, ops[0]), ops[1..]);
    }
  }

  // ---------------------------------------------------------------- beginning once is enough

  /** Nobody is active again after a commit. */
  predicate NoneReopened(s: State) {
    forall t :: t in s.txns && s.txns[t].active ==> !s.txns[t].committed
  }

  /** A rule on begin alone: an object that has committed is not begun again. */
  predicate Careful(s: State, op: Op) {
    && Allowed(s, op)
    && (op.OpGive? ==> s.conns[op.id].inTransaction ==> !Returns(s, op.id))
    && (op.OpBegin? ==> !s.txns[op.t].committed)
  }

  ghost predicate CarefulRun(s: State, ops: seq<Op>)
    decreases |ops|
  {
    ops == [] || (Careful(s, ops[0]) && CarefulRun(Apply(s, ops[0]), ops[1..]))
  }

  /** Callers who keep to that rule never destroy an object that leaks. */
  lemma {:induction false} CarefulIsLegal(s: State, ops: seq<Op>)
    requires NoneReopened(s) && CarefulRun(s, ops)
    ensures LegalRun(s, ops) && NoneReopened(Run(s, ops))
    decreases |ops|
  {
    if ops != [] {
      CarefulStep(s, ops[0]);
      CarefulIsLegal(Apply(s, ops[0]), ops[1..]);
    }
  }

  lemma CarefulStep(s: State, op: Op)
    requires NoneReopened(s) && Careful(s, op)
    ensures Legal(s, op) && NoneReopened(Apply(s, op))
  {
  }

  /** Begun again after a commit, an object puts an open transaction into the pool and strands its first connection. */
  lemma SecondBeginLeaks()
    ensures var s := Apply(Empty(2, true), OpNewTxn(0));
      var again := TxnBegin(TxnCommit(TxnBegin(s, 0, 0), 0), 0, 0);
      var t := TxnDestroy(again, 0);
      t.available == [1] && t.busy == [0] && t.conns[1].inTransaction
  {
    var s := Apply(Empty(2, true), OpNewTxn(0));
    var a := TxnBegin(s, 0, 0);
    assert a.busy == [0] && a.conns[0].inTransaction;
    var b := TxnCommit(a, 0);
    var c := TxnBegin(b, 0, 0);
    assert c.busy == [0, 1] && c.conns[1].inTransaction && c.txns[0].committed;
    assert EraseFirst([0, 1], 1) == [0] + EraseFirst([0, 1][1..], 1);
  }
}
