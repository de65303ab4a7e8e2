/** The connection pool with its users: transaction objects, direct holders, and the manager's one-shot calls. */
module PoolModel {
  import opened Results
  import opened Sequences
  import C = ConnectionModel

  datatype Txn = Txn(conn: Option<nat>, active: bool, committed: bool)

  const NewTxn: Txn := Txn(None, false, false)

  /** held lists the connections that callers took from the pool directly and still hold. */
  datatype State = State(
    conns: map<nat, C.Conn>,
    available: seq<nat>,
    busy: seq<nat>,
    max: nat,
    hostOk: bool,
    txns: map<nat, Txn>,
    held: set<nat>,
    nextConn: nat)

  function Empty(max: nat, hostOk: bool): State {
    State(map[], [], [], max, hostOk, map[], {}, 0)
  }

  // ---------------------------------------------------------------- the pool

  /** get_connection: the most recently returned connection, or a new one if it can be opened. */
  function GetConnection(s: State, now: int): (r: (State, Option<nat>)) {
    if s.available != [] then
      var id := s.available[|s.available| - 1];
      (s.(available := s.available[..|s.available| - 1], busy := s.busy + [id]), Some(id))
    else
      var c := C.Connect(C.NewConn, s.hostOk, now);
      if s.hostOk then
        (s.(conns := s.conns[s.nextConn := c], busy := s.busy + [s.nextConn], nextConn := s.nextConn + 1),
          Some(s.nextConn))
      else (s, None)
  }

  predicate Returns(s: State, id: nat)
    requires id in s.conns
  {
    s.conns[id].link.CONNECTED? && |s.available| < s.max
  }

  /** release_connection: back to the pool if connected and there is room, closed otherwise. */
  function Release(s: State, id: nat): State
    requires id in s.conns
  {
    var t := s.(busy := EraseFirst(s.busy, id));
    if Returns(s, id) then t.(available := s.available + [id])
    else t.(conns := s.conns[id := C.Disconnect(s.conns[id])])
  }

  function IsIdle(s: State, id: nat, now: int): bool
    requires id in s.conns
  {
    now - s.conns[id].lastUsed > C.MAX_IDLE
  }

  function Fresh(s: State, list: seq<nat>, now: int): (r: seq<nat>)
    requires forall id :: id in list ==> id in s.conns
    ensures forall id :: id in r <==> id in list && !IsIdle(s, id, now)
  {
    if list == [] then []
    else if IsIdle(s, list[0], now) then Fresh(s, list[1..], now)
    else [list[0]] + Fresh(s, list[1..], now)
  }

  /** Closes a set of connections. */
  function Close(conns: map<nat, C.Conn>, ids: set<nat>): map<nat, C.Conn> {
    map id | id in conns :: if id in ids then C.Disconnect(conns[id]) else conns[id]
  }

  function CheckConnections(s: State, now: int): State
    requires forall id :: id in s.available ==> id in s.conns
  {
    s.(available := Fresh(s, s.available, now),
       conns := Close(s.conns, set id | id in s.available && IsIdle(s, id, now)))
  }

  function Shutdown(s: State): State {
    s.(available := [], busy := [], conns := Close(s.conns, (set id | id in s.available) + set id | id in s.busy))
  }

  function OnConn(s: State, id: nat, op: C.Op): State {
    if id in s.conns then s.(conns := s.conns[id := C.Apply(s.conns[id], op)]) else s
  }

  // ---------------------------------------------------------------- transactions

  function TxnBegin(s: State, t: nat, now: int): State
    requires t in s.txns
  {
    var (s', id) := GetConnection(s, now);
    if id.None? then s'.(txns := s.txns[t := s.txns[t].(conn := None)])
    else OnConn(s', id.value, C.OpBegin).(txns := s.txns[t := s.txns[t].(conn := id, active := true)])
  }

  predicate Open(s: State, id: nat) { id in s.conns && s.conns[id].inTransaction }

  function TxnCommit(s: State, t: nat): State
    requires t in s.txns
  {
    var x := s.txns[t];
    if x.active && x.conn.Some? && Open(s, x.conn.value)
    then OnConn(s, x.conn.value, C.OpCommit).(txns := s.txns[t := x.(committed := true, active := false)])
    else s
  }

  function TxnRollback(s: State, t: nat): State
    requires t in s.txns
  {
    var x := s.txns[t];
    if x.active && x.conn.Some? && Open(s, x.conn.value)
    then OnConn(s, x.conn.value, C.OpRollback).(txns := s.txns[t := x.(active := false)])
    else s
  }

  /** Savepoints and statements go to the transaction's connection, if it has one. */
  function TxnOnConn(s: State, t: nat, op: C.Op): State
    requires t in s.txns
  {
    if s.txns[t].conn.Some? then OnConn(s, s.txns[t].conn.value, op) else s
  }

  /** The destructor rolls an uncommitted transaction back and gives the connection back. */
  function TxnDestroy(s: State, t: nat): State
    requires t in s.txns
  {
    var s' := if s.txns[t].active && !s.txns[t].committed then TxnRollback(s, t) else s;
    var released := match s.txns[t].conn
      case Some(id) => if id in s'.conns then Release(s', id) else s'
      case None => s';
    released.(txns := s.txns - {t})
  }

  // ---------------------------------------------------------------- runs

  datatype Op =
    | OpNewTxn(t: nat)
    | OpBegin(t: nat, now: int)
    | OpCommit(t: nat)
    | OpRollback(t: nat)
    | OpSavepoint(t: nat, name: string)
    | OpRollbackTo(t: nat, name: string)
    | OpTxnExecute(t: nat, now: int)
    | OpDestroyTxn(t: nat)
    | OpOneShot(now: int, ping: bool)
    | OpTake(now: int)
    | OpUseHeld(id: nat, use: C.Op)
    | OpGive(id: nat)
    | OpCheck(now: int)
    | OpSetMax(max: nat)
    | OpShutdown

  /** DatabaseManager::execute and ping: take, use, give back. */
  function OneShot(s: State, now: int, ping: bool): State {
    var (s', id) := GetConnection(s, now);
    if id.None? then s'
    else
      var u := OnConn(s', id.value, if ping then C.OpPing(now) else C.OpExecute(s.hostOk, now));
      if id.value in u.conns then Release(u, id.value) else u
  }

  function Take(s: State, now: int): State {
    var (s', id) := GetConnection(s, now);
    if id.Some? then s'.(held := s.held + {id.value}) else s'
  }

  /** Destroying the object would put a connection with an open transaction into the pool. */
  predicate Leaks(s: State, t: nat)
    requires t in s.txns
  {
    var x := s.txns[t];
    x.active && x.committed && x.conn.Some? && Open(s, x.conn.value) && Returns(s, x.conn.value)
  }

  /** What every caller can do: name its own objects and use and give back what it holds. */
  predicate Allowed(s: State, op: Op) {
    match op
    case OpNewTxn(t) => t !in s.txns
    case OpBegin(t, _) => t in s.txns
    case OpCommit(t) => t in s.txns
    case OpRollback(t) => t in s.txns
    case OpSavepoint(t, _) => t in s.txns
    case OpRollbackTo(t, _) => t in s.txns
    case OpTxnExecute(t, _) => t in s.txns
    case OpDestroyTxn(t) => t in s.txns
    case OpOneShot(_, _) => true
    case OpTake(_) => true
    case OpUseHeld(id, _) => id in s.held && id in s.conns
    case OpGive(id) => id in s.held && id in s.conns
    case OpCheck(_) => forall id :: id in s.available ==> id in s.conns
    case OpSetMax(_) => true
    case OpShutdown => true
  }

  /** The discipline: nothing goes back to the pool with a transaction left open in it. */
  predicate Legal(s: State, op: Op) {
    && Allowed(s, op)
    && (op.OpGive? ==> s.conns[op.id].inTransaction ==> !Returns(s, op.id))
    && (op.OpDestroyTxn? ==> !Leaks(s, op.t))
  }

  function Apply(s: State, op: Op): State
    requires Allowed(s, op)
  {
    match op
    case OpNewTxn(t) => s.(txns := s.txns[t := NewTxn])
    case OpBegin(t, now) => TxnBegin(s, t, now)
    case OpCommit(t) => TxnCommit(s, t)
    case OpRollback(t) => TxnRollback(s, t)
    case OpSavepoint(t, name) => TxnOnConn(s, t, C.OpSavepoint(name))
    case OpRollbackTo(t, name) => TxnOnConn(s, t, C.OpRollbackTo(name))
    case OpTxnExecute(t, now) => TxnOnConn(s, t, C.OpExecute(s.hostOk, now))
    case OpDestroyTxn(t) => TxnDestroy(s, t)
    case OpOneShot(now, ping) => OneShot(s, now, ping)
    case OpTake(now) => Take(s, now)
    case OpUseHeld(id, use) => OnConn(s, id, use)
    case OpGive(id) => Release(s, id).(held := s.held - {id})
    case OpCheck(now) => CheckConnections(s, now)
    case OpSetMax(max) => s.(max := max)
    case OpShutdown => Shutdown(s)
  }

  ghost predicate LegalRun(s: State, ops: seq<Op>)
    decreases |ops|
  {
    ops == [] || (Legal(s, ops[0]) && LegalRun(Apply(s, ops[0]), ops[1..]))
  }

  ghost function Run(s: State, ops: seq<Op>): State
    requires LegalRun(s, ops)
    decreases |ops|
  {
    if ops == [] then s else Run(Apply(s, ops[0]), ops[1..])
  }
}
