/** One database connection: link state, transaction depth and savepoints. */
module ConnectionModel {
  import opened Results

  /** Seconds after which check_connections closes a pooled connection. */
  const MAX_IDLE: int := 300

  datatype Link = DISCONNECTED | CONNECTING | CONNECTED | LINK_FAILED

  datatype Conn = Conn(link: Link, inTransaction: bool, depth: int, savepoints: map<string, int>, lastUsed: int)

  const NewConn: Conn := Conn(DISCONNECTED, false, 0, map[], 0)

  /** A connection succeeds when the configured host is not empty. */
  function Connect(c: Conn, hostOk: bool, now: int): Conn {
    if hostOk then c.(link := CONNECTED, lastUsed := now) else c.(link := LINK_FAILED)
  }

  function Begin(c: Conn): Conn {
    if c.inTransaction then c.(depth := c.depth + 1) else c.(inTransaction := true, depth := 1)
  }

  function Commit(c: Conn): Conn {
    if !c.inTransaction then c
    else if c.depth - 1 == 0 then c.(inTransaction := false, depth := 0, savepoints := map[])
    else c.(depth := c.depth - 1)
  }

  function Rollback(c: Conn): Conn {
    if c.inTransaction then c.(inTransaction := false, depth := 0, savepoints := map[]) else c
  }

  function Disconnect(c: Conn): Conn {
    Rollback(c).(link := DISCONNECTED)
  }

  function SetSavepoint(c: Conn, name: string): Conn {
    if c.inTransaction then c.(savepoints := c.savepoints[name := c.depth]) else c
  }

  function RollbackTo(c: Conn, name: string): Conn {
    if name in c.savepoints then c.(depth := c.savepoints[name]) else c
  }

  function ReleaseSavepoint(c: Conn, name: string): Conn {
    c.(savepoints := c.savepoints - {name})
  }

  function Execute(c: Conn, hostOk: bool, now: int): Conn {
    if c.link.CONNECTED? then c.(lastUsed := now) else Connect(c, hostOk, now)
  }

  function Ping(c: Conn, now: int): Conn {
    c.(lastUsed := now)
  }

  datatype Op =
    | OpBegin | OpCommit | OpRollback | OpDisconnect
    | OpSavepoint(name: string) | OpRollbackTo(name: string) | OpReleaseSavepoint(name: string)
    | OpConnect(hostOk: bool, now: int) | OpExecute(hostOk: bool, now: int) | OpPing(now: int)

  function Apply(c: Conn, op: Op): Conn {
    match op
    case OpBegin => Begin(c)
    case OpCommit => Commit(c)
    case OpRollback => Rollback(c)
    case OpDisconnect => Disconnect(c)
    case OpSavepoint(name) => SetSavepoint(c, name)
    case OpRollbackTo(name) => RollbackTo(c, name)
    case OpReleaseSavepoint(name) => ReleaseSavepoint(c, name)
    case OpConnect(hostOk, now) => Connect(c, hostOk, now)
    case OpExecute(hostOk, now) => Execute(c, hostOk, now)
    case OpPing(now) => Ping(c, now)
  }

  function Run(c: Conn, ops: seq<Op>): Conn
    decreases |ops|
  {
    if ops == [] then c else Run(Apply(c, ops[0]), ops[1..])
  }

  /**
   A transaction is open exactly when the depth is positive, savepoints exist only inside one,
   and every savepoint leads back to a positive depth.
   */
  predicate ConnInv(c: Conn) {
    && (c.inTransaction <==> c.depth >= 1)
    && c.depth >= 0
    && (!c.inTransaction ==> c.savepoints == map[])
    && (forall name :: name in c.savepoints ==> c.savepoints[name] >= 1)
  }

  lemma {:induction false} RunKeepsConnInv(c: Conn, ops: seq<Op>)
    requires ConnInv(c)
    ensures ConnInv(Run(c, ops))
    decreases |ops|
  {
    if ops != [] {
      assert ConnInv(Apply(c, ops[0]));
      RunKeepsConnInv(Apply(c, ops[0]), ops[1..]);
    }
  }

  /** A savepoint never closes a transaction: going back to one leaves it open, at the depth where it was set. */
  lemma RollbackToStaysOpen(ops: seq<Op>, name: string)
    ensures var c := Run(NewConn, ops);
      (name in c.savepoints ==>
        RollbackTo(c, name).inTransaction && RollbackTo(c, name).depth == c.savepoints[name] >= 1)
      && !Disconnect(c).inTransaction
  {
    RunKeepsConnInv(NewConn, ops);
  }

  /** With n further nested begins it takes n + 1 commits to close. */
  lemma {:induction false} NestedCommits(c: Conn, n: nat)
    requires ConnInv(c) && c.depth == n + 1
    ensures Run(c, seq(n + 1, _ => OpCommit)) == c.(inTransaction := false, depth := 0, savepoints := map[])
    ensures Run(c, seq(n, _ => OpCommit)).inTransaction
    decreases n
  {
    var all := seq(n + 1, _ => OpCommit);
    if n == 0 {
      assert Run(Commit(c), all[1..]) == Commit(c);
    } else {
      assert all[1..] == seq(n, _ => OpCommit);
      assert seq(n, _ => OpCommit)[1..] == seq(n - 1, _ => OpCommit);
      NestedCommits(Commit(c), n - 1);
    }
  }
}
