/** Connections, the pool and transaction objects as objects that share connections by reference. */
module Databases {
  import opened Results
  import opened Sequences
  import Model = ConnectionModel

  class Connection {
    const hostOk: bool
    var link: Model.Link
    var inTransaction: bool
    var depth: int
    var savepoints: map<string, int>
    var lastUsed: int

    function State(): Model.Conn
      reads this
    {
      Model.Conn(link, inTransaction, depth, savepoints, lastUsed)
    }

    /** Open exactly when the depth is positive; savepoints only inside a transaction; linked only to a named host. */
    predicate Valid()
      reads this
    {
      Model.ConnInv(State()) && (link.CONNECTED? ==> hostOk)
    }

    constructor (hostOk: bool)
      ensures this.hostOk == hostOk && State() == Model.NewConn
    {
      this.hostOk := hostOk;
      link, inTransaction, depth, savepoints, lastUsed := Model.DISCONNECTED, false, 0, map[], 0;
    }

    method Connect(now: int) returns (r: Outcome)
      modifies this
      ensures State() == Model.Connect(old(State()), hostOk, now)
      ensures r == if hostOk then Ok(()) else Error(DbConnectionFailed)
    {
      link := Model.CONNECTING;
      if !hostOk {
        link := Model.LINK_FAILED;
        return Error(DbConnectionFailed);
      }
      link := Model.CONNECTED;
      lastUsed := now;
      return Ok(());
    }

    method Disconnect()
      modifies this
      ensures State() == Model.Disconnect(old(State()))
    {
      if inTransaction {
        var _ := Rollback();
      }
      link := Model.DISCONNECTED;
    }

    method Execute(now: int) returns (r: Outcome)
      modifies this
      ensures State() == Model.Execute(old(State()), hostOk, now)
      ensures r == if old(link).CONNECTED? || hostOk then Ok(()) else Error(DbConnectionFailed)
    {
      if link != Model.CONNECTED {
        var reconnect := Connect(now);
        if reconnect.Error? {
          return reconnect;
        }
      }
      lastUsed := now;
      return Ok(());
    }

    method BeginTransaction()
      modifies this
      ensures State() == Model.Begin(old(State()))
    {
      if inTransaction {
        depth := depth + 1;
        return;
      }
      inTransaction := true;
      depth := 1;
    }

    method Commit() returns (r: Outcome)
      modifies this
      ensures State() == Model.Commit(old(State()))
      ensures r == if old(inTransaction) then Ok(()) else Error(DbTransactionError)
    {
      if !inTransaction {
        return Error(DbTransactionError);
      }
      depth := depth - 1;
      if depth == 0 {
        inTransaction := false;
        savepoints := map[];
      }
      return Ok(());
    }

    method Rollback() returns (r: Outcome)
      modifies this
      ensures State() == Model.Rollback(old(State()))
      ensures r == if old(inTransaction) then Ok(()) else Error(DbTransactionError)
    {
      if !inTransaction {
        return Error(DbTransactionError);
      }
      depth := 0;
      inTransaction := false;
      savepoints := map[];
      return Ok(());
    }

    method SetSavepoint(name: string) returns (r: Outcome)
      modifies this
      ensures State() == Model.SetSavepoint(old(State()), name)
      ensures r == if inTransaction then Ok(()) else Error(DbTransactionError)
    {
      if !inTransaction {
        return Error(DbTransactionError);
      }
      savepoints := savepoints[name := depth];
      return Ok(());
    }

    method RollbackToSavepoint(name: string) returns (r: Outcome)
      modifies this
      ensures State() == Model.RollbackTo(old(State()), name)
      ensures r == if name in savepoints then Ok(()) else Error(DbTransactionError)
    {
      if name !in savepoints {
        return Error(DbTransactionError);
      }
      depth := savepoints[name];
      return Ok(());
    }

    method ReleaseSavepoint(name: string)
      modifies this
      ensures State() == Model.ReleaseSavepoint(old(State()), name)
    {
      savepoints := savepoints - {name};
    }

    method Ping(now: int)
      modifies this
      ensures State() == Model.Ping(old(State()), now)
    {
      lastUsed := now;
    }
  }

  class ConnectionPool {
    const hostOk: bool
    var maxConnections: nat
    var available: seq<Connection>
    var busy: seq<Connection>

    /** No connection twice, none both pooled and busy; pooled ones are linked and outside any transaction. */
    ghost predicate Valid()
      reads this, available, busy
    {
      && NoDuplicates(available) && NoDuplicates(busy)
      && (forall c :: c in available ==> c !in busy)
      && (forall c :: c in available ==> c.Valid() && c.link.CONNECTED? && !c.inTransaction)
      && (forall c :: c in busy ==> c.Valid())
      && (forall c :: c in available ==> c.hostOk == hostOk)
    }

    constructor (hostOk: bool, max: nat)
      ensures Valid() && available == [] && busy == []
      ensures this.hostOk == hostOk && maxConnections == max
    {
      this.hostOk, maxConnections, available, busy := hostOk, max, [], [];
    }

    /** The most recently returned connection, or a newly opened one, or null if none can be opened. */
    method GetConnection(now: int) returns (c: Connection?)
      requires Valid()
      modifies `available, `busy
      ensures Valid()
      ensures c != null ==>
        busy == old(busy) + [c] && c !in old(busy) && c !in available
        && c.link.CONNECTED? && !c.inTransaction && c.Valid() && c.hostOk == hostOk == true
      ensures old(available) != [] ==>
        c == old(available)[|old(available)| - 1] && available == old(available)[..|old(available)| - 1]
      ensures old(available) == [] ==> available == [] && (c == null <==> !hostOk) && (c != null ==> fresh(c))
      ensures c == null ==> busy == old(busy)
    {
      if available != [] {
        var n := |available| - 1;
        c := available[n];
        assert c in available && c !in available[..n];
        AppendDistinct(busy, c);
        available := available[..n];
        busy := busy + [c];
        return;
      }
      var extra := new Connection(hostOk);
      var result := extra.Connect(now);
      if result.Error? {
        return null;
      }
      AppendDistinct(busy, extra);
      busy := busy + [extra];
      c := extra;
    }

    predicate Returns(c: Connection)
      reads this, c
    {
      c.link.CONNECTED? && |available| < maxConnections
    }

    /** The pool stays valid exactly when c is not pooled already and not pooled now with an open transaction. */
    method ReleaseConnection(c: Connection)
      requires Valid() && c.Valid() && c.hostOk == hostOk
      modifies `available, `busy, c
      ensures Valid() <==> old(c !in available && (c.inTransaction ==> !Returns(c)))
      ensures |available| == |old(available)| + if old(c.link).CONNECTED? &&
        |old(available)| < maxConnections then 1 else 0
      ensures busy == EraseFirst(old(busy), c) && c !in busy
      ensures if old(Returns(c)) then available == old(available) + [c] && c.State() == old(c.State())
        else available == old(available) && c.State() == Model.Disconnect(old(c.State()))
    {
      EraseFirstDistinct(busy, c);
      busy := EraseFirst(busy, c);
      if c.link == Model.CONNECTED && |available| < maxConnections {
        AppendedDistinctIff(available, c);
        available := available + [c];
        assert c in available;
      } else {
        c.Disconnect();
      }
    }

    function States(list: seq<Connection>): (r: seq<Model.Conn>)
      reads list
      ensures |r| == |list| && forall k :: 0 <= k < |list| ==> r[k] == list[k].State()
    {
      seq(|list|, k requires 0 <= k < |list| reads list => list[k].State())
    }

    /** Exactly the connections idle for too long are closed and dropped; the others keep their order and state. */
    method CheckConnections(now: int)
      requires Valid()
      modifies `available, available
      ensures Valid() && available == Kept(old(available), old(States(available)), now)
      ensures forall k :: 0 <= k < |old(available)| ==>
        old(available)[k].State() == Checked(old(States(available))[k], now)
    {
      ghost var start, before := available, States(available);
      var i := 0;
      ghost var n := 0;
      while i < |available|
        invariant Valid() && i <= |available| && Swept(available, start, States(start), before, now, i, n)
        decreases |start| - n
      {
        var c := available[i];
        assert c in available && available[i..][0] == start[n..][0] == c;
        ghost var states := States(start);
        if now - c.lastUsed > Model.MAX_IDLE {
          SweptDrop(available, start, states, before, now, i, n);
          DropAt(i, start, n);
        } else {
          SweptKeep(available, start, states, before, now, i, n);
          i := i + 1;
        }
        n := n + 1;
      }
      assert available[..i] == available && start[..n] == start && before[..n] == before;
    }

    /** Closes the i-th pooled connection and erases it from the list. */
    method DropAt(i: nat, ghost all: seq<Connection>, ghost n: nat)
      requires Valid() && i < |available| && NoDuplicates(all) && n < |all| && all[n] == available[i]
      modifies `available, available[i]
      ensures Valid() && available == old(available)[..i] + old(available)[i + 1..]
      ensures States(all) == old(States(all))[n := Model.Disconnect(old(available[i].State()))]
    {
      EraseAt(available, i);
      var c := available[i];
      assert c in available;
      c.Disconnect();
      available := available[..i] + available[i + 1..];
      assert forall k :: 0 <= k < |all| && k != n ==> all[k] != c;
    }

    method Shutdown()
      requires Valid()
      modifies `available, `busy, available, busy
      ensures Valid() && available == [] && busy == []
      ensures forall c :: c in old(available) + old(busy) ==> c.State() == Model.Disconnect(old(c.State()))
    {
      for i := 0 to |available|
        invariant available == old(available) && busy == old(busy)
        invariant forall k :: 0 <= k < |available| ==>
          available[k].State() == if k < i then Model.Disconnect(old(available[k].State()))
            else old(available[k].State())
        invariant forall k :: 0 <= k < |busy| ==> busy[k].State() == old(busy[k].State())
      {
        assert available[i] in available;
        available[i].Disconnect();
      }
      for i := 0 to |busy|
        invariant available == old(available) && busy == old(busy)
        invariant forall k :: 0 <= k < |available| ==>
          available[k].State() == Model.Disconnect(old(available[k].State()))
        invariant forall k :: 0 <= k < |busy| ==>
          busy[k].State() == if k < i then Model.Disconnect(old(busy[k].State())) else old(busy[k].State())
      {
        busy[i].Disconnect();
      }
      available, busy := [], [];
    }
  }

  /** A transaction object: it takes its connection from the pool in begin and gives it back in the destructor. */
  class Transaction {
    const pool: ConnectionPool
    var conn: Connection?
    var active: bool
    var committed: bool

    /** The connection is not pooled, at most one level deep, and open only while the object is active. */
    ghost predicate Valid()
      reads this, pool, pool.available, pool.busy, conn
    {
      && pool.Valid()
      && (active ==> conn != null)
      && (conn != null ==>
            conn.Valid() && conn.hostOk == pool.hostOk == true && conn !in pool.available
            && conn.depth <= 1 && (conn.inTransaction ==> active)
            && forall name :: name in conn.savepoints ==> conn.savepoints[name] == 1)
    }

    constructor (pool: ConnectionPool)
      requires pool.Valid()
      ensures this.pool == pool && conn == null && !active && !committed && Valid()
    {
      this.pool, conn, active, committed := pool, null, false, false;
    }

    /** Takes another connection even if the object has one, and leaves committed as it was. */
    method Begin(now: int) returns (r: Outcome)
      requires Valid()
      modifies this, pool`available, pool`busy, pool.available
      ensures Valid()
      ensures r == if old(pool.available) == [] && !pool.hostOk then Error(DbConnectionFailed) else Ok(())
      ensures r.Ok? ==> active && conn != null && conn in pool.busy && conn.inTransaction && conn.depth == 1
      ensures r.Error? ==> conn == null && !active
      ensures committed == old(committed)
    {
      conn := pool.GetConnection(now);
      if conn == null {
        return Error(DbConnectionFailed);
      }
      conn.BeginTransaction();
      active := true;
      return Ok(());
    }

    /** On success the connection is outside any transaction, with no savepoint left. */
    method Commit() returns (r: Outcome)
      requires Valid()
      modifies this, conn
      ensures Valid() && conn == old(conn)
      ensures r == if old(active) && conn != null && old(conn.inTransaction) then Ok(()) else Error(DbTransactionError)
      ensures r.Ok? ==> committed && !active && !conn.inTransaction && conn.savepoints == map[]
      ensures r.Error? ==>
        active == old(active) && committed == old(committed) && (conn != null ==> conn.State() == old(conn.State()))
    {
      if !active {
        return Error(DbTransactionError);
      }
      r := conn.Commit();
      if r.Ok? {
        committed := true;
        active := false;
      }
    }

    method Rollback() returns (r: Outcome)
      requires Valid()
      modifies this, conn
      ensures Valid() && conn == old(conn) && committed == old(committed)
      ensures r == if old(active) && conn != null && old(conn.inTransaction) then Ok(()) else Error(DbTransactionError)
      ensures r.Ok? ==> !active
      ensures r.Error? ==> active == old(active)
      ensures conn != null ==> !conn.inTransaction || !active
      ensures old(active) ==> !conn.inTransaction && conn.State() == Model.Rollback(old(conn.State()))
    {
      if !active {
        return Error(DbTransactionError);
      }
      r := conn.Rollback();
      if r.Ok? {
        active := false;
      }
    }

    method SetSavepoint(name: string) returns (r: Outcome)
      requires Valid()
      modifies conn
      ensures Valid()
      ensures conn == null ==> r == Error(DbConnectionFailed)
      ensures conn != null ==>
        conn.State() == Model.SetSavepoint(old(conn.State()), name)
        && r == if conn.inTransaction then Ok(()) else Error(DbTransactionError)
    {
      if conn == null {
        return Error(DbConnectionFailed);
      }
      r := conn.SetSavepoint(name);
    }

    method RollbackToSavepoint(name: string) returns (r: Outcome)
      requires Valid()
      modifies conn
      ensures Valid()
      ensures conn == null ==> r == Error(DbConnectionFailed)
      ensures conn != null ==>
        conn.State() == Model.RollbackTo(old(conn.State()), name)
        && r == if name in conn.savepoints then Ok(()) else Error(DbTransactionError)
    {
      if conn == null {
        return Error(DbConnectionFailed);
      }
      r := conn.RollbackToSavepoint(name);
    }

    /** Active again after a commit, with an open connection that the pool takes back. */
    predicate Leaks()
      reads this, pool, conn
    {
      active && committed && conn != null && conn.inTransaction && pool.Returns(conn)
    }

    /** What the connection is when it goes back: rolled back only if nothing was ever committed. */
    function LeftBehind(): (c: Model.Conn)
      requires conn != null
      reads this, conn
    {
      if active && !committed then Model.Rollback(conn.State()) else conn.State()
    }

    /** The destructor: the pool stays valid, without an open transaction in it, exactly unless the object leaks. */
    method Destroy()
      requires Valid()
      modifies this, conn, pool`available, pool`busy
      ensures pool.Valid() <==> !old(Leaks())
      ensures old(conn) != null ==>
        var c: Connection := old(conn);
        && pool.busy == EraseFirst(old(pool.busy), c) && c !in pool.busy
        && c.inTransaction == old(Leaks())
        && if old(pool.Returns(c)) then pool.available == old(pool.available) + [c] && c.State() == old(LeftBehind())
           else pool.available == old(pool.available) && c.State() == Model.Disconnect(old(LeftBehind()))
      ensures old(conn) == null ==> pool.available == old(pool.available) && pool.busy == old(pool.busy)
    {
      if active && !committed {
        var _ := Rollback();
      }
      if conn != null {
        pool.ReleaseConnection(conn);
      }
    }
  }

  class DatabaseManager {
    const pool: ConnectionPool

    constructor (pool: ConnectionPool)
      ensures this.pool == pool
    {
      this.pool := pool;
    }

    /**
     Takes the connection on top of the pool or a new one, runs one statement on it and puts it back if there
     is room.
     */
    method Execute(now: int) returns (r: Outcome)
      requires pool.Valid()
      modifies pool`available, pool`busy, pool.available
      ensures pool.Valid() && pool.busy == old(pool.busy)
      ensures r == if old(pool.available) == [] && !pool.hostOk then Error(DbConnectionFailed) else Ok(())
      ensures old(pool.available) != [] ==>
        var n := |old(pool.available)| - 1;
        var c := old(pool.available)[n];
        if n < pool.maxConnections then pool.available == old(pool.available) && c.lastUsed == now
        else pool.available == old(pool.available)[..n] && c.link.DISCONNECTED?
      ensures old(pool.available) == [] ==>
        if r.Ok? && pool.maxConnections > 0 then
          |pool.available| == 1 && fresh(pool.available[0]) && pool.available[0].lastUsed == now
        else pool.available == []
    {
      var conn := pool.GetConnection(now);
      if conn == null {
        return Error(DbConnectionFailed);
      }
      var taken: Connection := conn;
      r := taken.Execute(now);
      EraseLast(old(pool.busy), taken);
      pool.ReleaseConnection(taken);
    }
  }

  predicate Idle(c: Model.Conn, now: int) {
    now - c.lastUsed > Model.MAX_IDLE
  }

  /** What the idle check makes of a connection. */
  function Checked(c: Model.Conn, now: int): Model.Conn {
    if Idle(c, now) then Model.Disconnect(c) else c
  }

  /** The connections that are not idle for too long, in their order. */
  function Kept(list: seq<Connection>, states: seq<Model.Conn>, now: int): seq<Connection>
    requires |list| == |states|
  {
    if list == [] then []
    else
      var last := |list| - 1;
      Kept(list[..last], states[..last], now) + (if Idle(states[last], now) then [] else [list[last]])
  }

  /** The first n of the pooled connections were looked at, i of them stay. */
  ghost predicate Swept(
    list: seq<Connection>, start: seq<Connection>, states: seq<Model.Conn>, before: seq<Model.Conn>,
    now: int, i: nat, n: nat)
  {
    && i <= |list| && n <= |start| == |states| == |before| && NoDuplicates(start)
    && list[..i] == Kept(start[..n], before[..n], now) && list[i..] == start[n..]
    && (forall k :: 0 <= k < n ==> states[k] == Checked(before[k], now))
    && (forall k :: n <= k < |start| ==> states[k] == before[k])
  }

  lemma KeptNext(list: seq<Connection>, states: seq<Model.Conn>, n: nat, now: int)
    requires |list| == |states| && n < |list|
    ensures Kept(list[..n + 1], states[..n + 1], now)
         == Kept(list[..n], states[..n], now) + (if Idle(states[n], now) then [] else [list[n]])
  {
    assert list[..n + 1][..n] == list[..n] && states[..n + 1][..n] == states[..n];
  }

  lemma SweptKeep(
    list: seq<Connection>, start: seq<Connection>, states: seq<Model.Conn>, before: seq<Model.Conn>,
    now: int, i: nat, n: nat)
    requires Swept(list, start, states, before, now, i, n) && i < |list|
    requires n < |start| ==> !Idle(before[n], now)
    ensures Swept(list, start, states, before, now, i + 1, n + 1)
  {
    assert list[i] == list[i..][0] && start[n] == start[n..][0];
    assert list[i + 1..] == list[i..][1..] && start[n + 1..] == start[n..][1..];
    KeptNext(start, before, n, now);
    assert list[..i + 1] == list[..i] + [list[i]];
  }

  lemma SweptDrop(
    list: seq<Connection>, start: seq<Connection>, states: seq<Model.Conn>, before: seq<Model.Conn>,
    now: int, i: nat, n: nat)
    requires Swept(list, start, states, before, now, i, n) && i < |list|
    requires n < |start| ==> Idle(before[n], now)
    ensures n < |start|
    ensures Swept(list[..i] + list[i + 1..], start, states[n := Model.Disconnect(before[n])], before, now, i, n + 1)
  {
    assert list[i..] != [] && start[n] == start[n..][0];
    var rest := list[..i] + list[i + 1..];
    assert rest[i..] == list[i..][1..] && start[n + 1..] == start[n..][1..];
    KeptNext(start, before, n, now);
    assert rest[..i] == list[..i];
  }

  lemma AppendedDistinctIff<T>(list: seq<T>, x: T)
    requires NoDuplicates(list)
    ensures NoDuplicates(list + [x]) <==> x !in list
  {
    if x in list {
      var i :| 0 <= i < |list| && list[i] == x;
      assert (list + [x])[i] == (list + [x])[|list|];
    }
  }

  lemma EraseAt<T>(list: seq<T>, i: nat)
    requires i < |list| && NoDuplicates(list)
    ensures NoDuplicates(list[..i] + list[i + 1..])
    ensures forall x :: x in list[..i] + list[i + 1..] <==> x in list && x != list[i]
  {
    var rest := list[..i] + list[i + 1..];
    forall x | x in list && x != list[i] ensures x in rest {
      var k :| 0 <= k < |list| && list[k] == x;
      assert k < i ==> rest[k] == x;
      assert k > i ==> rest[k - 1] == x;
    }
  }
}
