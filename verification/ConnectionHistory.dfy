/**
 Nested transactions and savepoints read from the calls alone: what depth a call leads to, and where a
 savepoint leads back.
 */
module ConnectionHistory {
  import opened Results
  import opened ConnectionModel

  // ---------------------------------------------------------------- the depth as a function of the calls

  /** How many transactions are open after the calls: begins less commits, back to nothing, or back to a savepoint. */
  function Depth(ops: seq<Op>): nat
    decreases |ops|, 0
  {
    if ops == [] then 0
    else
      var before := ops[..|ops| - 1];
      match ops[|ops| - 1]
      case OpBegin => Depth(before) + 1
      case OpCommit => if Depth(before) == 0 then 0 else Depth(before) - 1
      case OpRollback => 0
      case OpDisconnect => 0
      case OpRollbackTo(name) =>
        var mark := Marked(before, name);
        if mark.Some? && mark.value < |before| then Depth(before[..mark.value]) else Depth(before)
      case _ => Depth(before)
  }

  /**
   The call that set the savepoint of that name, if it is still there: set inside a transaction,
   not released, and the transaction not closed since.
   */
  function Marked(ops: seq<Op>, name: string): Option<nat>
    decreases |ops|, 1
  {
    if ops == [] || Depth(ops) == 0 then None
    else
      var last := |ops| - 1;
      if ops[last] == OpSavepoint(name) then Some(last)
      else if ops[last] == OpReleaseSavepoint(name) then None
      else Marked(ops[..last], name)
  }

  /** Whether the connection is linked: by connect or execute to a named host, until it is disconnected. */
  function Linked(ops: seq<Op>): bool
    decreases |ops|
  {
    if ops == [] then false
    else
      var before := ops[..|ops| - 1];
      match ops[|ops| - 1]
      case OpConnect(hostOk, _) => hostOk
      case OpExecute(hostOk, _) => hostOk || Linked(before)
      case OpDisconnect => false
      case _ => Linked(before)
  }

  /** When it was last used: by a successful connect or execute, or by a ping. */
  function LastUse(ops: seq<Op>): int
    decreases |ops|
  {
    if ops == [] then 0
    else
      var before := ops[..|ops| - 1];
      match ops[|ops| - 1]
      case OpConnect(hostOk, now) => if hostOk then now else LastUse(before)
      case OpExecute(_, now) => if Linked(ops) then now else LastUse(before)
      case OpPing(now) => now
      case _ => LastUse(before)
  }

  lemma {:induction false} RunSnoc(c: Conn, ops: seq<Op>, op: Op)
    ensures Run(c, ops + [op]) == Apply(Run(c, ops), op)
    decreases |ops|
  {
    if ops == [] {
      assert [op][1..] == [];
      assert Run(c, [op]) == Run(Apply(c, op), []);
    } else {
      assert (ops + [op])[1..] == ops[1..] + [op];
      RunSnoc(Apply(c, ops[0]), ops[1..], op);
    }
  }

  /** The connection is what the calls say. */
  predicate AsCalled(c: Conn, ops: seq<Op>) {
    && c.depth == Depth(ops) && (c.inTransaction <==> Depth(ops) > 0)
    && (c.link.CONNECTED? <==> Linked(ops)) && c.lastUsed == LastUse(ops)
  }

  predicate SavedAsCalled(c: Conn, ops: seq<Op>, name: string) {
    var mark := Marked(ops, name);
    if mark.Some? then
      && mark.value < |ops| && name in c.savepoints
      && c.savepoints[name] == Depth(ops[..mark.value]) && Depth(ops[..mark.value]) > 0
    else name !in c.savepoints
  }

  /**
   After any calls on a new connection: the depth, whether a transaction is open, whether the
   connection is linked and when it was last used, which savepoints there are, and the depth that
   each of them leads back to.
   */
  lemma {:induction false} HistoryIs(ops: seq<Op>, name: string)
    ensures AsCalled(Run(NewConn, ops), ops) && SavedAsCalled(Run(NewConn, ops), ops, name)
    decreases |ops|
  {
    if ops != [] {
      var last := |ops| - 1;
      var before, op := ops[..last], ops[last];
      assert ops == before + [op];
      RunSnoc(NewConn, before, op);
      HistoryIs(before, name);
      if op.OpRollbackTo? { HistoryIs(before, op.name); }
      RunKeepsConnInv(NewConn, before);
      StepSaved(Run(NewConn, before), before, op, name);
    }
  }

  lemma StepSaved(c: Conn, before: seq<Op>, op: Op, name: string)
    requires AsCalled(c, before) && SavedAsCalled(c, before, name) && ConnInv(c)
    requires op.OpRollbackTo? ==> SavedAsCalled(c, before, op.name)
    ensures AsCalled(Apply(c, op), before + [op]) && SavedAsCalled(Apply(c, op), before + [op], name)
  {
    var ops := before + [op];
    assert ops[..|before|] == before;
    assert forall i :: 0 <= i <= |before| ==> ops[..i] == before[..i];
  }

  // ---------------------------------------------------------------- savepoints

  /** A call that ends the transaction, or takes the savepoint of that name away or sets it anew. */
  predicate Disturbs(c: Conn, op: Op, name: string) {
    match op
    case OpCommit => c.depth == 1
    case OpRollback => true
    case OpDisconnect => true
    case OpSavepoint(n) => n == name
    case OpReleaseSavepoint(n) => n == name
    case _ => false
  }

  predicate Undisturbed(c: Conn, ops: seq<Op>, name: string)
    decreases |ops|
  {
    ops == [] || (!Disturbs(c, ops[0], name) && Undisturbed(Apply(c, ops[0]), ops[1..], name))
  }

  lemma {:induction false} StaysMarked(c: Conn, ops: seq<Op>, name: string, depth: int)
    requires ConnInv(c) && name in c.savepoints && c.savepoints[name] == depth && Undisturbed(c, ops, name)
    ensures var d := Run(c, ops); ConnInv(d) && name in d.savepoints && d.savepoints[name] == depth
    decreases |ops|
  {
    if ops != [] {
      var d := Apply(c, ops[0]);
      assert ConnInv(d) by { RunKeepsConnInv(c, [ops[0]]); assert Run(c, [ops[0]]) == Run(d, [ops[0]][1..]) == d; }
      StaysMarked(d, ops[1..], name, depth);
    }
  }

  /**
   Whatever happens between, nested begins and commits and other savepoints included: going back to
   a savepoint leads to the depth at which it was set, and exactly that many commits then close the
   transaction.
   */
  lemma SavepointReturns(c: Conn, name: string, ops: seq<Op>)
    requires ConnInv(c) && c.inTransaction && Undisturbed(Apply(c, OpSavepoint(name)), ops, name)
    ensures var back := Apply(Run(Apply(c, OpSavepoint(name)), ops), OpRollbackTo(name));
      && back.depth == c.depth && back.inTransaction
      && !Run(back, seq(c.depth, _ => OpCommit)).inTransaction
      && Run(back, seq(c.depth - 1, _ => OpCommit)).inTransaction
  {
    var marked := Apply(c, OpSavepoint(name));
    assert name in marked.savepoints && marked.savepoints[name] == c.depth;
    StaysMarked(marked, ops, name, c.depth);
    NestedCommits(Apply(Run(marked, ops), OpRollbackTo(name)), c.depth - 1);
  }

  /** n begins on a new connection take n commits; before the last one the transaction is open. */
  lemma BeginsTakeCommits(n: nat)
    ensures var begun := Run(NewConn, seq(n, _ => OpBegin));
      && begun.depth == n
      && !Run(begun, seq(n, _ => OpCommit)).inTransaction
      && (n > 0 ==> Run(begun, seq(n - 1, _ => OpCommit)).inTransaction)
  {
    DeepBegins(NewConn, n);
    RunKeepsConnInv(NewConn, seq(n, _ => OpBegin));
    var begun := Run(NewConn, seq(n, _ => OpBegin));
    if n > 0 { NestedCommits(begun, n - 1); }
  }

  lemma {:induction false} DeepBegins(c: Conn, n: nat)
    requires ConnInv(c)
    ensures Run(c, seq(n, _ => OpBegin)).depth == c.depth + n
    decreases n
  {
    if n > 0 {
      assert seq(n, _ => OpBegin)[1..] == seq(n - 1, _ => OpBegin);
      DeepBegins(Begin(c), n - 1);
    }
  }
}
