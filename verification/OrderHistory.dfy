/** The orders read from the calls alone: who placed which, and which status it has got to. */
module OrderHistory {
  import opened Results
  import opened Sequences
  import opened OrderModel

  const All: set<Status> := {CREATED, PENDING_PAYMENT, PAID, PROCESSING, SHIPPED, DELIVERED, COMPLETED, CANCELLED,
    REFUNDED, CLOSED}

  /** The statuses from which an order may become to. */
  function From(to: Status): set<Status> {
    match to
    case PAID => {CREATED, PENDING_PAYMENT, PAID}
    case SHIPPED => {PAID, PROCESSING, SHIPPED}
    case CANCELLED => {CREATED, PENDING_PAYMENT, PAID, PROCESSING, COMPLETED, CANCELLED, CLOSED}
    case REFUNDED => All - {CANCELLED}
    case CREATED => All - {CANCELLED, REFUNDED}
    case PENDING_PAYMENT => All - {CANCELLED, REFUNDED}
    case PROCESSING => All - {CANCELLED, REFUNDED}
    case DELIVERED => All - {CANCELLED, REFUNDED}
    case COMPLETED => All - {CANCELLED, REFUNDED}
    case CLOSED => All - {CANCELLED, REFUNDED}
  }

  /** can_transition_to accepts exactly the changes of the table. */
  lemma TransitionTable(from: Status, to: Status)
    ensures CanTransition(from, to) <==> from in From(to)
  {
  }

  /** One placed order. */
  datatype Line = Line(user: nat, status: Status)

  /** The live orders by id, and how many were ever placed. */
  datatype Book = Book(lines: map<nat, Line>, placed: nat)

  function Change(b: Book, id: nat, to: Status): Book {
    if id in b.lines && b.lines[id].status in From(to)
    then b.(lines := b.lines[id := b.lines[id].(status := to)]) else b
  }

  function Tell(b: Book, op: Op): Book {
    match op
    case OpCreate(user) => Book(b.lines[b.placed + 1 := Line(user, CREATED)], b.placed + 1)
    case OpUpdate(id, to) => Change(b, id, to)
    case OpCancel(id) => Change(b, id, CANCELLED)
    case OpDelete(id) => b.(lines := b.lines - {id})
  }

  function TellAll(b: Book, ops: seq<Op>): Book
    decreases |ops|
  {
    if ops == [] then b else TellAll(Tell(b, ops[0]), ops[1..])
  }

  predicate Matches(s: State, b: Book) {
    && s.nextId == b.placed + 1 && s.orders.Keys == b.lines.Keys
    && forall id :: id in s.orders ==> s.orders[id] == Order(id, b.lines[id].user, b.lines[id].status)
  }

  lemma StepMatches(s: State, op: Op, b: Book)
    requires Matches(s, b)
    ensures Matches(Apply(s, op), Tell(b, op))
  {
    match op
    case OpUpdate(id, to) => if id in s.orders { TransitionTable(s.orders[id].status, to); }
    case OpCancel(id) => if id in s.orders { TransitionTable(s.orders[id].status, CANCELLED); }
    case OpCreate(_) =>
    case OpDelete(_) =>
  }

  lemma {:induction false} RunMatches(s: State, ops: seq<Op>, b: Book)
    requires Matches(s, b)
    ensures Matches(Run(s, ops), TellAll(b, ops))
    decreases |ops|
  {
    if ops != [] {
      StepMatches(s, ops[0], b);
      RunMatches(Apply(s, ops[0]), ops[1..], Tell(b, ops[0]));
    }
  }

  const Blank: Book := Book(map[], 0)

  /**
   After every run the orders are those placed and not deleted, numbered in the order of placing,
   each with the user who placed it and the status of the last change that the table allowed.
   */
  lemma OrdersAsTold(ops: seq<Op>, id: nat)
    ensures var s := Run(Empty, ops); var b := TellAll(Blank, ops);
      && (id in s.orders <==> id in b.lines)
      && (id in s.orders ==> s.orders[id].user == b.lines[id].user && s.orders[id].status == b.lines[id].status)
  {
    RunMatches(Empty, ops, Blank);
  }

  /** In the life of an order on any run the status changes exactly as the calls ask and the table allows. */
  lemma {:induction false} LifeFollowsTable(s: State, ops: seq<Op>, id: nat, i: nat)
    requires Keyed(s) && i < |ops| && Life(s, ops, id)[i].Some?
    ensures var x := Life(s, ops, id)[i].value; var next := Life(s, ops, id)[i + 1];
      match ops[i]
      case OpUpdate(j, to) => next == Some(if j == id && x in From(to) then to else x)
      case OpCancel(j) => next == Some(if j == id && x in From(CANCELLED) then CANCELLED else x)
      case OpDelete(j) => next == if j == id then None else Some(x)
      case OpCreate(_) => next == Some(x)
    decreases |ops|
  {
    if i > 0 {
      StepKeyed(s, ops[0]);
      LifeFollowsTable(Apply(s, ops[0]), ops[1..], id, i - 1);
    } else {
      match ops[0]
      case OpUpdate(j, to) => if j in s.orders { TransitionTable(s.orders[j].status, to); }
      case OpCancel(j) => if j in s.orders { TransitionTable(s.orders[j].status, CANCELLED); }
      case OpCreate(_) =>
      case OpDelete(_) =>
    }
  }

  lemma StepKeyed(s: State, op: Op)
    requires Keyed(s)
    ensures Keyed(Apply(s, op))
  {
  }

  /** The pages of a user list, newest first, exactly the orders that the calls say this user has. */
  lemma PagesAsTold(ops: seq<Op>, user: nat, size: nat, n: nat)
    requires size > 0 && n * size >= |ListOf(Run(Empty, ops).userIndex, user)|
    ensures var shown := FirstUserPages(Run(Empty, ops), user, size, n); var b := TellAll(Blank, ops);
      && (forall id :: id in shown <==> id in b.lines && b.lines[id].user == user)
      && (forall i, j :: 0 <= i < j < |shown| ==> shown[i] > shown[j])
  {
    RunMatches(Empty, ops, Blank);
    UserPagesComplete(ops, user, size, n);
  }

  // ---------------------------------------------------------------- the order within a status list

  /** When an order was last put into the list of a status, counted in calls. */
  type Filing = map<(Status, nat), nat>

  /** A placed order goes to the end of CREATED, an updated one to the end of its new list. */
  function File(b: Book, f: Filing, tick: nat, op: Op): Filing {
    match op
    case OpCreate(_) => f[(CREATED, b.placed + 1) := tick]
    case OpUpdate(id, to) => if id in b.lines && b.lines[id].status in From(to) then f[(to, id) := tick] else f
    case OpCancel(_) => f
    case OpDelete(_) => f
  }

  function FileAll(b: Book, f: Filing, tick: nat, ops: seq<Op>): Filing
    decreases |ops|
  {
    if ops == [] then f else FileAll(Tell(b, ops[0]), File(b, f, tick, ops[0]), tick + 1, ops[1..])
  }

  /** The list of the status is in the order of filing. */
  predicate InOrder(list: seq<nat>, st: Status, f: Filing, tick: nat) {
    && (forall i :: 0 <= i < |list| ==> (st, list[i]) in f && f[(st, list[i])] < tick)
    && (forall i, j :: 0 <= i < j < |list| ==>
          (st, list[i]) in f && (st, list[j]) in f && f[(st, list[i])] < f[(st, list[j])])
  }

  ghost predicate AllInOrder(s: State, f: Filing, tick: nat) {
    forall st :: InOrder(ListOf(s.statusIndex, st), st, f, tick)
  }

  lemma {:induction false} WithoutInOrder(list: seq<nat>, id: nat, st: Status, f: Filing, tick: nat)
    requires InOrder(list, st, f, tick)
    ensures InOrder(Without(list, id), st, f, tick)
    decreases |list|
  {
    if list != [] {
      var rest := list[1..];
      assert InOrder(rest, st, f, tick) by {
        forall i, j | 0 <= i < j < |rest|
          ensures (st, rest[i]) in f && (st, rest[j]) in f && f[(st, rest[i])] < f[(st, rest[j])] {
          assert rest[i] == list[i + 1] && rest[j] == list[j + 1];
        }
        forall i | 0 <= i < |rest|
          ensures (st, rest[i]) in f && f[(st, rest[i])] < tick { assert rest[i] == list[i + 1]; }
      }
      WithoutInOrder(rest, id, st, f, tick);
      var left := Without(rest, id);
      forall j | 0 <= j < |left|
        ensures (st, list[0]) in f && (st, left[j]) in f && f[(st, list[0])] < f[(st, left[j])] {
        assert left[j] in rest;
        var k :| 0 <= k < |rest| && rest[k] == left[j];
        assert list[k + 1] == left[j];
      }
    }
  }

  lemma AppendedInOrder(list: seq<nat>, id: nat, st: Status, f: Filing, tick: nat)
    requires InOrder(list, st, f, tick) && id !in list
    ensures InOrder(list + [id], st, f[(st, id) := tick], tick + 1)
  {
  }

  lemma StillInOrder(list: seq<nat>, id: nat, to: Status, st: Status, f: Filing, tick: nat)
    requires InOrder(list, st, f, tick) && (st != to || id !in list)
    ensures InOrder(list, st, f[(to, id) := tick], tick + 1)
  {
  }

  /** An order that comes to a new status is not listed there yet, nor is a new order anywhere. */
  lemma NotListedYet(s: State, id: nat, st: Status)
    requires WeakStatusInv(s)
    requires id == s.nextId || (id in s.orders && s.orders[id].status != CANCELLED && s.orders[id].status != st)
    ensures id !in ListOf(s.statusIndex, st)
  {
    if id in s.orders { assert FiledOnce(s.statusIndex, id, s.orders[id].status); }
    assert Times(s.statusIndex, st, id) == 0;
  }

  lemma CreatedInOrder(s: State, user: nat, f: Filing, tick: nat, st: Status)
    requires WeakStatusInv(s) && InOrder(ListOf(s.statusIndex, st), st, f, tick)
    ensures InOrder(ListOf(Create(s, user).statusIndex, st), st, f[(CREATED, s.nextId) := tick], tick + 1)
  {
    var list := ListOf(s.statusIndex, st);
    NotListedYet(s, s.nextId, st);
    if st == CREATED {
      AppendedInOrder(list, s.nextId, st, f, tick);
    } else {
      StillInOrder(list, s.nextId, CREATED, st, f, tick);
    }
  }

  /** Leaving a list, or going to the end of one. */
  lemma ListMoved(list: seq<nat>, id: nat, from: Status, to: Status, st: Status, f: Filing, tick: nat)
    requires InOrder(list, st, f, tick) && (st == to && st != from ==> id !in list)
    ensures var removed := if st == from then Without(list, id) else list;
      InOrder(if st == to then removed + [id] else removed, st, f[(to, id) := tick], tick + 1)
  {
    var removed := if st == from then Without(list, id) else list;
    WithoutInOrder(list, id, st, f, tick);
    if st == to { AppendedInOrder(removed, id, st, f, tick); } else { StillInOrder(removed, id, to, st, f, tick); }
  }

  lemma MovedInOrder(s: State, id: nat, to: Status, st: Status, f: Filing, tick: nat)
    requires WeakStatusInv(s) && Updatable(s, id, to) && InOrder(ListOf(s.statusIndex, st), st, f, tick)
    ensures InOrder(ListOf(UpdateStatus(s, id, to).statusIndex, st), st, f[(to, id) := tick], tick + 1)
  {
    var from := s.orders[id].status;
    if st == to && st != from { NotListedYet(s, id, st); }
    ListMoved(ListOf(s.statusIndex, st), id, from, to, st, f, tick);
  }

  lemma LaterInOrder(list: seq<nat>, st: Status, f: Filing, tick: nat)
    requires InOrder(list, st, f, tick)
    ensures InOrder(list, st, f, tick + 1)
  {
  }

  lemma DeletedInOrder(s: State, id: nat, st: Status, f: Filing, tick: nat)
    requires InOrder(ListOf(s.statusIndex, st), st, f, tick)
    ensures InOrder(ListOf(Delete(s, id).statusIndex, st), st, f, tick + 1)
  {
    WithoutInOrder(ListOf(s.statusIndex, st), id, st, f, tick);
    LaterInOrder(ListOf(Delete(s, id).statusIndex, st), st, f, tick);
  }

  lemma UpdatedInOrder(s: State, b: Book, id: nat, to: Status, st: Status, f: Filing, tick: nat)
    requires Matches(s, b) && WeakStatusInv(s) && InOrder(ListOf(s.statusIndex, st), st, f, tick)
    ensures InOrder(ListOf(UpdateStatus(s, id, to).statusIndex, st), st, File(b, f, tick, OpUpdate(id, to)), tick + 1)
  {
    if id in s.orders { TransitionTable(s.orders[id].status, to); }
    if Updatable(s, id, to) {
      MovedInOrder(s, id, to, st, f, tick);
    } else {
      LaterInOrder(ListOf(s.statusIndex, st), st, f, tick);
    }
  }

  lemma StepInOrder(s: State, op: Op, b: Book, f: Filing, tick: nat)
    requires Matches(s, b) && WeakStatusInv(s) && AllInOrder(s, f, tick)
    ensures AllInOrder(Apply(s, op), File(b, f, tick, op), tick + 1)
  {
    forall st ensures InOrder(ListOf(Apply(s, op).statusIndex, st), st, File(b, f, tick, op), tick + 1) {
      assert InOrder(ListOf(s.statusIndex, st), st, f, tick);
      match op
      case OpCreate(user) => CreatedInOrder(s, user, f, tick, st);
      case OpUpdate(id, to) => UpdatedInOrder(s, b, id, to, st, f, tick);
      case OpCancel(id) => LaterInOrder(ListOf(s.statusIndex, st), st, f, tick);
      case OpDelete(id) => DeletedInOrder(s, id, st, f, tick);
    }
  }

  lemma {:induction false} RunInOrder(s: State, ops: seq<Op>, b: Book, f: Filing, tick: nat)
    requires Matches(s, b) && WeakStatusInv(s) && AllInOrder(s, f, tick)
    ensures AllInOrder(Run(s, ops), FileAll(b, f, tick, ops), tick + |ops|)
    decreases |ops|
  {
    if ops != [] {
      StepInOrder(s, ops[0], b, f, tick);
      StepMatches(s, ops[0], b);
      StepKeepsWeakFiling(s, ops[0]);
      RunInOrder(Apply(s, ops[0]), ops[1..], Tell(b, ops[0]), File(b, f, tick, ops[0]), tick + 1);
    }
  }

  /**
   After every run each status list, which get_orders_by_status pages through, is in the order in which orders
   came to that status.
   */
  lemma StatusListsInOrder(ops: seq<Op>, st: Status)
    ensures InOrder(ListOf(Run(Empty, ops).statusIndex, st), st, FileAll(Blank, map[], 0, ops), |ops|)
  {
    RunInOrder(Empty, ops, Blank, map[], 0);
  }
}
