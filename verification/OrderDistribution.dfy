/** The status distribution over arbitrary runs: every order that leaves a list it was not in adds one to the sum. */
module OrderDistribution {
  import opened Results
  import opened Sequences
  import opened Sums
  import opened OrderModel

  /** Besides what every run keeps: nothing is listed twice under one status. */
  ghost predicate Tidy(s: State) {
    WeakStatusInv(s) && forall st, id: nat :: Times(s.statusIndex, st, id) <= 1
  }

  /** An update or a deletion that does not find the order in the list of its status. */
  predicate Strays(s: State, op: Op) {
    match op
    case OpUpdate(id, to) => Updatable(s, id, to) && Times(s.statusIndex, s.orders[id].status, id) == 0
    case OpDelete(id) => id in s.orders && Times(s.statusIndex, s.orders[id].status, id) == 0
    case OpCreate(_) => false
    case OpCancel(_) => false
  }

  /** Only orders whose status cancel_order has changed are missing in their list. */
  lemma StraysAreCancelled(s: State, op: Op)
    requires WeakStatusInv(s) && Strays(s, op)
    ensures s.orders[op.id].status == CANCELLED
  {
    var o := s.orders[op.id];
    assert o.status != CANCELLED ==> FiledOnce(s.statusIndex, op.id, o.status);
  }

  lemma StepStaysTidy(s: State, op: Op)
    requires Tidy(s)
    ensures Tidy(Apply(s, op))
  {
    StepKeepsWeakFiling(s, op);
    forall st, id: nat ensures Times(Apply(s, op).statusIndex, st, id) <= 1 {
      match op
      case OpCreate(user) => TimesAppended(s.statusIndex, CREATED, s.nextId, st, id);
      case OpUpdate(j, to) => if Updatable(s, j, to) { MovedOnce(s, j, to, st, id); }
      case OpCancel(_) =>
      case OpDelete(j) => if j in s.orders { TimesRemoved(s.statusIndex, s.orders[j].status, j, st, id); }
    }
  }

  /** An order that changes its status is listed under its old one only. */
  lemma MovedOnce(s: State, id: nat, to: Status, st: Status, j: nat)
    requires Tidy(s) && Updatable(s, id, to)
    ensures Times(Moved(s.statusIndex, id, s.orders[id].status, to), st, j) <= 1
  {
    var from := s.orders[id].status;
    TimesMoved(s.statusIndex, id, from, to, st, j);
    if from != to { assert FiledOnce(s.statusIndex, id, from); }
    assert Times(s.statusIndex, st, j) <= 1;
  }

  // ---------------------------------------------------------------- one step

  ghost function Sizes(index: map<Status, seq<nat>>): int {
    Sum(ListSizes(index))
  }

  lemma SizesUpdate(index: map<Status, seq<nat>>, st: Status, list: seq<nat>)
    ensures Sizes(index[st := list]) == Sizes(index) - |ListOf(index, st)| + |list|
  {
    SumUpdate(ListSizes(index), st, |list|);
    assert ListSizes(index[st := list]) == ListSizes(index)[st := |list|];
  }

  lemma {:induction false} WithoutSize(list: seq<nat>, id: nat)
    ensures |Without(list, id)| == |list| - multiset(list)[id]
  {
    if list != [] {
      WithoutSize(list[1..], id);
      assert list == [list[0]] + list[1..];
    }
  }

  lemma RemovedSizes(index: map<Status, seq<nat>>, from: Status, id: nat)
    ensures Sizes(index[from := Without(ListOf(index, from), id)]) == Sizes(index) - Times(index, from, id)
  {
    SizesUpdate(index, from, Without(ListOf(index, from), id));
    WithoutSize(ListOf(index, from), id);
  }

  lemma MovedSizes(index: map<Status, seq<nat>>, id: nat, from: Status, to: Status)
    ensures Sizes(Moved(index, id, from, to)) == Sizes(index) - Times(index, from, id) + 1
  {
    RemovedSizes(index, from, id);
    var removed := index[from := Without(ListOf(index, from), id)];
    SizesUpdate(removed, to, ListOf(removed, to) + [id]);
  }

  /** By how much the reported sum is above the number of orders. */
  ghost function Excess(s: State): int {
    Sum(Distribution(s)) - |s.orders|
  }

  lemma CreateExcess(s: State, user: nat)
    requires Tidy(s)
    ensures Excess(Create(s, user)) == Excess(s)
  {
    SizesUpdate(s.statusIndex, CREATED, ListOf(s.statusIndex, CREATED) + [s.nextId]);
    assert Create(s, user).orders.Keys == s.orders.Keys + {s.nextId};
  }

  lemma UpdateExcess(s: State, id: nat, to: Status)
    requires Tidy(s)
    ensures Excess(UpdateStatus(s, id, to)) == Excess(s) + if Strays(s, OpUpdate(id, to)) then 1 else 0
  {
    if Updatable(s, id, to) {
      var from := s.orders[id].status;
      MovedSizes(s.statusIndex, id, from, to);
      assert Times(s.statusIndex, from, id) <= 1;
      assert UpdateStatus(s, id, to).orders.Keys == s.orders.Keys;
    }
  }

  lemma DeleteExcess(s: State, id: nat)
    requires Tidy(s)
    ensures Excess(Delete(s, id)) == Excess(s) + if Strays(s, OpDelete(id)) then 1 else 0
  {
    if id in s.orders {
      var st := s.orders[id].status;
      RemovedSizes(s.statusIndex, st, id);
      assert Times(s.statusIndex, st, id) <= 1;
      assert s.orders.Keys == Delete(s, id).orders.Keys + {id};
    }
  }

  lemma StepExcess(s: State, op: Op)
    requires Tidy(s)
    ensures Excess(Apply(s, op)) == Excess(s) + if Strays(s, op) then 1 else 0
  {
    match op
    case OpCreate(user) => CreateExcess(s, user);
    case OpUpdate(id, to) => UpdateExcess(s, id, to);
    case OpCancel(id) => assert Cancel(s, id).orders.Keys == s.orders.Keys;
    case OpDelete(id) => DeleteExcess(s, id);
  }

  // ---------------------------------------------------------------- runs

  function StrayCount(s: State, ops: seq<Op>): nat
    decreases |ops|
  {
    if ops == [] then 0 else (if Strays(s, ops[0]) then 1 else 0) + StrayCount(Apply(s, ops[0]), ops[1..])
  }

  lemma {:induction false} RunExcess(s: State, ops: seq<Op>)
    requires Tidy(s)
    ensures Excess(Run(s, ops)) == Excess(s) + StrayCount(s, ops)
    decreases |ops|
  {
    if ops != [] {
      StepExcess(s, ops[0]);
      StepStaysTidy(s, ops[0]);
      RunExcess(Apply(s, ops[0]), ops[1..]);
    }
  }

  /**
   After every run the distribution adds up to the number of orders plus the number of steps that
   deleted or updated an order missing in its list; so it is right exactly when there was none.
   */
  lemma DistributionSum(ops: seq<Op>)
    ensures var s := Run(Empty, ops); Sum(Distribution(s)) == |s.orders| + StrayCount(Empty, ops)
  {
    assert Distribution(Empty) == map[];
    RunExcess(Empty, ops);
  }

  /** An order that is created, cancelled and deleted is gone but still counted. */
  lemma CancelledOrderStays()
    ensures !StatusInv(Run(Empty, [OpCreate(1)] + ([OpCancel(1)] + [])))
    ensures var s := Run(Empty, [OpCreate(1)] + ([OpCancel(1)] + ([OpDelete(1)] + [])));
      s.orders == map[] && Sum(Distribution(s)) == 1
  {
    var s1 := State(map[1 := Order(1, 1, CREATED)], map[1 := [1]], map[CREATED := [1]], 2);
    var s2 := s1.(orders := map[1 := Order(1, 1, CANCELLED)]);
    assert ListOf<nat, nat>(map[], 1) + [1] == [1] && ListOf<Status, nat>(map[], CREATED) + [1] == [1];
    assert Apply(Empty, OpCreate(1)) == s1;
    assert Apply(s1, OpCancel(1)) == s2;
    RunOne(Empty, OpCreate(1), [OpCancel(1)] + []);
    RunOne(s1, OpCancel(1), []);
    assert Times(s2.statusIndex, CANCELLED, 1) == 0 && !FiledOnce(s2.statusIndex, 1, CANCELLED);
    var ops := [OpCreate(1)] + ([OpCancel(1)] + ([OpDelete(1)] + []));
    RunOne(Empty, OpCreate(1), [OpCancel(1)] + ([OpDelete(1)] + []));
    RunOne(s1, OpCancel(1), [OpDelete(1)] + []);
    RunOne(s2, OpDelete(1), []);
    StrayOne(Empty, OpCreate(1), [OpCancel(1)] + ([OpDelete(1)] + []));
    StrayOne(s1, OpCancel(1), [OpDelete(1)] + []);
    StrayOne(s2, OpDelete(1), []);
    DistributionSum(ops);
  }

  lemma RunOne(s: State, op: Op, more: seq<Op>)
    ensures Run(s, [op] + more) == Run(Apply(s, op), more)
  {
    assert ([op] + more)[1..] == more;
  }

  lemma StrayOne(s: State, op: Op, more: seq<Op>)
    ensures StrayCount(s, [op] + more) == (if Strays(s, op) then 1 else 0) + StrayCount(Apply(s, op), more)
  {
    assert ([op] + more)[1..] == more;
  }
}
