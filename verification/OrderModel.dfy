/** The order manager as a state machine: live orders, the per-user index and the per-status index. */
module OrderModel {
  import opened Results
  import opened Sequences
  import opened Sums

  datatype Status =
    | CREATED | PENDING_PAYMENT | PAID | PROCESSING | SHIPPED
    | DELIVERED | COMPLETED | CANCELLED | REFUNDED | CLOSED

  datatype Order = Order(id: nat, user: nat, status: Status)

  datatype State = State(
    orders: map<nat, Order>,
    userIndex: map<nat, seq<nat>>,
    statusIndex: map<Status, seq<nat>>,
    nextId: nat)

  const Empty: State := State(map[], map[], map[], 1)

  /** The checks of can_transition_to, in the order of the code. */
  predicate CanTransition(from: Status, to: Status) {
    from == to
    || (from != CANCELLED && from != REFUNDED
        && match to
           case PAID => from == CREATED || from == PENDING_PAYMENT
           case SHIPPED => from == PAID || from == PROCESSING
           case CANCELLED => from != DELIVERED && from != SHIPPED
           case _ => true)
  }

  function Create(s: State, user: nat): State {
    State(s.orders[s.nextId := Order(s.nextId, user, CREATED)],
          s.userIndex[user := ListOf(s.userIndex, user) + [s.nextId]],
          s.statusIndex[CREATED := ListOf(s.statusIndex, CREATED) + [s.nextId]],
          s.nextId + 1)
  }

  /** The status lists once id moved from its old list to the end of the new one. */
  function Moved(index: map<Status, seq<nat>>, id: nat, from: Status, to: Status): map<Status, seq<nat>> {
    var removed := index[from := Without(ListOf(index, from), id)];
    removed[to := ListOf(removed, to) + [id]]
  }

  predicate Updatable(s: State, id: nat, to: Status) {
    id in s.orders && CanTransition(s.orders[id].status, to)
  }

  function UpdateStatus(s: State, id: nat, to: Status): State {
    if Updatable(s, id, to) then
      s.(orders := s.orders[id := s.orders[id].(status := to)],
         statusIndex := Moved(s.statusIndex, id, s.orders[id].status, to))
    else s
  }

  /** cancel_order sets the status and leaves the status lists alone. */
  function Cancel(s: State, id: nat): State {
    if Updatable(s, id, CANCELLED) then s.(orders := s.orders[id := s.orders[id].(status := CANCELLED)]) else s
  }

  function Delete(s: State, id: nat): State {
    if id in s.orders then
      var o := s.orders[id];
      s.(orders := s.orders - {id},
         userIndex := s.userIndex[o.user := Without(ListOf(s.userIndex, o.user), id)],
         statusIndex := s.statusIndex[o.status := Without(ListOf(s.statusIndex, o.status), id)])
    else s
  }

  datatype Op =
    | OpCreate(user: nat)
    | OpUpdate(id: nat, to: Status)
    | OpCancel(id: nat)
    | OpDelete(id: nat)

  function Apply(s: State, op: Op): State {
    match op
    case OpCreate(user) => Create(s, user)
    case OpUpdate(id, to) => UpdateStatus(s, id, to)
    case OpCancel(id) => Cancel(s, id)
    case OpDelete(id) => Delete(s, id)
  }

  function Run(s: State, ops: seq<Op>): State
    decreases |ops|
  {
    if ops == [] then s else Run(Apply(s, ops[0]), ops[1..])
  }

  // ---------------------------------------------------------------- the user index

  /** list is, in increasing order, exactly the live orders of user. */
  predicate ExactOrdersOf(s: State, user: nat, list: seq<nat>) {
    && Increasing(list)
    && (forall id :: id in list ==> id in s.orders && s.orders[id].user == user)
    && (forall id :: id in s.orders && s.orders[id].user == user ==> id in list)
  }

  predicate Keyed(s: State) {
    forall id :: id in s.orders ==> id < s.nextId && s.orders[id].id == id
  }

  ghost predicate UserInv(s: State) {
    Keyed(s) && forall u :: ExactOrdersOf(s, u, ListOf(s.userIndex, u))
  }

  lemma CreateKeepsUserInv(s: State, user: nat)
    requires UserInv(s)
    ensures UserInv(Create(s, user))
  {
    var t := Create(s, user);
    forall u ensures ExactOrdersOf(t, u, ListOf(t.userIndex, u)) {
      var before := ListOf(s.userIndex, u);
      assert ExactOrdersOf(s, u, before);
      if u == user {
        var list := before + [s.nextId];
        forall i, j | 0 <= i < j < |list| ensures list[i] < list[j] {
          assert before[i] in before;
        }
      }
    }
  }

  lemma DeleteKeepsUserInv(s: State, id: nat)
    requires UserInv(s)
    ensures UserInv(Delete(s, id))
  {
    if id in s.orders {
      var t := Delete(s, id);
      forall u ensures ExactOrdersOf(t, u, ListOf(t.userIndex, u)) {
        assert ExactOrdersOf(s, u, ListOf(s.userIndex, u));
        WithoutKeepsIncreasing(ListOf(s.userIndex, u), id);
      }
    }
  }

  lemma RelabelKeepsUserInv(s: State, id: nat, to: Status, index: map<Status, seq<nat>>)
    requires UserInv(s) && id in s.orders
    ensures UserInv(s.(orders := s.orders[id := s.orders[id].(status := to)], statusIndex := index))
  {
    var t := s.(orders := s.orders[id := s.orders[id].(status := to)], statusIndex := index);
    forall u ensures ExactOrdersOf(t, u, ListOf(t.userIndex, u)) {
      assert ExactOrdersOf(s, u, ListOf(s.userIndex, u));
    }
  }

  lemma StepKeepsUserInv(s: State, op: Op)
    requires UserInv(s)
    ensures UserInv(Apply(s, op))
  {
    match op
    case OpCreate(user) => CreateKeepsUserInv(s, user);
    case OpUpdate(id, to) =>
      if Updatable(s, id, to) { RelabelKeepsUserInv(s, id, to, Moved(s.statusIndex, id, s.orders[id].status, to)); }
    case OpCancel(id) => if Updatable(s, id, CANCELLED) { RelabelKeepsUserInv(s, id, CANCELLED, s.statusIndex); }
    case OpDelete(id) => DeleteKeepsUserInv(s, id);
  }

  lemma {:induction false} RunKeepsUserInv(s: State, ops: seq<Op>)
    requires UserInv(s)
    ensures UserInv(Run(s, ops))
    decreases |ops|
  {
    if ops != [] {
      StepKeepsUserInv(s, ops[0]);
      RunKeepsUserInv(Apply(s, ops[0]), ops[1..]);
    }
  }

  // ---------------------------------------------------------------- pages

  /** One page of a list. */
  function Page<T>(list: seq<T>, page: nat, size: nat): seq<T> {
    var start := page * size;
    if start >= |list| then []
    else if start + size <= |list| then list[start..start + size] else list[start..]
  }

  lemma PageSpan<T>(list: seq<T>, page: nat, size: nat)
    ensures var start := page * size; var end := if start + size < |list| then start + size else |list|;
      && |Page(list, page, size)| == (if start < end then end - start else 0)
      && forall i :: start <= i < end ==> Page(list, page, size)[i - start] == list[i]
  {
  }

  /** The first n pages, put together. */
  function FirstPages<T>(list: seq<T>, size: nat, n: nat): seq<T> {
    if n == 0 then [] else FirstPages(list, size, n - 1) + Page(list, n - 1, size)
  }

  lemma {:induction false} FirstPagesArePrefix<T>(list: seq<T>, size: nat, n: nat)
    requires size > 0
    ensures FirstPages(list, size, n) == if n * size <= |list| then list[..n * size] else list
  {
    if n > 0 {
      FirstPagesArePrefix(list, size, n - 1);
      assert n * size == (n - 1) * size + size;
    }
  }

  lemma EnoughPages<T>(list: seq<T>, size: nat, n: nat)
    requires size > 0 && n * size >= |list|
    ensures FirstPages(list, size, n) == list
  {
    FirstPagesArePrefix(list, size, n);
  }

  /** The pages of get_user_orders: the user's list from its end. */
  function UserPage(s: State, user: nat, page: nat, size: nat): seq<nat> {
    Page(Reversed(ListOf(s.userIndex, user)), page, size)
  }

  function FirstUserPages(s: State, user: nat, size: nat, n: nat): seq<nat> {
    if n == 0 then [] else FirstUserPages(s, user, size, n - 1) + UserPage(s, user, n - 1, size)
  }

  lemma {:induction false} UserPagesAreListPages(s: State, user: nat, size: nat, n: nat)
    ensures FirstUserPages(s, user, size, n) == FirstPages(Reversed(ListOf(s.userIndex, user)), size, n)
  {
    if n > 0 { UserPagesAreListPages(s, user, size, n - 1); }
  }

  /**
   After every run, for every user and every positive page size: enough pages of the user's
   orders, put together, are all live orders of the user, each once, newest first.
   */
  lemma UserPagesComplete(ops: seq<Op>, user: nat, size: nat, n: nat)
    requires size > 0 && n * size >= |ListOf(Run(Empty, ops).userIndex, user)|
    ensures var s := Run(Empty, ops); var all := FirstUserPages(s, user, size, n);
      (forall id :: id in all <==> id in s.orders && s.orders[id].user == user)
      && (forall i, j :: 0 <= i < j < |all| ==> all[i] > all[j])
  {
    RunKeepsUserInv(Empty, ops);
    var s := Run(Empty, ops);
    var list := ListOf(s.userIndex, user);
    assert ExactOrdersOf(s, user, list);
    UserPagesAreListPages(s, user, size, n);
    EnoughPages(Reversed(list), size, n);
    ReversedMembers(list);
  }

  lemma ReversedMembers(list: seq<nat>)
    ensures forall id :: id in Reversed(list) <==> id in list
  {
    forall id | id in list ensures id in Reversed(list) {
      var i :| 0 <= i < |list| && list[i] == id;
      assert Reversed(list)[|list| - 1 - i] == id;
    }
  }

  // ---------------------------------------------------------------- the status index

  /** How often id stands in the list of status st. */
  function Times(index: map<Status, seq<nat>>, st: Status, id: nat): nat {
    multiset(ListOf(index, st))[id]
  }

  /** id stands once, in the list of its status. */
  ghost predicate FiledOnce(index: map<Status, seq<nat>>, id: nat, status: Status) {
    forall st :: Times(index, st, id) == if st == status then 1 else 0
  }

  /** Every live order stands exactly once, in the list of its status, and nothing else is listed. */
  ghost predicate StatusInv(s: State) {
    && Keyed(s)
    && (forall id :: id in s.orders ==> FiledOnce(s.statusIndex, id, s.orders[id].status))
    && (forall st, id: nat :: Times(s.statusIndex, st, id) > 0 ==> id in s.orders)
  }

  /** What survives cancel_order: orders that are not CANCELLED are filed exactly. */
  ghost predicate WeakStatusInv(s: State) {
    && Keyed(s)
    && (forall id :: id in s.orders && s.orders[id].status != CANCELLED ==>
      FiledOnce(s.statusIndex, id, s.orders[id].status))
    && (forall st, id: nat :: Times(s.statusIndex, st, id) > 0 ==> id < s.nextId)
  }

  lemma TimesAppended(index: map<Status, seq<nat>>, to: Status, id: nat, st: Status, other: nat)
    ensures Times(index[to := ListOf(index, to) + [id]], st, other)
         == Times(index, st, other) + if st == to && other == id then 1 else 0
  {
  }

  lemma TimesRemoved(index: map<Status, seq<nat>>, from: Status, id: nat, st: Status, other: nat)
    ensures Times(index[from := Without(ListOf(index, from), id)], st, other)
         == if st == from && other == id then 0 else Times(index, st, other)
  {
  }

  /** Moving an order touches no other order's place. */
  lemma TimesMoved(index: map<Status, seq<nat>>, id: nat, from: Status, to: Status, st: Status, other: nat)
    ensures Times(Moved(index, id, from, to), st, other)
         == (if st == from && other == id then 0 else Times(index, st, other))
            + if st == to && other == id then 1 else 0
  {
    var removed := index[from := Without(ListOf(index, from), id)];
    TimesRemoved(index, from, id, st, other);
    TimesAppended(removed, to, id, st, other);
  }

  /** after is before with id moved between two lists. */
  ghost predicate MovedBetween(before: map<Status, seq<nat>>, after: map<Status, seq<nat>>, id: nat, from: Status,
      to: Status) {
    forall st, other: nat ::
      Times(after, st, other) ==
        (if st == from && other == id then 0 else Times(before, st, other)) + (if st == to && other == id then 1 else 0)
  }

  lemma FiledAfterMove(before: map<Status, seq<nat>>, after: map<Status, seq<nat>>, id: nat, from: Status,
      to: Status, other: nat, status: Status)
    requires MovedBetween(before, after, id, from, to) && FiledOnce(before, other, status)
    ensures other != id ==> FiledOnce(after, other, status)
    ensures other == id && status == from ==> FiledOnce(after, id, to)
  {
  }

  lemma FilingAfterMove(s: State, t: State, id: nat, to: Status)
    requires id in s.orders
    requires t == s.(orders := s.orders[id := s.orders[id].(status := to)], statusIndex := t.statusIndex)
    requires MovedBetween(s.statusIndex, t.statusIndex, id, s.orders[id].status, to)
    requires s.orders[id].status == CANCELLED ==> to == CANCELLED
    ensures StatusInv(s) ==> StatusInv(t)
    ensures WeakStatusInv(s) ==> WeakStatusInv(t)
  {
    forall o | o in s.orders && FiledOnce(s.statusIndex, o, s.orders[o].status)
      ensures FiledOnce(t.statusIndex, o, t.orders[o].status)
    {
      FiledAfterMove(s.statusIndex, t.statusIndex, id, s.orders[id].status, to, o, s.orders[o].status);
    }
    ListedAfterMove(s.statusIndex, t.statusIndex, id, s.orders[id].status, to);
  }

  lemma ListedAfterMove(before: map<Status, seq<nat>>, after: map<Status, seq<nat>>, id: nat, from: Status, to: Status)
    requires MovedBetween(before, after, id, from, to)
    ensures forall st, other: nat :: Times(after, st, other) > 0 ==> other == id || Times(before, st, other) > 0
  {
  }

  lemma UpdateKeepsFiling(s: State, id: nat, to: Status)
    ensures StatusInv(s) ==> StatusInv(UpdateStatus(s, id, to))
    ensures WeakStatusInv(s) ==> WeakStatusInv(UpdateStatus(s, id, to))
  {
    if Updatable(s, id, to) {
      var t := UpdateStatus(s, id, to);
      assert MovedBetween(s.statusIndex, t.statusIndex, id, s.orders[id].status, to) by {
        forall st, other: nat { TimesMoved(s.statusIndex, id, s.orders[id].status, to, st, other); }
      }
      FilingAfterMove(s, t, id, to);
    }
  }

  lemma FilingAfterCreate(s: State, t: State, user: nat)
    requires t == Create(s, user).(statusIndex := t.statusIndex)
    requires forall st, other: nat ::
      Times(t.statusIndex, st, other) ==
        Times(s.statusIndex, st, other) + (if st == CREATED && other == s.nextId then 1 else 0)
    ensures StatusInv(s) ==> StatusInv(t)
    ensures WeakStatusInv(s) ==> WeakStatusInv(t)
  {
    if Keyed(s) {
      forall id, status | id in s.orders && FiledOnce(s.statusIndex, id, status)
        ensures FiledOnce(t.statusIndex, id, status) {}
      if forall st :: Times(s.statusIndex, st, s.nextId) == 0 { assert FiledOnce(t.statusIndex, s.nextId, CREATED); }
    }
  }

  lemma CreateKeepsFiling(s: State, user: nat)
    ensures StatusInv(s) ==> StatusInv(Create(s, user))
    ensures WeakStatusInv(s) ==> WeakStatusInv(Create(s, user))
  {
    var t := Create(s, user);
    forall st, other: nat ensures Times(t.statusIndex, st, other)
        == Times(s.statusIndex, st, other) + if st == CREATED && other == s.nextId then 1 else 0
    {
      TimesAppended(s.statusIndex, CREATED, s.nextId, st, other);
    }
    FilingAfterCreate(s, t, user);
  }

  lemma DeleteKeepsFiling(s: State, id: nat)
    ensures StatusInv(s) ==> StatusInv(Delete(s, id))
    ensures WeakStatusInv(s) ==> WeakStatusInv(Delete(s, id))
  {
    if id in s.orders {
      var left := Delete(s, id);
      forall st, other: nat ensures Times(left.statusIndex, st, other)
          == if st == s.orders[id].status && other == id then 0 else Times(s.statusIndex, st, other)
      {
        TimesRemoved(s.statusIndex, s.orders[id].status, id, st, other);
      }
    }
  }

  /** cancel_order keeps the status lists exact precisely when it leaves the status as it was. */
  lemma CancelFilingIff(s: State, id: nat)
    requires StatusInv(s)
    ensures StatusInv(Cancel(s, id)) <==> !Updatable(s, id, CANCELLED) || s.orders[id].status == CANCELLED
    ensures WeakStatusInv(s)
  {
    if Updatable(s, id, CANCELLED) && s.orders[id].status != CANCELLED {
      assert FiledOnce(s.statusIndex, id, s.orders[id].status) && id in Cancel(s, id).orders;
      assert Times(Cancel(s, id).statusIndex, CANCELLED, id) == 0;
      assert !FiledOnce(Cancel(s, id).statusIndex, id, CANCELLED);
    }
  }

  lemma StepKeepsWeakFiling(s: State, op: Op)
    requires WeakStatusInv(s)
    ensures WeakStatusInv(Apply(s, op))
  {
    match op
    case OpCreate(user) => CreateKeepsFiling(s, user);
    case OpUpdate(id, to) => UpdateKeepsFiling(s, id, to);
    case OpDelete(id) => DeleteKeepsFiling(s, id);
    case OpCancel(id) =>
  }

  lemma {:induction false} RunKeepsWeakFiling(s: State, ops: seq<Op>)
    requires WeakStatusInv(s)
    ensures WeakStatusInv(Run(s, ops))
    decreases |ops|
  {
    if ops != [] {
      StepKeepsWeakFiling(s, ops[0]);
      RunKeepsWeakFiling(Apply(s, ops[0]), ops[1..]);
    }
  }

  /** Cancellations only where they change nothing. */
  predicate QuietRun(s: State, ops: seq<Op>)
    decreases |ops|
  {
    ops == []
    || ((ops[0].OpCancel? && Updatable(s, ops[0].id, CANCELLED) ==> s.orders[ops[0].id].status == CANCELLED)
        && QuietRun(Apply(s, ops[0]), ops[1..]))
  }

  lemma {:induction false} RunKeepsFiling(s: State, ops: seq<Op>)
    requires StatusInv(s) && QuietRun(s, ops)
    ensures StatusInv(Run(s, ops))
    decreases |ops|
  {
    if ops != [] {
      match ops[0] {
        case OpCreate(user) => CreateKeepsFiling(s, user);
        case OpUpdate(id, to) => UpdateKeepsFiling(s, id, to);
        case OpDelete(id) => DeleteKeepsFiling(s, id);
        case OpCancel(id) => CancelFilingIff(s, id);
      }
      RunKeepsFiling(Apply(s, ops[0]), ops[1..]);
    }
  }

  /** What get_status_distribution reports. */
  function Distribution(s: State): map<Status, int> {
    ListSizes(s.statusIndex)
  }

  function ListSizes(index: map<Status, seq<nat>>): map<Status, int> {
    map st | st in index :: |index[st]|
  }

  ghost predicate Partition(parts: map<Status, set<nat>>, members: set<nat>) {
    && (forall a, b :: a in parts && b in parts && a != b ==> parts[a] !! parts[b])
    && (forall st :: st in parts ==> parts[st] <= members)
    && (forall id :: id in members ==> exists st :: st in parts && id in parts[st])
  }

  function PartSizes(parts: map<Status, set<nat>>): map<Status, int> {
    map st | st in parts :: |parts[st]|
  }

  /** The parts of a partition have as many elements as the whole. */
  lemma {:induction false} PartitionCount(parts: map<Status, set<nat>>, members: set<nat>)
    requires Partition(parts, members)
    ensures Sum(PartSizes(parts)) == |members|
    decreases parts.Keys
  {
    if parts.Keys == {} {
      assert PartSizes(parts) == map[];
      assert members == {};
    } else {
      var st :| st in parts.Keys;
      PartSizesRest(parts, st);
      PartitionRest(parts, members, st);
      PartitionCount(parts - {st}, members - parts[st]);
    }
  }

  lemma PartSizesRest(parts: map<Status, set<nat>>, st: Status)
    requires st in parts
    ensures Sum(PartSizes(parts)) == |parts[st]| + Sum(PartSizes(parts - {st}))
  {
    SumRemove(PartSizes(parts), st);
    assert PartSizes(parts) - {st} == PartSizes(parts - {st});
  }

  lemma PartitionRest(parts: map<Status, set<nat>>, members: set<nat>, st: Status)
    requires Partition(parts, members) && st in parts
    ensures Partition(parts - {st}, members - parts[st])
    ensures |members| == |parts[st]| + |members - parts[st]| && (parts - {st}).Keys < parts.Keys
  {
    assert members == parts[st] + (members - parts[st]);
    var rest := parts - {st};
    forall id | id in members - parts[st] ensures exists t :: t in rest && id in rest[t] {
      var t :| t in parts && id in parts[t];
      assert t in rest;
    }
  }

  function Elements(list: seq<nat>): set<nat> {
    set id | id in list
  }

  lemma {:induction false} ListSize(list: seq<nat>)
    requires NoDuplicates(list)
    ensures |Elements(list)| == |list|
  {
    if list != [] {
      var rest := list[1..];
      assert NoDuplicates(rest) by {
        forall i, j | 0 <= i < j < |rest| ensures rest[i] != rest[j] { assert list[i + 1] != list[j + 1]; }
      }
      assert list[0] !in rest;
      assert Elements(list) == {list[0]} + Elements(rest);
      ListSize(rest);
    }
  }

  lemma ListedOrder(s: State, st: Status, id: nat)
    requires StatusInv(s) && id in ListOf(s.statusIndex, st)
    ensures id in s.orders && s.orders[id].status == st && multiset(ListOf(s.statusIndex, st))[id] == 1
  {
    assert Times(s.statusIndex, st, id) > 0;
    assert FiledOnce(s.statusIndex, id, s.orders[id].status);
  }

  /** With an exact index the distribution adds up to the number of orders. */
  lemma DistributionCountsOrders(s: State)
    requires StatusInv(s)
    ensures Sum(Distribution(s)) == |s.orders|
  {
    var index := s.statusIndex;
    var parts := map st | st in index :: Elements(index[st]);
    forall st | st in index
      ensures |parts[st]| == |index[st]|
      ensures forall id :: id in parts[st] ==> id in s.orders && s.orders[id].status == st
    {
      ListExact(s, st);
    }
    forall id | id in s.orders ensures exists st :: st in parts && id in parts[st] {
      assert FiledOnce(index, id, s.orders[id].status);
      assert Times(index, s.orders[id].status, id) == 1;
      assert s.orders[id].status in parts;
    }
    assert Partition(parts, s.orders.Keys);
    assert PartSizes(parts) == Distribution(s);
    PartitionCount(parts, s.orders.Keys);
  }

  lemma ListExact(s: State, st: Status)
    requires StatusInv(s)
    ensures forall id :: id in ListOf(s.statusIndex, st) ==> id in s.orders && s.orders[id].status == st
    ensures |Elements(ListOf(s.statusIndex, st))| == |ListOf(s.statusIndex, st)|
  {
    var list := ListOf(s.statusIndex, st);
    forall id | id in list ensures id in s.orders && s.orders[id].status == st && multiset(list)[id] == 1 {
      ListedOrder(s, st, id);
    }
    NoDuplicatesMultiset(list);
    ListSize(list);
  }

  /** One page of get_orders_by_status; ids without an order are skipped. */
  function StatusPage(s: State, st: Status, page: nat, size: nat): seq<nat> {
    Live(s, Page(ListOf(s.statusIndex, st), page, size))
  }

  function Live(s: State, ids: seq<nat>): (r: seq<nat>)
    ensures forall id :: id in r <==> id in ids && id in s.orders
  {
    if ids == [] then []
    else
      if ids[0] in s.orders then [ids[0]] + Live(s, ids[1..]) else Live(s, ids[1..])
  }

  function FirstStatusPages(s: State, st: Status, size: nat, n: nat): seq<nat> {
    if n == 0 then [] else FirstStatusPages(s, st, size, n - 1) + StatusPage(s, st, n - 1, size)
  }

  lemma {:induction false} LiveConcat(s: State, a: seq<nat>, b: seq<nat>)
    ensures Live(s, a + b) == Live(s, a) + Live(s, b)
  {
    if a == [] {
      assert a + b == b;
    } else {
      assert (a + b)[1..] == a[1..] + b;
      LiveConcat(s, a[1..], b);
    }
  }

  lemma {:induction false} LiveTimes(s: State, ids: seq<nat>, id: nat)
    ensures multiset(Live(s, ids))[id] == if id in s.orders then multiset(ids)[id] else 0
  {
    if ids != [] {
      LiveTimes(s, ids[1..], id);
      assert ids == [ids[0]] + ids[1..];
    }
  }

  lemma {:induction false} StatusPagesAreListPages(s: State, st: Status, size: nat, n: nat)
    ensures FirstStatusPages(s, st, size, n) == Live(s, FirstPages(ListOf(s.statusIndex, st), size, n))
  {
    if n > 0 {
      var list := ListOf(s.statusIndex, st);
      StatusPagesAreListPages(s, st, size, n - 1);
      var before, page := FirstPages(list, size, n - 1), Page(list, n - 1, size);
      LiveConcat(s, before, page);
      assert FirstPages(list, size, n) == before + page;
    }
  }

  /**
   After every run whatsoever the pages of a status other than CANCELLED show every live order of
   that status exactly once; after a run without effective cancel_order they show nothing else,
   CANCELLED included, and the distribution adds up to the number of orders.
   */
  lemma StatusPagesComplete(ops: seq<Op>, st: Status, size: nat, n: nat, id: nat)
    requires size > 0 && n * size >= |ListOf(Run(Empty, ops).statusIndex, st)|
    ensures var s := Run(Empty, ops); var shown := multiset(FirstStatusPages(s, st, size, n))[id];
      (st != CANCELLED && id in s.orders && s.orders[id].status == st ==> shown == 1)
      && (QuietRun(Empty, ops) ==>
            shown == (if id in s.orders && s.orders[id].status == st then 1 else 0)
            && Sum(Distribution(s)) == |s.orders|)
  {
    var s := Run(Empty, ops);
    assert WeakStatusInv(s) by { RunKeepsWeakFiling(Empty, ops); }
    PagesShow(s, st, size, n, id);
    if st != CANCELLED && id in s.orders && s.orders[id].status == st { assert FiledOnce(s.statusIndex, id, st); }
    if QuietRun(Empty, ops) {
      assert StatusInv(s) by { RunKeepsFiling(Empty, ops); }
      if id in s.orders { assert FiledOnce(s.statusIndex, id, s.orders[id].status); }
      DistributionCountsOrders(s);
    }
  }

  lemma PagesShow(s: State, st: Status, size: nat, n: nat, id: nat)
    requires size > 0 && n * size >= |ListOf(s.statusIndex, st)|
    ensures multiset(FirstStatusPages(s, st, size, n))[id] == if id in s.orders then Times(s.statusIndex, st, id) else 0
  {
    var list := ListOf(s.statusIndex, st);
    LiveTimes(s, list, id);
    assert FirstStatusPages(s, st, size, n) == Live(s, list) by {
      EnoughPages(list, size, n);
      StatusPagesAreListPages(s, st, size, n);
    }
  }

  // ---------------------------------------------------------------- the life of one order

  function StatusOf(s: State, id: nat): Option<Status> {
    if id in s.orders then Some(s.orders[id].status) else None
  }

  /** The statuses of an order before the run and after each of its steps. */
  function Life(s: State, ops: seq<Op>, id: nat): (life: seq<Option<Status>>)
    ensures |life| == |ops| + 1
    decreases |ops|
  {
    [StatusOf(s, id)] + if ops == [] then [] else Life(Apply(s, ops[0]), ops[1..], id)
  }

  predicate Final(st: Status) { st == CANCELLED || st == REFUNDED }

  predicate Payable(st: Option<Status>) { st == Some(PAID) || st == Some(PROCESSING) }

  /** What one operation may do to one order. */
  predicate LifeStep(a: Option<Status>, b: Option<Status>) {
    match (a, b)
    case (None, None) => true
    case (None, Some(st)) => st == CREATED
    case (Some(_), None) => true
    case (Some(x), Some(y)) =>
      (Final(x) ==> y == x) && (y == SHIPPED ==> x == SHIPPED || x == PAID || x == PROCESSING)
  }

  lemma StepIsLifeStep(s: State, op: Op, id: nat)
    requires Keyed(s)
    ensures LifeStep(StatusOf(s, id), StatusOf(Apply(s, op), id)) && Keyed(Apply(s, op))
    ensures id < s.nextId && id !in s.orders ==> id !in Apply(s, op).orders && id < Apply(s, op).nextId
  {
  }

  lemma {:induction false} LifeSteps(s: State, ops: seq<Op>, id: nat)
    requires Keyed(s)
    ensures forall i :: 0 <= i < |ops| ==> LifeStep(Life(s, ops, id)[i], Life(s, ops, id)[i + 1])
    decreases |ops|
  {
    if ops != [] {
      StepIsLifeStep(s, ops[0], id);
      LifeSteps(Apply(s, ops[0]), ops[1..], id);
      var rest := Life(Apply(s, ops[0]), ops[1..], id);
      forall i | 0 <= i < |ops| ensures LifeStep(Life(s, ops, id)[i], Life(s, ops, id)[i + 1]) {
        if i > 0 { assert LifeStep(rest[i - 1], rest[i]); }
      }
    }
  }

  /** CANCELLED and REFUNDED are absorbing: from then on the order keeps that status or is gone. */
  lemma {:induction false} FinalIsAbsorbing(s: State, ops: seq<Op>, id: nat, i: nat, j: nat)
    requires Keyed(s) && i <= j <= |ops|
    requires Life(s, ops, id)[i].Some? && Final(Life(s, ops, id)[i].value)
    ensures Life(s, ops, id)[j] == None || Life(s, ops, id)[j] == Life(s, ops, id)[i]
    decreases |ops|
  {
    if i > 0 {
      StepIsLifeStep(s, ops[0], id);
      FinalIsAbsorbing(Apply(s, ops[0]), ops[1..], id, i - 1, j - 1);
    } else if j > 0 {
      StepIsLifeStep(s, ops[0], id);
      if id in Apply(s, ops[0]).orders {
        FinalIsAbsorbing(Apply(s, ops[0]), ops[1..], id, 0, j - 1);
      } else {
        GoneForGood(Apply(s, ops[0]), ops[1..], id, j - 1);
      }
    }
  }

  /** Ids are not reused: a deleted order does not come back. */
  lemma {:induction false} GoneForGood(s: State, ops: seq<Op>, id: nat, j: nat)
    requires Keyed(s) && id !in s.orders && id < s.nextId && j <= |ops|
    ensures Life(s, ops, id)[j] == None
    decreases |ops|
  {
    if j > 0 {
      StepIsLifeStep(s, ops[0], id);
      GoneForGood(Apply(s, ops[0]), ops[1..], id, j - 1);
    }
  }

  /** On a run from the start, an order that is SHIPPED was PAID or PROCESSING at some earlier step. */
  lemma {:induction false} ShippedWasPaid(ops: seq<Op>, id: nat, j: nat)
    requires j <= |ops| && Life(Empty, ops, id)[j] == Some(SHIPPED)
    ensures exists i :: 0 <= i < j && Payable(Life(Empty, ops, id)[i])
    decreases j
  {
    LifeSteps(Empty, ops, id);
    var life := Life(Empty, ops, id);
    assert j > 0;
    assert LifeStep(life[j - 1], life[j - 1 + 1]);
    if life[j - 1] == Some(SHIPPED) {
      ShippedWasPaid(ops, id, j - 1);
    } else {
      assert Payable(life[j - 1]);
    }
  }
}
