/** The order manager with its maps updated in place. */
module OrderManagers {
  import opened Results
  import opened Sequences
  import opened Sums
  import opened OrderModel

  class OrderManager {
    var orders: map<nat, Order>
    var userOrderIndex: map<nat, seq<nat>>
    var statusIndex: map<Status, seq<nat>>
    var nextOrderId: nat

    function State(): State
      reads this
    {
      OrderModel.State(orders, userOrderIndex, statusIndex, nextOrderId)
    }

    /** Exact user lists, and exact status lists for all orders that are not CANCELLED. */
    ghost predicate Valid()
      reads this
    {
      UserInv(State()) && WeakStatusInv(State())
    }

    constructor ()
      ensures State() == Empty && Valid()
    {
      orders, userOrderIndex, statusIndex, nextOrderId := map[], map[], map[], 1;
    }

    method CreateOrder(user: nat) returns (id: nat)
      requires Valid()
      modifies this
      ensures Valid() && State() == Create(old(State()), user)
      ensures id == old(nextOrderId) && id !in old(orders)
    {
      CreateKeepsUserInv(State(), user);
      CreateKeepsFiling(State(), user);
      id := nextOrderId;
      nextOrderId := nextOrderId + 1;
      orders := orders[id := Order(id, user, CREATED)];
      userOrderIndex := userOrderIndex[user := ListOf(userOrderIndex, user) + [id]];
      statusIndex := statusIndex[CREATED := ListOf(statusIndex, CREATED) + [id]];
    }

    method UpdateOrderStatus(id: nat, to: Status) returns (r: Outcome)
      requires Valid()
      modifies this
      ensures Valid() && State() == UpdateStatus(old(State()), id, to)
      ensures r == if id !in old(orders) then Error(OrderNotFound)
        else if CanTransition(old(orders)[id].status, to) then Ok(()) else Error(InvalidParameter)
    {
      StepKeepsUserInv(State(), OpUpdate(id, to));
      UpdateKeepsFiling(State(), id, to);
      if id !in orders {
        return Error(OrderNotFound);
      }
      if !CanTransition(orders[id].status, to) {
        return Error(InvalidParameter);
      }
      var from := orders[id].status;
      orders := orders[id := orders[id].(status := to)];
      statusIndex := statusIndex[from := Without(ListOf(statusIndex, from), id)];
      statusIndex := statusIndex[to := ListOf(statusIndex, to) + [id]];
      return Ok(());
    }

    method CancelOrder(id: nat) returns (r: Outcome)
      requires Valid()
      modifies this
      ensures Valid() && State() == Cancel(old(State()), id)
      ensures r == if id !in old(orders) then Error(OrderNotFound)
        else if CanTransition(old(orders)[id].status, CANCELLED) then Ok(()) else Error(InvalidParameter)
    {
      StepKeepsUserInv(State(), OpCancel(id));
      StepKeepsWeakFiling(State(), OpCancel(id));
      if id !in orders {
        return Error(OrderNotFound);
      }
      if !CanTransition(orders[id].status, CANCELLED) {
        return Error(InvalidParameter);
      }
      orders := orders[id := orders[id].(status := CANCELLED)];
      return Ok(());
    }

    method DeleteOrder(id: nat) returns (r: Outcome)
      requires Valid()
      modifies this
      ensures Valid() && State() == Delete(old(State()), id)
      ensures r == if id in old(orders) then Ok(()) else Error(OrderNotFound)
    {
      DeleteKeepsUserInv(State(), id);
      DeleteKeepsFiling(State(), id);
      if id !in orders {
        return Error(OrderNotFound);
      }
      var order := orders[id];
      userOrderIndex := userOrderIndex[order.user := Without(ListOf(userOrderIndex, order.user), id)];
      statusIndex := statusIndex[order.status := Without(ListOf(statusIndex, order.status), id)];
      orders := orders - {id};
      return Ok(());
    }

    /** One page of a user's orders, named by id, newest first. */
    method GetUserOrders(user: nat, page: nat, pageSize: nat) returns (r: seq<nat>)
      requires Valid()
      ensures r == UserPage(State(), user, page, pageSize)
      ensures forall id :: id in r ==> id in orders && orders[id].user == user
    {
      r := [];
      ghost var list := ListOf(userOrderIndex, user);
      assert ExactOrdersOf(State(), user, list);
      if user !in userOrderIndex {
        return;
      }
      var ids := userOrderIndex[user];
      var start := page * pageSize;
      var end := if start + pageSize < |ids| then start + pageSize else |ids|;
      ghost var wanted := Page(Reversed(ids), page, pageSize);
      PageSpan(Reversed(ids), page, pageSize);
      var i := start;
      while i < end
        invariant start <= i && (i <= end || i == start)
        invariant r == wanted[..i - start]
      {
        var reversedIdx := |ids| - 1 - i;
        assert ids[reversedIdx] in ids && wanted[i - start] == ids[reversedIdx];
        if ids[reversedIdx] in orders {
          r := r + [ids[reversedIdx]];
        }
        i := i + 1;
      }
      assert wanted[..i - start] == wanted;
      ReversedMembers(ids);
    }

    /** One page of a status list; ids whose order is gone are skipped. */
    method GetOrdersByStatus(st: Status, page: nat, pageSize: nat) returns (r: seq<nat>)
      ensures r == StatusPage(State(), st, page, pageSize)
    {
      r := [];
      if st !in statusIndex {
        return;
      }
      var ids := statusIndex[st];
      var start := page * pageSize;
      var end := if start + pageSize < |ids| then start + pageSize else |ids|;
      ghost var list := Page(ids, page, pageSize);
      var i := start;
      while i < end
        invariant start <= i && (i <= end || i == start)
        invariant i - start <= |list| && r == Live(State(), list[..i - start])
      {
        assert list[..i - start + 1] == list[..i - start] + [ids[i]];
        LiveConcat(State(), list[..i - start], [ids[i]]);
        if ids[i] in orders {
          r := r + [ids[i]];
        }
        i := i + 1;
      }
      assert list[..i - start] == list;
    }

    method GetStatusDistribution() returns (m: map<Status, int>)
      ensures m == Distribution(State())
      ensures StatusInv(State()) ==> Sum(m) == |orders|
    {
      m := map[];
      var rest := statusIndex.Keys;
      while rest != {}
        invariant rest <= statusIndex.Keys && m.Keys == statusIndex.Keys - rest
        invariant forall st :: st in m ==> m[st] == |statusIndex[st]|
        decreases rest
      {
        var st :| st in rest;
        m := m[st := |statusIndex[st]|];
        rest := rest - {st};
      }
      if StatusInv(State()) { DistributionCountsOrders(State()); }
    }
  }
}
