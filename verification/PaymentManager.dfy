/** The payment manager with its maps updated in place; a gateway's random refusal is a parameter. */
module PaymentManagers {
  import opened Results
  import opened Sequences
  import opened PaymentModel

  class PaymentManager {
    var transactions: map<nat, Transaction>
    var refunds: map<nat, Refund>
    var gateways: set<Gateway>
    var orderTransactionIndex: map<nat, seq<nat>>
    var userTransactionIndex: map<nat, seq<nat>>

    function State(): State
      reads this
    {
      PaymentModel.State(transactions, refunds, gateways, orderTransactionIndex, userTransactionIndex)
    }

    /** Ids 1 to n, refunds within bounds, exact indexes. */
    ghost predicate Valid()
      reads this
    {
      Inv(State())
    }

    constructor ()
      ensures State() == Initial && Valid()
    {
      transactions, refunds := map[], map[];
      gateways := {AlipayGateway, WechatPayGateway, CreditCardGateway};
      orderTransactionIndex, userTransactionIndex := map[], map[];
      new;
      InitialInv();
    }

    method CreateTransactionFor(order: nat, user: nat, amount: int, m: Method) returns (id: nat)
      requires Valid()
      modifies this
      ensures Valid() && State() == CreateTransaction(old(State()), order, user, amount, m)
      ensures id == |transactions| && id !in old(transactions)
    {
      ghost var start := State();
      CreateKeepsInv(start, order, user, amount, m);
      id := |transactions| + 1;
      var txn := Transaction(id, order, user, amount, 0, m, GatewayFor(m), PENDING, NONE);
      transactions := transactions[id := txn];
      orderTransactionIndex := orderTransactionIndex[order := ListOf(orderTransactionIndex, order) + [id]];
      userTransactionIndex := userTransactionIndex[user := ListOf(userTransactionIndex, user) + [id]];
      assert State() == CreateTransaction(start, order, user, amount, m);
    }

    method PayTransaction(id: nat, declined: bool) returns (r: Outcome)
      requires Valid()
      modifies `transactions
      ensures Valid() && State() == ProcessPayment(old(State()), id, declined)
      ensures r == PaymentOutcome(old(State()), id)
    {
      PaymentKeepsInv(State(), id, declined);
      if id !in transactions {
        return Error(PaymentNotFound);
      }
      var txn := transactions[id];
      if txn.gateway !in gateways {
        return Error(PaymentGatewayNotFound);
      }
      if !Supports(txn.gateway, txn.payBy) {
        return Error(PaymentMethodNotSupported);
      }
      if txn.gateway.AlipayGateway? && txn.amount < 1 {
        transactions := transactions[id := txn.(status := FAILED)];
        return Error(PaymentInvalidAmount);
      }
      transactions := transactions[id := txn.(status := if declined then FAILED else SUCCESS)];
      return Ok(());
    }

    method CancelTransaction(id: nat) returns (r: Outcome)
      requires Valid()
      modifies `transactions
      ensures Valid() && State() == CancelPayment(old(State()), id)
      ensures r == if id !in old(transactions) then Error(PaymentNotFound)
        else if old(transactions)[id].status == PENDING || old(transactions)[id].status == PROCESSING then Ok(())
        else Error(PaymentInvalidStatus)
    {
      StatusKeepsInv(State(), id, CANCELLED);
      if id !in transactions {
        return Error(PaymentNotFound);
      }
      if transactions[id].status != PENDING && transactions[id].status != PROCESSING {
        return Error(PaymentInvalidStatus);
      }
      transactions := transactions[id := transactions[id].(status := CANCELLED)];
      return Ok(());
    }

    method UpdateTransactionStatus(id: nat, status: Status) returns (r: Outcome)
      requires Valid()
      modifies `transactions
      ensures Valid() && State() == SetStatus(old(State()), id, status)
      ensures r == if id in old(transactions) then Ok(()) else Error(PaymentNotFound)
    {
      StatusKeepsInv(State(), id, status);
      if id !in transactions {
        return Error(PaymentNotFound);
      }
      transactions := transactions[id := transactions[id].(status := status)];
      return Ok(());
    }

    method RetryFailedTransaction(id: nat, declined: bool) returns (r: Outcome)
      requires Valid()
      modifies `transactions
      ensures Valid() && State() == RetryFailed(old(State()), id, declined)
      ensures r == if id !in old(transactions) then Error(PaymentNotFound)
        else if old(transactions)[id].status != FAILED then Error(PaymentInvalidStatus)
        else PaymentOutcome(old(State()), id)
    {
      if id !in transactions {
        return Error(PaymentNotFound);
      }
      if transactions[id].status != FAILED {
        return Error(PaymentInvalidStatus);
      }
      var _ := UpdateTransactionStatus(id, PENDING);
      r := PayTransaction(id, declined);
    }

    method RequestRefund(id: nat, amount: int) returns (r: Result<nat>)
      requires Valid()
      modifies `refunds
      ensures Valid() && State() == CreateRefund(old(State()), id, amount)
      ensures id !in transactions ==> r == Error(PaymentNotFound)
      ensures id in transactions ==>
        if CanRefund(transactions[id], amount).Ok? then r == Ok(|old(refunds)| + 1)
        else r == Error(CanRefund(transactions[id], amount).code)
    {
      if id !in transactions {
        return Error(PaymentNotFound);
      }
      var check := CanRefund(transactions[id], amount);
      if check.Error? {
        return Error(check.code);
      }
      var n := |refunds| + 1;
      refunds := refunds[n := Refund(n, id, amount, REQUESTED)];
      return Ok(n);
    }

    /**
     The answer is a success even when record_refund refuses: its verdict is dropped. A request
     always names a live transaction, so looking that up cannot fail.
     */
    method ProcessRefundRequest(n: nat) returns (r: Outcome)
      requires Valid()
      modifies `refunds, `transactions
      ensures Valid() && State() == ProcessRefund(old(State()), n)
      ensures r == RefundOutcome(old(State()), n)
    {
      ghost var start := State();
      RefundKeepsInv(start, n);
      if n !in refunds {
        return Error(PaymentRefundNotFound);
      }
      var refund := refunds[n];
      var txn := transactions[refund.transaction];
      if txn.gateway !in gateways {
        return Error(PaymentGatewayNotFound);
      }
      refunds := refunds[n := refund.(status := COMPLETED)];
      var _ := RecordRefundOn(refund.transaction, refund.amount);
      assert State() == ProcessRefund(start, n);
      return Ok(());
    }

    /** record_refund of one transaction. */
    method RecordRefundOn(id: nat, amount: int) returns (r: Outcome)
      requires id in transactions
      modifies `transactions
      ensures transactions == old(transactions)[id := RecordRefund(old(transactions)[id], amount)]
      ensures r == CanRefund(old(transactions)[id], amount)
    {
      var txn := transactions[id];
      r := CanRefund(txn, amount);
      if r.Error? {
        return;
      }
      txn := txn.(refunded := txn.refunded + amount);
      if txn.refunded >= txn.amount {
        txn := txn.(refundStatus := COMPLETED, status := REFUNDED);
      } else {
        txn := txn.(refundStatus := COMPLETED, status := PARTIALLY_REFUNDED);
      }
      transactions := transactions[id := txn];
    }

    method RejectRefundRequest(n: nat) returns (r: Outcome)
      requires Valid()
      modifies `refunds
      ensures Valid() && State() == RejectRefund(old(State()), n)
      ensures r == if n in old(refunds) then Ok(()) else Error(PaymentRefundNotFound)
    {
      if n !in refunds {
        return Error(PaymentRefundNotFound);
      }
      refunds := refunds[n := refunds[n].(status := REJECTED)];
      return Ok(());
    }

    /** Exactly the transactions of the order, in id order. */
    method GetTransactionsByOrder(order: nat) returns (r: seq<Transaction>)
      requires Valid()
      ensures forall t :: t in r <==> exists id :: id in transactions && transactions[id] == t && t.order == order
      ensures forall i, j :: 0 <= i < j < |r| ==> r[i].id < r[j].id
    {
      var ids := ListOf(orderTransactionIndex, order);
      assert ExactList(OfOrder(transactions, order), ids);
      r := Collect(ids, OfOrder(transactions, order));
    }

    method GetTransactionsByUser(user: nat) returns (r: seq<Transaction>)
      requires Valid()
      ensures forall t :: t in r <==> exists id :: id in transactions && transactions[id] == t && t.user == user
      ensures forall i, j :: 0 <= i < j < |r| ==> r[i].id < r[j].id
    {
      var ids := ListOf(userTransactionIndex, user);
      assert ExactList(OfUser(transactions, user), ids);
      r := Collect(ids, OfUser(transactions, user));
    }

    /** The loop of both lookups. */
    method Collect(ids: seq<nat>, ghost picked: set<nat>) returns (r: seq<Transaction>)
      requires Valid() && ExactList(picked, ids) && picked <= transactions.Keys
      ensures forall t: Transaction :: t in r <==> t.id in picked && transactions[t.id] == t
      ensures forall i, j :: 0 <= i < j < |r| ==> r[i].id < r[j].id
    {
      r := [];
      for i := 0 to |ids|
        invariant |r| == i
        invariant forall k :: 0 <= k < i ==> ids[k] in transactions && r[k] == transactions[ids[k]] && r[k].id == ids[k]
      {
        assert ids[i] in ids;
        r := r + [transactions[ids[i]]];
      }
      forall t: Transaction | t.id in picked && transactions[t.id] == t ensures t in r {
        var k :| 0 <= k < |ids| && ids[k] == t.id;
        assert r[k] == t;
      }
      forall t | t in r ensures t.id in picked && transactions[t.id] == t {
        var k :| 0 <= k < |r| && r[k] == t;
        assert ids[k] in ids;
      }
    }
  }
}
