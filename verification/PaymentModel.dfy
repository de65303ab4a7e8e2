/** Transactions, refunds and the two transaction indexes as a state machine; amounts are integer cents. */
module PaymentModel {
  import opened Results
  import opened Sequences

  datatype Status = PENDING | PROCESSING | SUCCESS | FAILED | REFUNDED | PARTIALLY_REFUNDED | CANCELLED | EXPIRED

  datatype RefundStatus = NONE | REQUESTED | PROCESSING_REFUND | COMPLETED | FAILED_REFUND | REJECTED

  datatype Method =
    | UNKNOWN | CREDIT_CARD | DEBIT_CARD | ALIPAY | WECHAT_PAY | BANK_TRANSFER
    | PAYPAL | APPLE_PAY | QR_CODE | MINI_PROGRAM

  datatype Gateway = AlipayGateway | WechatPayGateway | CreditCardGateway

  datatype Transaction = Transaction(
    id: nat, order: nat, user: nat, amount: int, refunded: int,
    payBy: Method, gateway: Gateway, status: Status, refundStatus: RefundStatus)

  datatype Refund = Refund(id: nat, transaction: nat, amount: int, status: RefundStatus)

  datatype State = State(
    transactions: map<nat, Transaction>,
    refunds: map<nat, Refund>,
    gateways: set<Gateway>,
    orderIndex: map<nat, seq<nat>>,
    userIndex: map<nat, seq<nat>>)

  /** After init the three gateways are registered. */
  const Initial: State := State(map[], map[], {AlipayGateway, WechatPayGateway, CreditCardGateway}, map[], map[])

  /** The gateway of a new transaction; methods without a default keep the Alipay gateway. */
  function GatewayFor(m: Method): Gateway {
    match m
    case WECHAT_PAY => WechatPayGateway
    case MINI_PROGRAM => WechatPayGateway
    case CREDIT_CARD => CreditCardGateway
    case DEBIT_CARD => CreditCardGateway
    case _ => AlipayGateway
  }

  predicate Supports(g: Gateway, m: Method) {
    match g
    case AlipayGateway => m == ALIPAY || m == QR_CODE
    case WechatPayGateway => m == WECHAT_PAY || m == MINI_PROGRAM
    case CreditCardGateway => m == CREDIT_CARD || m == DEBIT_CARD
  }

  // ---------------------------------------------------------------- one transaction

  function CanRefund(t: Transaction, amount: int): Outcome {
    if t.status != SUCCESS then Error(PaymentInvalidStatus)
    else if amount > t.amount - t.refunded then Error(PaymentRefundExceedsAmount)
    else if amount <= 0 then Error(PaymentInvalidAmount)
    else Ok(())
  }

  function RecordRefund(t: Transaction, amount: int): Transaction {
    if CanRefund(t, amount).Error? then t
    else
      var refunded := t.refunded + amount;
      t.(refunded := refunded, refundStatus := COMPLETED,
         status := if refunded >= t.amount then REFUNDED else PARTIALLY_REFUNDED)
  }

  /** What the gateway does to a payment; declined stands for its random refusal. */
  function Pay(t: Transaction, declined: bool): Transaction {
    t.(status := if (t.gateway.AlipayGateway? && t.amount < 1) || declined then FAILED else SUCCESS)
  }

  // ---------------------------------------------------------------- the manager

  function CreateTransaction(s: State, order: nat, user: nat, amount: int, m: Method): State {
    var id := |s.transactions| + 1;
    s.(transactions := s.transactions[id := Transaction(id, order, user, amount, 0, m, GatewayFor(m), PENDING, NONE)],
       orderIndex := s.orderIndex[order := ListOf(s.orderIndex, order) + [id]],
       userIndex := s.userIndex[user := ListOf(s.userIndex, user) + [id]])
  }

  function PaymentOutcome(s: State, id: nat): Outcome {
    if id !in s.transactions then Error(PaymentNotFound)
    else
      var t := s.transactions[id];
      if t.gateway !in s.gateways then Error(PaymentGatewayNotFound)
      else if !Supports(t.gateway, t.payBy) then Error(PaymentMethodNotSupported)
      else if t.gateway.AlipayGateway? && t.amount < 1 then Error(PaymentInvalidAmount)
      else Ok(())
  }

  /** A payment that reaches its gateway gets a new status, refused or not. */
  function ProcessPayment(s: State, id: nat, declined: bool): State {
    var r := PaymentOutcome(s, id);
    if r.Ok? || r.code == PaymentInvalidAmount
    then s.(transactions := s.transactions[id := Pay(s.transactions[id], declined)]) else s
  }

  function CancelPayment(s: State, id: nat): State {
    if id in s.transactions && (s.transactions[id].status == PENDING || s.transactions[id].status == PROCESSING)
    then SetStatus(s, id, CANCELLED) else s
  }

  function SetStatus(s: State, id: nat, status: Status): State {
    if id in s.transactions then s.(transactions := s.transactions[id := s.transactions[id].(status := status)]) else s
  }

  function RetryFailed(s: State, id: nat, declined: bool): State {
    if id in s.transactions && s.transactions[id].status == FAILED
    then ProcessPayment(SetStatus(s, id, PENDING), id, declined) else s
  }

  function CreateRefund(s: State, id: nat, amount: int): State {
    if id in s.transactions && CanRefund(s.transactions[id], amount).Ok? then
      var n := |s.refunds| + 1;
      s.(refunds := s.refunds[n := Refund(n, id, amount, REQUESTED)])
    else s
  }

  predicate Processable(s: State, n: nat) {
    n in s.refunds && s.refunds[n].transaction in s.transactions
    && s.transactions[s.refunds[n].transaction].gateway in s.gateways
  }

  function RefundOutcome(s: State, n: nat): Outcome {
    if n !in s.refunds then Error(PaymentRefundNotFound)
    else if s.refunds[n].transaction !in s.transactions then Error(PaymentNotFound)
    else if !Processable(s, n) then Error(PaymentGatewayNotFound)
    else Ok(())
  }

  /** The gateway completes every refund; whether it is recorded is decided by record_refund. */
  function ProcessRefund(s: State, n: nat): State {
    if Processable(s, n) then
      var f := s.refunds[n];
      s.(refunds := s.refunds[n := f.(status := COMPLETED)],
         transactions := s.transactions[f.transaction := RecordRefund(s.transactions[f.transaction], f.amount)])
    else s
  }

  function RejectRefund(s: State, n: nat): State {
    if n in s.refunds then s.(refunds := s.refunds[n := s.refunds[n].(status := REJECTED)]) else s
  }

  datatype Op =
    | OpCreate(order: nat, user: nat, amount: int, m: Method)
    | OpPay(id: nat, declined: bool)
    | OpCancel(id: nat)
    | OpRetry(id: nat, declined: bool)
    | OpSetStatus(id: nat, status: Status)
    | OpCreateRefund(id: nat, amount: int)
    | OpProcessRefund(n: nat)
    | OpRejectRefund(n: nat)

  function Apply(s: State, op: Op): State {
    match op
    case OpCreate(order, user, amount, m) => CreateTransaction(s, order, user, amount, m)
    case OpPay(id, declined) => ProcessPayment(s, id, declined)
    case OpCancel(id) => CancelPayment(s, id)
    case OpRetry(id, declined) => RetryFailed(s, id, declined)
    case OpSetStatus(id, status) => SetStatus(s, id, status)
    case OpCreateRefund(id, amount) => CreateRefund(s, id, amount)
    case OpProcessRefund(n) => ProcessRefund(s, n)
    case OpRejectRefund(n) => RejectRefund(s, n)
  }

  function Run(s: State, ops: seq<Op>): State
    decreases |ops|
  {
    if ops == [] then s else Run(Apply(s, ops[0]), ops[1..])
  }

  // ---------------------------------------------------------------- ids and indexes

  /** list names, in id order, exactly the picked transactions. */
  ghost predicate ExactList(picked: set<nat>, list: seq<nat>) {
    Increasing(list) && (forall id :: id in list <==> id in picked)
  }

  function OfOrder(transactions: map<nat, Transaction>, order: nat): set<nat> {
    set id | id in transactions && transactions[id].order == order
  }

  function OfUser(transactions: map<nat, Transaction>, user: nat): set<nat> {
    set id | id in transactions && transactions[id].user == user
  }

  /** Nothing is refunded, or a positive amount up to the amount paid. */
  predicate RefundInBounds(t: Transaction) {
    t.refunded == 0 || 0 < t.refunded <= t.amount
  }

  ghost predicate Numbered(transactions: map<nat, Transaction>) {
    && (forall id :: id in transactions <==> 1 <= id <= |transactions|)
    && (forall id :: id in transactions ==> transactions[id].id == id && RefundInBounds(transactions[id]))
  }

  /** Every request names a live transaction and an amount its payment covers. */
  ghost predicate RequestsCovered(s: State) {
    && (forall n :: n in s.refunds <==> 1 <= n <= |s.refunds|)
    && (forall n :: n in s.refunds ==>
          && s.refunds[n].id == n && s.refunds[n].transaction in s.transactions
          && 0 < s.refunds[n].amount <= s.transactions[s.refunds[n].transaction].amount)
  }

  ghost predicate Inv(s: State) {
    && Numbered(s.transactions)
    && RequestsCovered(s)
    && (forall o :: ExactList(OfOrder(s.transactions, o), ListOf(s.orderIndex, o)))
    && (forall u :: ExactList(OfUser(s.transactions, u), ListOf(s.userIndex, u)))
  }

  lemma CreateKeepsInv(s: State, order: nat, user: nat, amount: int, m: Method)
    requires Inv(s)
    ensures Inv(CreateTransaction(s, order, user, amount, m))
    ensures |s.transactions| + 1 !in s.transactions
    ensures |CreateTransaction(s, order, user, amount, m).transactions| == |s.transactions| + 1
  {
    var ts := s.transactions;
    var txn := CreateTransaction(s, order, user, amount, m).transactions[|ts| + 1];
    forall o ensures ExactList(OfOrder(ts[txn.id := txn], o),
      ListOf(CreateTransaction(s, order, user, amount, m).orderIndex, o)) {
      CreatedOrderList(s, txn, o);
    }
    forall u ensures ExactList(OfUser(ts[txn.id := txn], u),
      ListOf(CreateTransaction(s, order, user, amount, m).userIndex, u)) {
      CreatedUserList(s, txn, u);
    }
  }

  lemma CreatedOrderList(s: State, txn: Transaction, o: nat)
    requires Inv(s) && txn.id == |s.transactions| + 1
    ensures ExactList(OfOrder(s.transactions[txn.id := txn], o),
      if o == txn.order then ListOf(s.orderIndex, o) + [txn.id] else ListOf(s.orderIndex, o))
  {
    var ts := s.transactions;
    assert ExactList(OfOrder(ts, o), ListOf(s.orderIndex, o));
    AppendNewest(ListOf(s.orderIndex, o), OfOrder(ts, o), txn.id);
    assert OfOrder(ts[txn.id := txn], o) == if o == txn.order then OfOrder(ts, o) + {txn.id} else OfOrder(ts, o);
  }

  lemma CreatedUserList(s: State, txn: Transaction, u: nat)
    requires Inv(s) && txn.id == |s.transactions| + 1
    ensures ExactList(OfUser(s.transactions[txn.id := txn], u),
      if u == txn.user then ListOf(s.userIndex, u) + [txn.id] else ListOf(s.userIndex, u))
  {
    var ts := s.transactions;
    assert ExactList(OfUser(ts, u), ListOf(s.userIndex, u));
    AppendNewest(ListOf(s.userIndex, u), OfUser(ts, u), txn.id);
    assert OfUser(ts[txn.id := txn], u) == if u == txn.user then OfUser(ts, u) + {txn.id} else OfUser(ts, u);
  }

  lemma AppendNewest(list: seq<nat>, picked: set<nat>, id: nat)
    requires Increasing(list) && (forall x :: x in list <==> x in picked) && forall x :: x in picked ==> x < id
    ensures Increasing(list + [id]) && forall x :: x in list + [id] <==> x in picked + {id}
  {
    assert forall i :: 0 <= i < |list| ==> list[i] in list;
  }

  /** Rewriting a transaction without moving it to another order or user. */
  lemma RewriteKeepsInv(s: State, id: nat, t: Transaction, refunds: map<nat, Refund>)
    requires Inv(s) && id in s.transactions && RefundInBounds(t)
    requires t.id == id && t.order == s.transactions[id].order && t.user == s.transactions[id].user
    requires t.amount == s.transactions[id].amount && RequestsCovered(s.(refunds := refunds))
    ensures Inv(s.(transactions := s.transactions[id := t], refunds := refunds))
  {
    var n := s.(transactions := s.transactions[id := t], refunds := refunds);
    assert n.transactions.Keys == s.transactions.Keys;
    forall o ensures ExactList(OfOrder(n.transactions, o), ListOf(n.orderIndex, o)) {
      assert OfOrder(n.transactions, o) == OfOrder(s.transactions, o);
      assert ExactList(OfOrder(s.transactions, o), ListOf(s.orderIndex, o));
    }
    forall u ensures ExactList(OfUser(n.transactions, u), ListOf(n.userIndex, u)) {
      assert OfUser(n.transactions, u) == OfUser(s.transactions, u);
      assert ExactList(OfUser(s.transactions, u), ListOf(s.userIndex, u));
    }
  }

  lemma StatusKeepsInv(s: State, id: nat, status: Status)
    requires Inv(s)
    ensures Inv(SetStatus(s, id, status))
  {
    if id in s.transactions { RewriteKeepsInv(s, id, s.transactions[id].(status := status), s.refunds); }
  }

  lemma PaymentKeepsInv(s: State, id: nat, declined: bool)
    requires Inv(s)
    ensures Inv(ProcessPayment(s, id, declined))
  {
    if id in s.transactions { RewriteKeepsInv(s, id, Pay(s.transactions[id], declined), s.refunds); }
  }

  lemma RetryKeepsInv(s: State, id: nat, declined: bool)
    requires Inv(s)
    ensures Inv(RetryFailed(s, id, declined))
  {
    StatusKeepsInv(s, id, PENDING);
    PaymentKeepsInv(SetStatus(s, id, PENDING), id, declined);
  }

  lemma RefundKeepsInv(s: State, n: nat)
    requires Inv(s)
    ensures Inv(ProcessRefund(s, n))
  {
    if Processable(s, n) {
      var f := s.refunds[n];
      var t := RecordRefund(s.transactions[f.transaction], f.amount);
      RequestRewritten(s, n, COMPLETED);
      RewriteKeepsInv(s, f.transaction, t, s.refunds[n := f.(status := COMPLETED)]);
    }
  }

  lemma RequestRewritten(s: State, n: nat, status: RefundStatus)
    requires Inv(s) && n in s.refunds
    ensures Inv(s.(refunds := s.refunds[n := s.refunds[n].(status := status)]))
  {
    assert s.refunds[n := s.refunds[n].(status := status)].Keys == s.refunds.Keys;
  }

  lemma RequestKeepsInv(s: State, id: nat, amount: int)
    requires Inv(s)
    ensures Inv(CreateRefund(s, id, amount))
  {
  }

  lemma StepKeepsInv(s: State, op: Op)
    requires Inv(s)
    ensures Inv(Apply(s, op))
  {
    match op
    case OpCreate(order, user, amount, m) => CreateKeepsInv(s, order, user, amount, m);
    case OpPay(id, declined) => PaymentKeepsInv(s, id, declined);
    case OpCancel(id) => StatusKeepsInv(s, id, CANCELLED);
    case OpRetry(id, declined) => RetryKeepsInv(s, id, declined);
    case OpSetStatus(id, status) => StatusKeepsInv(s, id, status);
    case OpCreateRefund(id, amount) => RequestKeepsInv(s, id, amount);
    case OpProcessRefund(n) => RefundKeepsInv(s, n);
    case OpRejectRefund(n) => if n in s.refunds { RequestRewritten(s, n, REJECTED); }
  }

  lemma {:induction false} RunKeepsInv(s: State, ops: seq<Op>)
    requires Inv(s)
    ensures Inv(Run(s, ops))
    decreases |ops|
  {
    if ops != [] {
      StepKeepsInv(s, ops[0]);
      RunKeepsInv(Apply(s, ops[0]), ops[1..]);
    }
  }

  // ---------------------------------------------------------------- the refund ledger

  /** What one step successfully records as refunded on transaction id. */
  function Recorded(s: State, op: Op, id: nat): int {
    if op.OpProcessRefund? && Processable(s, op.n) && s.refunds[op.n].transaction == id
       && CanRefund(s.transactions[id], s.refunds[op.n].amount).Ok?
    then s.refunds[op.n].amount else 0
  }

  function Ledger(s: State, ops: seq<Op>, id: nat): int
    decreases |ops|
  {
    if ops == [] then 0 else Recorded(s, ops[0], id) + Ledger(Apply(s, ops[0]), ops[1..], id)
  }

  function RefundedOf(s: State, id: nat): int {
    if id in s.transactions then s.transactions[id].refunded else 0
  }

  lemma StepLedger(s: State, op: Op, id: nat)
    requires Inv(s)
    ensures RefundedOf(Apply(s, op), id) == RefundedOf(s, id) + Recorded(s, op, id)
    ensures id in s.transactions ==>
      id in Apply(s, op).transactions && Apply(s, op).transactions[id].amount == s.transactions[id].amount
  {
    match op
    case OpProcessRefund(n) => RefundLedger(s, n, id);
    case OpPay(k, declined) => PaymentLedger(s, k, declined, id);
    case OpRetry(k, declined) => RetryLedger(s, k, declined, id);
    case _ =>
  }

  lemma PaymentLedger(s: State, k: nat, declined: bool, id: nat)
    ensures RefundedOf(ProcessPayment(s, k, declined), id) == RefundedOf(s, id)
    ensures ProcessPayment(s, k, declined).transactions.Keys == s.transactions.Keys
    ensures id in s.transactions ==> ProcessPayment(s, k, declined).transactions[id].amount == s.transactions[id].amount
  {
    assert k in s.transactions ==> Pay(s.transactions[k], declined).refunded == s.transactions[k].refunded;
  }

  lemma RetryLedger(s: State, k: nat, declined: bool, id: nat)
    ensures RefundedOf(RetryFailed(s, k, declined), id) == RefundedOf(s, id)
    ensures RetryFailed(s, k, declined).transactions.Keys == s.transactions.Keys
    ensures id in s.transactions ==> RetryFailed(s, k, declined).transactions[id].amount == s.transactions[id].amount
  {
    PaymentLedger(SetStatus(s, k, PENDING), k, declined, id);
  }

  lemma RefundLedger(s: State, n: nat, id: nat)
    requires Inv(s)
    ensures RefundedOf(ProcessRefund(s, n), id) == RefundedOf(s, id) + Recorded(s, OpProcessRefund(n), id)
    ensures ProcessRefund(s, n).transactions.Keys == s.transactions.Keys
    ensures id in s.transactions ==> ProcessRefund(s, n).transactions[id].amount == s.transactions[id].amount
  {
  }

  lemma {:induction false} LedgerBalances(s: State, ops: seq<Op>, id: nat)
    requires Inv(s)
    ensures RefundedOf(Run(s, ops), id) == RefundedOf(s, id) + Ledger(s, ops, id)
    decreases |ops|
  {
    if ops != [] {
      StepLedger(s, ops[0], id);
      StepKeepsInv(s, ops[0]);
      LedgerBalances(Apply(s, ops[0]), ops[1..], id);
    }
  }

  /**
   After every run, re-run payments and overwritten statuses included: the refunded amount of a
   transaction is the sum of the refunds recorded on it, and is zero or within the amount paid.
   */
  lemma RefundsNeverExceedPayment(ops: seq<Op>, id: nat)
    ensures var s := Run(Initial, ops);
      && (id in s.transactions <==> 1 <= id <= |s.transactions|)
      && (id in s.transactions ==>
            s.transactions[id].refunded == Ledger(Initial, ops, id) && RefundInBounds(s.transactions[id]))
  {
    InitialInv();
    RunKeepsInv(Initial, ops);
    LedgerBalances(Initial, ops, id);
  }

  lemma InitialInv()
    ensures Inv(Initial)
  {
  }

  // ---------------------------------------------------------------- when a refund is recorded

  /**
   process_refund answers with success for every known request whose gateway is registered; it
   pays out exactly when the payment stands at SUCCESS and the rest of it covers the request, and
   otherwise leaves all transactions alone.
   */
  lemma RefundRecordedIff(s: State, n: nat)
    requires Inv(s) && RefundOutcome(s, n).Ok?
    ensures var id := s.refunds[n].transaction; var t := s.transactions[id]; var after := ProcessRefund(s, n);
      && (RefundedOf(after, id) == RefundedOf(s, id) + s.refunds[n].amount
          <==> t.status == SUCCESS && t.refunded + s.refunds[n].amount <= t.amount)
      && (after.transactions != s.transactions <==> RefundedOf(after, id) == RefundedOf(s, id) + s.refunds[n].amount)
  {
    var id := s.refunds[n].transaction;
    var after := ProcessRefund(s, n);
    assert after.transactions[id] == RecordRefund(s.transactions[id], s.refunds[n].amount);
    if after.transactions[id] == s.transactions[id] {
      assert after.transactions == s.transactions;
    }
  }

  /** The steps that bring a transaction back to SUCCESS. */
  predicate Reopens(s: State, op: Op, id: nat) {
    match op
    case OpPay(k, declined) => k == id && PaymentOutcome(s, id).Ok? && !declined
    case OpRetry(k, declined) =>
      k == id && id in s.transactions && s.transactions[id].status == FAILED && PaymentOutcome(s, id).Ok? && !declined
    case OpSetStatus(k, status) => k == id && status == SUCCESS
    case _ => false
  }

  lemma ReopensIff(s: State, op: Op, id: nat)
    requires Inv(s) && id in s.transactions && s.transactions[id].status != SUCCESS
    ensures id in Apply(s, op).transactions
    ensures Apply(s, op).transactions[id].status == SUCCESS <==> Reopens(s, op, id)
  {
    match op
    case OpProcessRefund(n) => RefundOpensNothing(s, n, id);
    case OpRetry(k, declined) => RetryOpensIff(s, k, declined, id);
    case _ =>
  }

  lemma RetryOpensIff(s: State, k: nat, declined: bool, id: nat)
    requires id in s.transactions && s.transactions[id].status != SUCCESS
    ensures id in RetryFailed(s, k, declined).transactions
    ensures RetryFailed(s, k, declined).transactions[id].status == SUCCESS <==> Reopens(s, OpRetry(k, declined), id)
  {
    var t := SetStatus(s, k, PENDING);
    assert k in s.transactions ==> PaymentOutcome(t, k) == PaymentOutcome(s, k);
  }

  lemma RefundOpensNothing(s: State, n: nat, id: nat)
    requires Inv(s) && id in s.transactions && s.transactions[id].status != SUCCESS
    ensures id in ProcessRefund(s, n).transactions && ProcessRefund(s, n).transactions[id] == s.transactions[id]
  {
  }

  predicate StaysClosed(s: State, ops: seq<Op>, id: nat)
    decreases |ops|
  {
    ops == [] || (!Reopens(s, ops[0], id) && StaysClosed(Apply(s, ops[0]), ops[1..], id))
  }

  /** Nothing is recorded on a transaction that is not at SUCCESS until some step reopens it. */
  lemma {:induction false} ClosedRecordsNothing(s: State, ops: seq<Op>, id: nat)
    requires Inv(s) && id in s.transactions && s.transactions[id].status != SUCCESS && StaysClosed(s, ops, id)
    ensures Ledger(s, ops, id) == 0
    ensures id in Run(s, ops).transactions && Run(s, ops).transactions[id].status != SUCCESS
    decreases |ops|
  {
    if ops != [] {
      ReopensIff(s, ops[0], id);
      StepKeepsInv(s, ops[0]);
      ClosedRecordsNothing(Apply(s, ops[0]), ops[1..], id);
    }
  }

  /**
   Once a step has recorded a refund, no request is recorded on that transaction again, over any
   run in which the transaction is not reopened.
   */
  lemma RecordedOnce(s: State, op: Op, ops: seq<Op>, id: nat)
    requires Inv(s) && Recorded(s, op, id) != 0 && StaysClosed(Apply(s, op), ops, id)
    ensures Ledger(Apply(s, op), ops, id) == 0
    ensures RefundedOf(Run(Apply(s, op), ops), id) == RefundedOf(s, id) + Recorded(s, op, id)
  {
    StepKeepsInv(s, op);
    StepLedger(s, op, id);
    ClosedRecordsNothing(Apply(s, op), ops, id);
    LedgerBalances(Apply(s, op), ops, id);
  }

  /** How many steps record a refund on the transaction. */
  function Recordings(s: State, ops: seq<Op>, id: nat): nat
    decreases |ops|
  {
    if ops == [] then 0
    else (if Recorded(s, ops[0], id) != 0 then 1 else 0) + Recordings(Apply(s, ops[0]), ops[1..], id)
  }

  /** How many steps bring it to SUCCESS, first payments included. */
  function Openings(s: State, ops: seq<Op>, id: nat): nat
    decreases |ops|
  {
    if ops == [] then 0
    else (if Reopens(s, ops[0], id) then 1 else 0) + Openings(Apply(s, ops[0]), ops[1..], id)
  }

  predicate AtSuccess(s: State, id: nat) {
    id in s.transactions && s.transactions[id].status == SUCCESS
  }

  lemma StepOpens(s: State, op: Op, id: nat)
    requires Inv(s)
    ensures Recorded(s, op, id) != 0 ==> AtSuccess(s, id) && !AtSuccess(Apply(s, op), id)
    ensures AtSuccess(Apply(s, op), id) ==> AtSuccess(s, id) || Reopens(s, op, id)
  {
    if op.OpProcessRefund? {
      if id in s.transactions && !AtSuccess(s, id) { RefundOpensNothing(s, op.n, id); }
    } else if id in s.transactions && !AtSuccess(s, id) {
      ReopensIff(s, op, id);
    }
  }

  /** Over every run a transaction has at most as many refunds recorded as steps that brought it to SUCCESS. */
  lemma {:induction false} RecordingsBounded(s: State, ops: seq<Op>, id: nat)
    requires Inv(s)
    ensures Recordings(s, ops, id) <= Openings(s, ops, id) + if AtSuccess(s, id) then 1 else 0
    decreases |ops|
  {
    if ops != [] {
      StepOpens(s, ops[0], id);
      StepKeepsInv(s, ops[0]);
      RecordingsBounded(Apply(s, ops[0]), ops[1..], id);
    }
  }

  // ---------------------------------------------------------------- runs on which refunds surprise

  /** A payment of 100 with one refund request of 30. */
  const Requested: seq<Op> := [OpCreate(1, 1, 100, ALIPAY), OpPay(1, false), OpCreateRefund(1, 30)]

  /** One transaction of 100 and one request of 30, at the given statuses. */
  function Scene(status: Status, refunded: int, refundStatus: RefundStatus, request: RefundStatus): State {
    State(
      map[1 := Transaction(1, 1, 1, 100, refunded, ALIPAY, AlipayGateway, status, refundStatus)],
      map[1 := Refund(1, 1, 30, request)],
      {AlipayGateway, WechatPayGateway, CreditCardGateway},
      map[1 := [1]], map[1 := [1]])
  }

  lemma RunOne(s: State, op: Op, t: State, more: seq<Op>)
    requires Apply(s, op) == t
    ensures Run(s, [op] + more) == Run(t, more)
  {
    assert ([op] + more)[1..] == more;
  }

  lemma RequestedScene(more: seq<Op>)
    ensures Run(Initial, Requested + more) == Run(Scene(SUCCESS, 0, NONE, REQUESTED), more)
  {
    var create, pay, request := OpCreate(1, 1, 100, ALIPAY), OpPay(1, false), OpCreateRefund(1, 30);
    var unpaid, paid := Unpaid(), Paid();
    assert Requested + more == [create] + ([pay] + ([request] + more));
    CreatedScene();
    PaidScene();
    RunOne(Initial, create, unpaid, [pay] + ([request] + more));
    RunOne(unpaid, pay, paid, [request] + more);
    RunOne(paid, request, Scene(SUCCESS, 0, NONE, REQUESTED), more);
  }

  function Unpaid(): State {
    Scene(PENDING, 0, NONE, NONE).(refunds := map[])
  }

  function Paid(): State {
    Scene(SUCCESS, 0, NONE, NONE).(refunds := map[])
  }

  lemma CreatedScene()
    ensures Apply(Initial, OpCreate(1, 1, 100, ALIPAY)) == Unpaid()
  {
    assert ListOf(map[], 1) + [1] == [1];
  }

  lemma PaidScene()
    ensures Apply(Unpaid(), OpPay(1, false)) == Paid()
    ensures Apply(Paid(), OpCreateRefund(1, 30)) == Scene(SUCCESS, 0, NONE, REQUESTED)
  {
    assert Paid().transactions == Scene(SUCCESS, 0, NONE, REQUESTED).transactions;
  }

  /** Processing a request of 30 on a paid transaction. */
  lemma RefundedScene(refunded: int, before: RefundStatus, request: RefundStatus)
    requires 0 <= refunded < 70
    ensures Apply(Scene(SUCCESS, refunded, before, request), OpProcessRefund(1))
         == Scene(PARTIALLY_REFUNDED, refunded + 30, COMPLETED, COMPLETED)
  {
  }

  lemma ReopenedScene()
    ensures Apply(Scene(PARTIALLY_REFUNDED, 30, COMPLETED, COMPLETED), OpPay(1, false))
         == Scene(SUCCESS, 30, COMPLETED, COMPLETED)
  {
  }

  /** Process the request, run the payment again, process the request again. */
  const Again: seq<Op> := [OpProcessRefund(1)] + ([OpPay(1, false)] + ([OpProcessRefund(1)] + []))

  /** Running the payment again lets the same request be recorded a second time. */
  lemma RefundPaidTwice()
    ensures var s := Run(Initial, Requested + Again);
      s.refunds.Keys == {1} && s.refunds[1].amount == 30 && RefundedOf(s, 1) == 60
  {
    var once, reopened := Scene(PARTIALLY_REFUNDED, 30, COMPLETED, COMPLETED), Scene(SUCCESS, 30, COMPLETED, COMPLETED);
    RequestedScene(Again);
    RefundedScene(0, NONE, REQUESTED);
    RefundedScene(30, COMPLETED, COMPLETED);
    ReopenedScene();
    RunOne(Scene(SUCCESS, 0, NONE, REQUESTED), OpProcessRefund(1), once,
      [OpPay(1, false)] + ([OpProcessRefund(1)] + []));
    RunOne(once, OpPay(1, false), reopened, [OpProcessRefund(1)] + []);
    RunOne(reopened, OpProcessRefund(1), Scene(PARTIALLY_REFUNDED, 60, COMPLETED, COMPLETED), []);
  }

  /** A rejected request is paid out all the same. */
  lemma RejectedRefundPaid()
    ensures var s := Run(Initial, Requested + [OpRejectRefund(1)]);
      1 in s.refunds && s.refunds[1].status == REJECTED && RefundedOf(s, 1) == 0
      && RefundOutcome(s, 1) == Ok(()) && RefundedOf(ProcessRefund(s, 1), 1) == 30
  {
    RequestedScene([OpRejectRefund(1)]);
    var rejected := Scene(SUCCESS, 0, NONE, REJECTED);
    assert [OpRejectRefund(1)] + [] == [OpRejectRefund(1)];
    RunOne(Scene(SUCCESS, 0, NONE, REQUESTED), OpRejectRefund(1), rejected, []);
    RefundedScene(0, NONE, REJECTED);
  }

  /** The second processing of a request answers with success and records nothing. */
  lemma SuccessWithoutRefund()
    ensures var s := Run(Initial, Requested + [OpProcessRefund(1)]);
      RefundOutcome(s, 1) == Ok(()) && RefundedOf(s, 1) == 30 && RefundedOf(ProcessRefund(s, 1), 1) == 30
  {
    RequestedScene([OpProcessRefund(1)]);
    RefundedScene(0, NONE, REQUESTED);
    assert [OpProcessRefund(1)] + [] == [OpProcessRefund(1)];
    RunOne(Scene(SUCCESS, 0, NONE, REQUESTED), OpProcessRefund(1),
      Scene(PARTIALLY_REFUNDED, 30, COMPLETED, COMPLETED), []);
  }
}
