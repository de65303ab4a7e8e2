/** Payments and refund requests read from the calls alone: a numbered list of each. */
module PaymentHistory {
  import opened Results
  import opened Sequences
  import opened PaymentModel

  /** One payment as its caller knows it. */
  datatype Line = Line(order: nat, user: nat, amount: int, payBy: Method, status: Status, refunded: int)

  datatype Request = Request(payment: nat, amount: int, status: RefundStatus)

  /** Payment number id is lines[id - 1], request number n is requests[n - 1]. */
  datatype Book = Book(lines: seq<Line>, requests: seq<Request>)

  /** The methods some registered gateway takes. */
  const Taken: set<Method> := {ALIPAY, QR_CODE, WECHAT_PAY, MINI_PROGRAM, CREDIT_CARD, DEBIT_CARD}

  predicate Known(b: Book, id: nat) { 1 <= id <= |b.lines| }

  function Put(b: Book, id: nat, line: Line): Book
    requires Known(b, id)
  {
    b.(lines := b.lines[id - 1 := line])
  }

  /** A payment with a method that is taken becomes SUCCESS or, declined or below one cent for Alipay, FAILED. */
  function Paid(line: Line, declined: bool): Line {
    if line.payBy !in Taken then line
    else if declined || (line.payBy in {ALIPAY, QR_CODE} && line.amount < 1) then line.(status := FAILED)
    else line.(status := SUCCESS)
  }

  /** A refund is paid out of what a successful payment has left, and the last cent makes it REFUNDED. */
  function PaidBack(line: Line, amount: int): Line {
    if line.status == SUCCESS && 0 < amount <= line.amount - line.refunded then
      line.(refunded := line.refunded + amount,
            status := if line.refunded + amount == line.amount then REFUNDED else PARTIALLY_REFUNDED)
    else line
  }

  function Tell(b: Book, op: Op): Book {
    match op
    case OpCreate(order, user, amount, m) => b.(lines := b.lines + [Line(order, user, amount, m, PENDING, 0)])
    case OpPay(id, declined) => if Known(b, id) then Put(b, id, Paid(b.lines[id - 1], declined)) else b
    case OpCancel(id) =>
      if Known(b, id) && b.lines[id - 1].status in {PENDING, PROCESSING}
      then Put(b, id, b.lines[id - 1].(status := CANCELLED)) else b
    case OpRetry(id, declined) =>
      if Known(b, id) && b.lines[id - 1].status == FAILED
      then Put(b, id, Paid(b.lines[id - 1].(status := PENDING), declined)) else b
    case OpSetStatus(id, status) => if Known(b, id) then Put(b, id, b.lines[id - 1].(status := status)) else b
    case OpCreateRefund(id, amount) =>
      if Known(b, id) && b.lines[id - 1].status == SUCCESS
         && 0 < amount <= b.lines[id - 1].amount - b.lines[id - 1].refunded
      then b.(requests := b.requests + [Request(id, amount, REQUESTED)]) else b
    case OpProcessRefund(n) =>
      if 1 <= n <= |b.requests| && Known(b, b.requests[n - 1].payment) then
        var r := b.requests[n - 1];
        Put(b, r.payment, PaidBack(b.lines[r.payment - 1], r.amount))
          .(requests := b.requests[n - 1 := r.(status := COMPLETED)])
      else b
    case OpRejectRefund(n) =>
      if 1 <= n <= |b.requests|
      then b.(requests := b.requests[n - 1 := b.requests[n - 1].(status := REJECTED)]) else b
  }

  function TellAll(b: Book, ops: seq<Op>): Book
    decreases |ops|
  {
    if ops == [] then b else TellAll(Tell(b, ops[0]), ops[1..])
  }

  predicate LineIs(t: Transaction, line: Line) {
    && t.order == line.order && t.user == line.user && t.amount == line.amount && t.payBy == line.payBy
    && t.status == line.status && t.refunded == line.refunded && t.gateway == GatewayFor(line.payBy)
  }

  predicate RequestIs(f: Refund, r: Request) {
    f.transaction == r.payment && f.amount == r.amount && f.status == r.status
  }

  /** The payments as numbered. */
  ghost predicate LinesMatch(ts: map<nat, Transaction>, lines: seq<Line>) {
    && |ts| == |lines| && (forall id :: id in ts <==> 1 <= id <= |lines|)
    && forall id :: id in ts ==> LineIs(ts[id], lines[id - 1])
  }

  /** The requests as numbered. */
  ghost predicate RequestsMatch(fs: map<nat, Refund>, requests: seq<Request>) {
    && |fs| == |requests| && (forall n :: n in fs <==> 1 <= n <= |requests|)
    && forall n :: n in fs ==> RequestIs(fs[n], requests[n - 1])
  }

  ghost predicate Matches(s: State, b: Book) {
    && s.gateways == {AlipayGateway, WechatPayGateway, CreditCardGateway}
    && LinesMatch(s.transactions, b.lines) && RequestsMatch(s.refunds, b.requests)
  }

  /** The gateway of a payment takes its method exactly if some gateway does. */
  lemma GatewayTakes(m: Method)
    ensures Supports(GatewayFor(m), m) <==> m in Taken
    ensures m in Taken ==> (GatewayFor(m).AlipayGateway? <==> m in {ALIPAY, QR_CODE})
  {
  }

  lemma LinePut(ts: map<nat, Transaction>, lines: seq<Line>, id: nat, t: Transaction, line: Line)
    requires LinesMatch(ts, lines) && 1 <= id <= |lines| && LineIs(t, line)
    ensures LinesMatch(ts[id := t], lines[id - 1 := line])
  {
    assert ts[id := t].Keys == ts.Keys;
  }

  lemma RequestPut(fs: map<nat, Refund>, requests: seq<Request>, n: nat, f: Refund, r: Request)
    requires RequestsMatch(fs, requests) && 1 <= n <= |requests| && RequestIs(f, r)
    ensures RequestsMatch(fs[n := f], requests[n - 1 := r])
  {
    assert fs[n := f].Keys == fs.Keys;
  }

  lemma LineAdded(ts: map<nat, Transaction>, lines: seq<Line>, t: Transaction, line: Line)
    requires LinesMatch(ts, lines) && LineIs(t, line)
    ensures LinesMatch(ts[|ts| + 1 := t], lines + [line])
  {
    assert ts[|ts| + 1 := t].Keys == ts.Keys + {|ts| + 1};
  }

  lemma RequestAdded(fs: map<nat, Refund>, requests: seq<Request>, f: Refund, r: Request)
    requires RequestsMatch(fs, requests) && RequestIs(f, r)
    ensures RequestsMatch(fs[|fs| + 1 := f], requests + [r])
  {
    assert fs[|fs| + 1 := f].Keys == fs.Keys + {|fs| + 1};
  }

  lemma StatusIs(s: State, b: Book, id: nat, status: Status)
    requires Matches(s, b) && Known(b, id)
    ensures Matches(SetStatus(s, id, status), Put(b, id, b.lines[id - 1].(status := status)))
  {
    LinePut(s.transactions, b.lines, id, s.transactions[id].(status := status), b.lines[id - 1].(status := status));
  }

  /** What running a payment makes of it, for the first time or, FAILED before, again. */
  function Tried(t: Transaction, declined: bool): Transaction {
    if t.payBy in Taken then Pay(t, declined) else t
  }

  lemma PaymentIsOneUpdate(s: State, id: nat, declined: bool)
    requires id in s.transactions && s.transactions[id].gateway in s.gateways
    requires s.transactions[id].gateway == GatewayFor(s.transactions[id].payBy)
    ensures ProcessPayment(s, id, declined) ==
      s.(transactions := s.transactions[id := Tried(s.transactions[id], declined)])
  {
    GatewayTakes(s.transactions[id].payBy);
    assert s.transactions[id := s.transactions[id]] == s.transactions;
  }

  lemma RetryIsOneUpdate(s: State, id: nat, declined: bool)
    requires id in s.transactions && s.transactions[id].gateway in s.gateways && s.transactions[id].status == FAILED
    requires s.transactions[id].gateway == GatewayFor(s.transactions[id].payBy)
    ensures RetryFailed(s, id, declined)
         == s.(transactions := s.transactions[id := Tried(s.transactions[id].(status := PENDING), declined)])
  {
    PaymentIsOneUpdate(SetStatus(s, id, PENDING), id, declined);
  }

  lemma TriedLine(t: Transaction, line: Line, declined: bool)
    requires LineIs(t, line)
    ensures LineIs(Tried(t, declined), Paid(line, declined))
  {
    GatewayTakes(line.payBy);
  }

  lemma PutIs(s: State, b: Book, id: nat, t: Transaction, line: Line)
    requires Matches(s, b) && Known(b, id) && LineIs(t, line)
    ensures Matches(s.(transactions := s.transactions[id := t]), Put(b, id, line))
  {
    LinePut(s.transactions, b.lines, id, t, line);
  }

  /** A known payment has a line, and a registered gateway. */
  lemma HasLine(s: State, b: Book, id: nat)
    requires Matches(s, b)
    ensures id in s.transactions <==> Known(b, id)
    ensures id in s.transactions ==>
      LineIs(s.transactions[id], b.lines[id - 1]) && s.transactions[id].gateway in s.gateways
  {
  }

  lemma RetriedIs(s: State, b: Book, id: nat, declined: bool)
    requires Matches(s, b)
    ensures Matches(RetryFailed(s, id, declined), Tell(b, OpRetry(id, declined)))
  {
    HasLine(s, b, id);
    if id in s.transactions && s.transactions[id].status == FAILED {
      var t, line := s.transactions[id], b.lines[id - 1];
      RetryIsOneUpdate(s, id, declined);
      TriedLine(t.(status := PENDING), line.(status := PENDING), declined);
      PutIs(s, b, id, Tried(t.(status := PENDING), declined), Paid(line.(status := PENDING), declined));
    }
  }

  lemma PayIs(s: State, b: Book, id: nat, declined: bool)
    requires Matches(s, b)
    ensures Matches(ProcessPayment(s, id, declined), Tell(b, OpPay(id, declined)))
  {
    HasLine(s, b, id);
    if id in s.transactions {
      PaymentIsOneUpdate(s, id, declined);
      TriedLine(s.transactions[id], b.lines[id - 1], declined);
      PutIs(s, b, id, Tried(s.transactions[id], declined), Paid(b.lines[id - 1], declined));
    }
  }

  lemma StatusSetIs(s: State, b: Book, id: nat, status: Status)
    requires Matches(s, b)
    ensures Matches(SetStatus(s, id, status), Tell(b, OpSetStatus(id, status)))
  {
    if Known(b, id) { StatusIs(s, b, id, status); }
  }

  lemma ProcessedIs(s: State, b: Book, n: nat)
    requires Matches(s, b)
    ensures Matches(ProcessRefund(s, n), Tell(b, OpProcessRefund(n)))
  {
    if n in s.refunds && Known(b, b.requests[n - 1].payment) {
      var f, r := s.refunds[n], b.requests[n - 1];
      var t, line := s.transactions[f.transaction], b.lines[f.transaction - 1];
      LinePut(s.transactions, b.lines, r.payment, RecordRefund(t, f.amount), PaidBack(line, f.amount));
      RequestPut(s.refunds, b.requests, n, f.(status := COMPLETED), r.(status := COMPLETED));
    }
  }

  lemma CreatedIs(s: State, b: Book, order: nat, user: nat, amount: int, m: Method)
    requires Matches(s, b)
    ensures Matches(CreateTransaction(s, order, user, amount, m), Tell(b, OpCreate(order, user, amount, m)))
  {
    var id := |s.transactions| + 1;
    LineAdded(s.transactions, b.lines, Transaction(id, order, user, amount, 0, m, GatewayFor(m), PENDING, NONE),
      Line(order, user, amount, m, PENDING, 0));
  }

  lemma RequestedIs(s: State, b: Book, id: nat, amount: int)
    requires Matches(s, b)
    ensures Matches(CreateRefund(s, id, amount), Tell(b, OpCreateRefund(id, amount)))
  {
    RequestAdded(s.refunds, b.requests, Refund(|s.refunds| + 1, id, amount, REQUESTED), Request(id, amount, REQUESTED));
  }

  lemma RejectedIs(s: State, b: Book, n: nat)
    requires Matches(s, b)
    ensures Matches(RejectRefund(s, n), Tell(b, OpRejectRefund(n)))
  {
    if n in s.refunds {
      RequestPut(s.refunds, b.requests, n, s.refunds[n].(status := REJECTED), b.requests[n - 1].(status := REJECTED));
    }
  }

  lemma CancelledIs(s: State, b: Book, id: nat)
    requires Matches(s, b)
    ensures Matches(CancelPayment(s, id), Tell(b, OpCancel(id)))
  {
    if Known(b, id) { StatusIs(s, b, id, CANCELLED); }
  }

  lemma StepMatches(s: State, op: Op, b: Book)
    requires Matches(s, b)
    ensures Matches(Apply(s, op), Tell(b, op))
  {
    match op
    case OpCreate(order, user, amount, m) => CreatedIs(s, b, order, user, amount, m);
    case OpPay(id, declined) => PayIs(s, b, id, declined);
    case OpCancel(id) => CancelledIs(s, b, id);
    case OpRetry(id, declined) => RetriedIs(s, b, id, declined);
    case OpSetStatus(id, status) => StatusSetIs(s, b, id, status);
    case OpCreateRefund(id, amount) => RequestedIs(s, b, id, amount);
    case OpProcessRefund(n) => ProcessedIs(s, b, n);
    case OpRejectRefund(n) => RejectedIs(s, b, n);
  }

  lemma {:induction false} RunMatches(s: State, ops: seq<Op>, b: Book)
    requires Matches(s, b)
    ensures Matches(Run(s, ops), TellAll(b, ops))
    decreases |ops|
  {
    if ops != [] {
      StepMatches(s, ops[0], b);
      RunMatches(Apply(s, ops[0]), ops[1..], Tell(b, ops[0]));
    }
  }

  /**
   After every run payment number id is the id-th one created, for the order, user, amount and method
   asked for, with the status and the refunds that the calls since then have led to.
   */
  lemma PaymentsAsTold(ops: seq<Op>, id: nat)
    ensures var s := Run(Initial, ops); var b := TellAll(Book([], []), ops);
      && (id in s.transactions <==> 1 <= id <= |b.lines|)
      && (id in s.transactions ==>
            var t := s.transactions[id]; var line := b.lines[id - 1];
            t.order == line.order && t.user == line.user && t.amount == line.amount && t.payBy == line.payBy
            && t.status == line.status && t.refunded == line.refunded)
  {
    RunMatches(Initial, ops, Book([], []));
  }

  /** What process_payment answers on any run, by the method and the amount alone. */
  lemma PaymentAnswers(ops: seq<Op>, id: nat)
    ensures var s := Run(Initial, ops); var b := TellAll(Book([], []), ops);
      PaymentOutcome(s, id) == (
        if !(1 <= id <= |b.lines|) then Error(PaymentNotFound)
        else if b.lines[id - 1].payBy !in Taken then Error(PaymentMethodNotSupported)
        else if b.lines[id - 1].payBy in {ALIPAY, QR_CODE} &&
          b.lines[id - 1].amount < 1 then Error(PaymentInvalidAmount)
        else Ok(()))
  {
    RunMatches(Initial, ops, Book([], []));
    var s := Run(Initial, ops);
    if id in s.transactions { GatewayTakes(s.transactions[id].payBy); }
  }

  /** A recorded refund leaves the payment REFUNDED exactly when nothing of it is left. */
  lemma FullyRefundedIff(s: State, n: nat)
    requires Inv(s) && RefundOutcome(s, n).Ok? &&
      CanRefund(s.transactions[s.refunds[n].transaction], s.refunds[n].amount).Ok?
    ensures var t := ProcessRefund(s, n).transactions[s.refunds[n].transaction];
      && (t.status == REFUNDED <==> t.refunded == t.amount) &&
        (t.status == PARTIALLY_REFUNDED <==> t.refunded < t.amount)
  {
  }
}
