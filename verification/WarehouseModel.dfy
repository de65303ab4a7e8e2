/** Stock and reservations of several warehouses as a state machine over values. */
module WarehouseModel {
  import opened Results
  import opened Ordered
  import opened Sums

  datatype Stock = Stock(active: bool, stock: map<nat, int>, reserved: map<nat, int>)

  type State = map<nat, Stock>

  function At(m: map<nat, int>, p: nat): int { if p in m then m[p] else 0 }

  predicate HasAvailable(w: Stock, p: nat, q: int) { At(w.stock, p) - At(w.reserved, p) >= q }

  // ---------------------------------------------------------------- one warehouse

  function Reserve(w: Stock, p: nat, q: int): Stock {
    if HasAvailable(w, p, q) then w.(reserved := w.reserved[p := At(w.reserved, p) + q]) else w
  }

  /** Looking a reservation up with operator[] creates a zero entry even when the release is refused. */
  function Release(w: Stock, p: nat, q: int): Stock {
    w.(reserved := w.reserved[p := At(w.reserved, p) - if At(w.reserved, p) < q then 0 else q])
  }

  function Confirm(w: Stock, p: nat, q: int): Stock {
    if At(w.reserved, p) < q then Release(w, p, q)
    else Release(w, p, q).(stock := w.stock[p := At(w.stock, p) - q])
  }

  function Adjust(w: Stock, p: nat, delta: int): Stock {
    w.(stock := w.stock[p := At(w.stock, p) + delta])
  }

  // ---------------------------------------------------------------- all warehouses

  datatype Op =
    | OpReserve(id: nat, p: nat, q: int)
    | OpRelease(id: nat, p: nat, q: int)
    | OpConfirm(id: nat, p: nat, q: int)
    | OpReceive(id: nat, p: nat, q: int)
    | OpTransfer(p: nat, from: nat, to: nat, q: int)
    | OpActivate(id: nat, active: bool)

  predicate Transferable(s: State, p: nat, from: nat, to: nat, q: int) {
    from in s && to in s && HasAvailable(s[from], p, q)
  }

  function Transfer(s: State, p: nat, from: nat, to: nat, q: int): State {
    if Transferable(s, p, from, to, q) then
      var t := s[from := Adjust(s[from], p, -q)];
      t[to := Adjust(t[to], p, q)]
    else s
  }

  function Apply(s: State, op: Op): State {
    match op
    case OpReserve(id, p, q) => if id in s then s[id := Reserve(s[id], p, q)] else s
    case OpRelease(id, p, q) => if id in s then s[id := Release(s[id], p, q)] else s
    case OpConfirm(id, p, q) => if id in s then s[id := Confirm(s[id], p, q)] else s
    case OpReceive(id, p, q) => if id in s then s[id := Adjust(s[id], p, q)] else s
    case OpTransfer(p, from, to, q) => Transfer(s, p, from, to, q)
    case OpActivate(id, active) => if id in s then s[id := s[id].(active := active)] else s
  }

  function Run(s: State, ops: seq<Op>): State
    decreases |ops|
  {
    if ops == [] then s else Run(Apply(s, ops[0]), ops[1..])
  }

  // ---------------------------------------------------------------- reservations stay within the stock

  predicate Within(w: Stock, p: nat) { 0 <= At(w.reserved, p) <= At(w.stock, p) }

  ghost predicate Bounded(s: State) {
    forall id, p: nat :: id in s ==> Within(s[id], p)
  }

  /** What a caller can check beforehand: true for every non-negative quantity. */
  predicate Safe(s: State, op: Op) {
    match op
    case OpReserve(id, p, q) => id in s && HasAvailable(s[id], p, q) ==> At(s[id].reserved, p) + q >= 0
    case OpRelease(id, p, q) => id in s && At(s[id].reserved, p) >= q ==>
      At(s[id].reserved, p) - q <= At(s[id].stock, p)
    case OpConfirm(_, _, _) => true
    case OpReceive(id, p, q) => id in s ==> At(s[id].stock, p) + q >= At(s[id].reserved, p)
    case OpTransfer(p, from, to, q) =>
      Transferable(s, p, from, to, q) && from != to ==> At(s[to].stock, p) + q >= At(s[to].reserved, p)
    case OpActivate(_, _) => true
  }

  lemma OneWarehouseIff(s: State, id: nat, w: Stock, p: nat)
    requires Bounded(s) && id in s
    requires forall j: nat :: j != p ==>
      At(w.stock, j) == At(s[id].stock, j) && At(w.reserved, j) == At(s[id].reserved, j)
    ensures Bounded(s[id := w]) <==> Within(w, p)
  {
    var t := s[id := w];
    if Within(w, p) {
      forall k, j: nat | k in t ensures Within(t[k], j) {
        assert Within(s[k], j);
      }
    } else {
      assert !Within(t[id], p);
    }
  }

  /** For any quantity, negative ones included: a step keeps 0 <= reserved <= stock exactly when it is safe. */
  lemma StepBoundedIff(s: State, op: Op)
    requires Bounded(s)
    ensures Bounded(Apply(s, op)) <==> Safe(s, op)
  {
    match op
    case OpReserve(id, p, q) =>
      if id in s { assert Within(s[id], p); OneWarehouseIff(s, id, Reserve(s[id], p, q), p); }
    case OpRelease(id, p, q) =>
      if id in s { assert Within(s[id], p); OneWarehouseIff(s, id, Release(s[id], p, q), p); }
    case OpConfirm(id, p, q) =>
      if id in s { assert Within(s[id], p); OneWarehouseIff(s, id, Confirm(s[id], p, q), p); }
    case OpReceive(id, p, q) =>
      if id in s { assert Within(s[id], p); OneWarehouseIff(s, id, Adjust(s[id], p, q), p); }
    case OpTransfer(p, from, to, q) =>
      if Transferable(s, p, from, to, q) {
        assert Within(s[from], p) && Within(s[to], p);
        var t := s[from := Adjust(s[from], p, -q)];
        OneWarehouseIff(s, from, t[from], p);
        OneWarehouseIff(t, to, Adjust(t[to], p, q), p);
      }
    case OpActivate(id, active) =>
      if id in s { assert Within(s[id], 0); OneWarehouseIff(s, id, s[id].(active := active), 0); }
  }

  /** A negative release raises a reservation above the stock, a negative receipt lowers the stock below it. */
  lemma NegativeQuantitiesBreak()
    ensures var s: State := map[1 := Stock(true, map[7 := 5], map[7 := 5])];
      Bounded(s) && !Bounded(Apply(s, OpRelease(1, 7, -1))) && !Bounded(Apply(s, OpReceive(1, 7, -1)))
  {
    var s: State := map[1 := Stock(true, map[7 := 5], map[7 := 5])];
    assert Bounded(s);
    StepBoundedIff(s, OpRelease(1, 7, -1));
    StepBoundedIff(s, OpReceive(1, 7, -1));
  }

  predicate NonNegative(op: Op) { op.OpActivate? || op.q >= 0 }

  lemma NonNegativeIsSafe(s: State, op: Op)
    requires Bounded(s) && NonNegative(op)
    ensures Safe(s, op)
  {
    match op
    case OpReserve(id, p, _) => assert id in s ==> Within(s[id], p);
    case OpRelease(id, p, _) => assert id in s ==> Within(s[id], p);
    case OpReceive(id, p, _) => assert id in s ==> Within(s[id], p);
    case OpTransfer(p, _, to, _) => assert to in s ==> Within(s[to], p);
    case OpConfirm(_, _, _) =>
    case OpActivate(_, _) =>
  }

  lemma {:induction false} RunBounded(s: State, ops: seq<Op>)
    requires Bounded(s) && forall i :: 0 <= i < |ops| ==> NonNegative(ops[i])
    ensures Bounded(Run(s, ops))
    decreases |ops|
  {
    if ops != [] {
      NonNegativeIsSafe(s, ops[0]);
      StepBoundedIff(s, ops[0]);
      RunBounded(Apply(s, ops[0]), ops[1..]);
    }
  }

  // ---------------------------------------------------------------- conservation

  function StockLevels(s: State, p: nat): map<nat, int> {
    map id | id in s :: At(s[id].stock, p)
  }

  ghost function Total(s: State, p: nat): int {
    Sum(StockLevels(s, p))
  }

  /** What one step brings in or takes out of the product for good. */
  function NetReceipt(s: State, op: Op, p: nat): int {
    match op
    case OpReceive(id, r, q) => if id in s && r == p then q else 0
    case OpConfirm(id, r, q) => if id in s && r == p && At(s[id].reserved, p) >= q then -q else 0
    case OpReserve(_, _, _) => 0
    case OpRelease(_, _, _) => 0
    case OpTransfer(_, _, _, _) => 0
    case OpActivate(_, _) => 0
  }

  function NetReceipts(s: State, ops: seq<Op>, p: nat): int
    decreases |ops|
  {
    if ops == [] then 0 else NetReceipt(s, ops[0], p) + NetReceipts(Apply(s, ops[0]), ops[1..], p)
  }

  lemma TotalUpdate(s: State, id: nat, w: Stock, p: nat)
    requires id in s
    ensures Total(s[id := w], p) == Total(s, p) - At(s[id].stock, p) + At(w.stock, p)
  {
    SumUpdate(StockLevels(s, p), id, At(w.stock, p));
    assert StockLevels(s[id := w], p) == StockLevels(s, p)[id := At(w.stock, p)];
  }

  lemma StepConserves(s: State, op: Op, p: nat)
    ensures Total(Apply(s, op), p) == Total(s, p) + NetReceipt(s, op, p)
  {
    match op
    case OpReserve(id, r, q) => if id in s { TotalUpdate(s, id, Reserve(s[id], r, q), p); }
    case OpRelease(id, r, q) => if id in s { TotalUpdate(s, id, Release(s[id], r, q), p); }
    case OpConfirm(id, r, q) => if id in s { TotalUpdate(s, id, Confirm(s[id], r, q), p); }
    case OpReceive(id, r, q) => if id in s { TotalUpdate(s, id, Adjust(s[id], r, q), p); }
    case OpTransfer(r, from, to, q) =>
      if Transferable(s, r, from, to, q) {
        var t := s[from := Adjust(s[from], r, -q)];
        TotalUpdate(s, from, t[from], p);
        TotalUpdate(t, to, Adjust(t[to], r, q), p);
      }
    case OpActivate(id, active) => if id in s { TotalUpdate(s, id, s[id].(active := active), p); }
  }

  /** Over every run the stock of a product changes by receipts minus confirmed deductions, whatever the transfers. */
  lemma {:induction false} RunConserves(s: State, ops: seq<Op>, p: nat)
    ensures Total(Run(s, ops), p) == Total(s, p) + NetReceipts(s, ops, p)
    decreases |ops|
  {
    if ops != [] {
      StepConserves(s, ops[0], p);
      RunConserves(Apply(s, ops[0]), ops[1..], p);
    }
  }

  // ---------------------------------------------------------------- allocation

  predicate Fits(w: Stock, line: (nat, int)) { w.active && HasAvailable(w, line.0, line.1) }

  /** The number of order lines a warehouse could serve, each on its own. */
  function Servable(w: Stock, lines: seq<(nat, int)>): nat {
    if lines == [] then 0
    else Servable(w, lines[..|lines| - 1]) + if Fits(w, lines[|lines| - 1]) then 1 else 0
  }

  predicate FitsNowhere(s: State, line: (nat, int)) {
    forall id :: id in s ==> !Fits(s[id], line)
  }

  /** best serves the most lines, and no smaller id serves as many. */
  predicate Best(s: State, lines: seq<(nat, int)>, best: nat) {
    best in s && forall id :: id in s ==>
      Servable(s[id], lines) <= Servable(s[best], lines)
      && (Servable(s[id], lines) == Servable(s[best], lines) ==> best <= id)
  }
}
