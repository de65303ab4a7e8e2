/** Stock and reservations of every warehouse, added up from the accepted calls. */
module WarehouseHistory {
  import opened Results
  import opened WarehouseModel

  /** Stock and reservation of one product in one warehouse, which may be unknown. */
  function StockOf(s: State, id: nat, p: nat): int { if id in s then At(s[id].stock, p) else 0 }

  function ReservedOf(s: State, id: nat, p: nat): int { if id in s then At(s[id].reserved, p) else 0 }

  /** A call is accepted: enough free stock to reserve or transfer, enough reserved to release or confirm. */
  predicate Accepted(s: State, op: Op) {
    match op
    case OpReserve(id, p, q) => id in s && StockOf(s, id, p) - ReservedOf(s, id, p) >= q
    case OpRelease(id, p, q) => id in s && ReservedOf(s, id, p) >= q
    case OpConfirm(id, p, q) => id in s && ReservedOf(s, id, p) >= q
    case OpReceive(id, _, _) => id in s
    case OpTransfer(p, from, to, q) => from in s && to in s && StockOf(s, from, p) - ReservedOf(s, from, p) >= q
    case OpActivate(id, _) => id in s
  }

  /** What a call adds to the reservation of p in warehouse id. */
  function AddsReserved(s: State, op: Op, id: nat, p: nat): int {
    if !Accepted(s, op) then 0
    else
      match op
      case OpReserve(j, r, q) => if (j, r) == (id, p) then q else 0
      case OpRelease(j, r, q) => if (j, r) == (id, p) then -q else 0
      case OpConfirm(j, r, q) => if (j, r) == (id, p) then -q else 0
      case OpReceive(_, _, _) => 0
      case OpTransfer(_, _, _, _) => 0
      case OpActivate(_, _) => 0
  }

  /** What it adds to the stock; a transfer takes from one warehouse and gives to the other, if they differ. */
  function AddsStock(s: State, op: Op, id: nat, p: nat): int {
    if !Accepted(s, op) then 0
    else
      match op
      case OpReceive(j, r, q) => if (j, r) == (id, p) then q else 0
      case OpConfirm(j, r, q) => if (j, r) == (id, p) then -q else 0
      case OpTransfer(r, from, to, q) =>
        (if (to, r) == (id, p) then q else 0) - if (from, r) == (id, p) then q else 0
      case OpReserve(_, _, _) => 0
      case OpRelease(_, _, _) => 0
      case OpActivate(_, _) => 0
  }

  function SumReserved(s: State, ops: seq<Op>, id: nat, p: nat): int
    decreases |ops|
  {
    if ops == [] then 0 else AddsReserved(s, ops[0], id, p) + SumReserved(Apply(s, ops[0]), ops[1..], id, p)
  }

  function SumStock(s: State, ops: seq<Op>, id: nat, p: nat): int
    decreases |ops|
  {
    if ops == [] then 0 else AddsStock(s, ops[0], id, p) + SumStock(Apply(s, ops[0]), ops[1..], id, p)
  }

  lemma StepAdds(s: State, op: Op, id: nat, p: nat)
    ensures ReservedOf(Apply(s, op), id, p) == ReservedOf(s, id, p) + AddsReserved(s, op, id, p)
    ensures StockOf(Apply(s, op), id, p) == StockOf(s, id, p) + AddsStock(s, op, id, p)
    ensures Apply(s, op).Keys == s.Keys
  {
  }

  /**
   Over every run, in every warehouse: the reservation of a product is the initial one plus what was
   reserved less what was released and confirmed, by accepted calls; its stock is the initial one
   plus receipts and transfers in less confirmed deductions and transfers out.
   */
  lemma {:induction false} RunAdds(s: State, ops: seq<Op>, id: nat, p: nat)
    ensures ReservedOf(Run(s, ops), id, p) == ReservedOf(s, id, p) + SumReserved(s, ops, id, p)
    ensures StockOf(Run(s, ops), id, p) == StockOf(s, id, p) + SumStock(s, ops, id, p)
    decreases |ops|
  {
    if ops != [] {
      StepAdds(s, ops[0], id, p);
      RunAdds(Apply(s, ops[0]), ops[1..], id, p);
    }
  }

  /** What is still free to reserve: confirming leaves it alone, reserving and releasing change it by their quantity. */
  lemma FreeAfter(s: State, op: Op, id: nat, p: nat)
    ensures var free := (t: State) => StockOf(t, id, p) - ReservedOf(t, id, p);
      free(Apply(s, op)) == free(s) +
        if !Accepted(s, op) then 0
        else match op
          case OpReserve(j, r, q) => if (j, r) == (id, p) then -q else 0
          case OpRelease(j, r, q) => if (j, r) == (id, p) then q else 0
          case OpConfirm(_, _, _) => 0
          case OpReceive(j, r, q) => if (j, r) == (id, p) then q else 0
          case OpTransfer(r, from, to, q) =>
            (if (to, r) == (id, p) then q else 0) - if (from, r) == (id, p) then q else 0
          case OpActivate(_, _) => 0
  {
    StepAdds(s, op, id, p);
  }

  /** Whether a warehouse takes part in allocation is what the last activation said. */
  function ActiveAfter(active: bool, ops: seq<Op>, id: nat): bool
    decreases |ops|
  {
    if ops == [] then active
    else
      var last := |ops| - 1;
      match ops[last]
      case OpActivate(j, a) => if j == id then a else ActiveAfter(active, ops[..last], id)
      case _ => ActiveAfter(active, ops[..last], id)
  }

  lemma {:induction false} RunSnoc(s: State, ops: seq<Op>, op: Op)
    ensures Run(s, ops + [op]) == Apply(Run(s, ops), op)
    decreases |ops|
  {
    if ops == [] {
      assert [op][1..] == [];
      assert Run(s, [op]) == Run(Apply(s, op), []);
    } else {
      assert (ops + [op])[1..] == ops[1..] + [op];
      RunSnoc(Apply(s, ops[0]), ops[1..], op);
    }
  }

  lemma {:induction false} RunActive(s: State, ops: seq<Op>, id: nat)
    requires id in s
    ensures id in Run(s, ops) && Run(s, ops)[id].active == ActiveAfter(s[id].active, ops, id)
    decreases |ops|
  {
    if ops != [] {
      var last := |ops| - 1;
      RunActive(s, ops[..last], id);
      assert ops == ops[..last] + [ops[last]];
      RunSnoc(s, ops[..last], ops[last]);
      StepAdds(Run(s, ops[..last]), ops[last], id, 0);
      StepActive(Run(s, ops[..last]), ops[last], id);
    }
  }

  /** The places of the order lines that an active warehouse has enough free stock for, each line on its own. */
  function ServedLines(s: State, id: nat, lines: seq<(nat, int)>): set<nat>
    requires id in s
  {
    set i: nat | i < |lines| && s[id].active && StockOf(s, id, lines[i].0) - ReservedOf(s, id, lines[i].0) >= lines[i].1
  }

  /** The number by which warehouses are compared is the number of these lines. */
  lemma {:induction false} ServableIsCount(s: State, id: nat, lines: seq<(nat, int)>)
    requires id in s
    ensures Servable(s[id], lines) == |ServedLines(s, id, lines)|
    decreases |lines|
  {
    if lines != [] {
      var last := |lines| - 1;
      ServableIsCount(s, id, lines[..last]);
      var before := ServedLines(s, id, lines[..last]);
      assert ServedLines(s, id, lines) == before + if Fits(s[id], lines[last]) then {last} else {};
    }
  }

  lemma StepActive(s: State, op: Op, id: nat)
    requires id in s
    ensures id in Apply(s, op)
    ensures Apply(s, op)[id].active == if op.OpActivate? && op.id == id then op.active else s[id].active
  {
  }
}
