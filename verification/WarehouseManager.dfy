/** Warehouses as objects, and the manager that moves stock between them and allocates orders. */
module WarehouseManagers {
  import opened Results
  import opened Sequences
  import opened Ordered
  import opened Sums
  import Model = WarehouseModel

  class Warehouse {
    var active: bool
    var stock: map<nat, int>
    var reservedStock: map<nat, int>

    function State(): Model.Stock
      reads this
    {
      Model.Stock(active, stock, reservedStock)
    }

    constructor ()
      ensures State() == Model.Stock(true, map[], map[])
    {
      active, stock, reservedStock := true, map[], map[];
    }

    function GetProductStock(p: nat): (r: int)
      reads this
      ensures r == Model.At(State().stock, p)
    {
      if p in stock then stock[p] else 0
    }

    function GetReservedStock(p: nat): (r: int)
      reads this
      ensures r == Model.At(State().reserved, p)
    {
      if p in reservedStock then reservedStock[p] else 0
    }

    predicate HasAvailableStock(p: nat, q: int)
      reads this
      ensures HasAvailableStock(p, q) <==> Model.HasAvailable(State(), p, q)
    {
      GetProductStock(p) - GetReservedStock(p) >= q
    }

    method SetActive(a: bool)
      modifies `active
      ensures State() == old(State()).(active := a)
    {
      active := a;
    }

    method AdjustProductStock(p: nat, delta: int) returns (r: int)
      modifies `stock
      ensures State() == Model.Adjust(old(State()), p, delta) && r == Model.At(stock, p)
    {
      stock := stock[p := GetProductStock(p) + delta];
      r := stock[p];
    }

    method ReserveStock(p: nat, q: int) returns (r: Outcome)
      modifies `reservedStock
      ensures State() == Model.Reserve(old(State()), p, q)
      ensures r == if Model.HasAvailable(old(State()), p, q) then Ok(()) else Error(ProductOutOfStock)
    {
      if !HasAvailableStock(p, q) {
        return Error(ProductOutOfStock);
      }
      reservedStock := reservedStock[p := GetReservedStock(p) + q];
      return Ok(());
    }

    method ReleaseStock(p: nat, q: int) returns (r: Outcome)
      modifies `reservedStock
      ensures State() == Model.Release(old(State()), p, q)
      ensures r == if Model.At(old(reservedStock), p) < q then Error(InvalidParameter) else Ok(())
    {
      if p !in reservedStock {
        reservedStock := reservedStock[p := 0];
      }
      if reservedStock[p] < q {
        return Error(InvalidParameter);
      }
      reservedStock := reservedStock[p := reservedStock[p] - q];
      return Ok(());
    }

    method ConfirmDeduction(p: nat, q: int) returns (r: Outcome)
      modifies `stock, `reservedStock
      ensures State() == Model.Confirm(old(State()), p, q)
      ensures r == if Model.At(old(reservedStock), p) < q then Error(InvalidParameter) else Ok(())
    {
      r := ReleaseStock(p, q);
      if r.Error? {
        return;
      }
      stock := stock[p := GetProductStock(p) - q];
    }
  }

  class WarehouseManager {
    var warehouses: map<nat, Warehouse>

    constructor ()
      ensures Valid() && warehouses == map[]
    {
      warehouses := map[];
    }

    ghost function Objects(): set<object>
      reads this
    {
      set id | id in warehouses :: warehouses[id]
    }

    /** Different ids own different warehouses. */
    ghost predicate Valid()
      reads this
    {
      forall a, b :: a in warehouses && b in warehouses && a != b ==> warehouses[a] != warehouses[b]
    }

    function State(): Model.State
      reads this, Objects()
    {
      map id | id in warehouses :: warehouses[id].State()
    }

    method ReceiveStock(p: nat, id: nat, q: int) returns (r: Outcome)
      requires Valid()
      modifies Objects()
      ensures State() == Model.Apply(old(State()), Model.OpReceive(id, p, q))
      ensures r == if id in warehouses then Ok(()) else Error(WarehouseNotFound)
    {
      if id !in warehouses {
        return Error(WarehouseNotFound);
      }
      var _ := warehouses[id].AdjustProductStock(p, q);
      return Ok(());
    }

    /** Source and target may be the same warehouse. */
    method TransferStock(p: nat, from: nat, to: nat, q: int) returns (r: Outcome)
      requires Valid()
      modifies Objects()
      ensures State() == Model.Transfer(old(State()), p, from, to, q)
      ensures r == if from !in warehouses || to !in warehouses then Error(WarehouseNotFound)
        else if Model.HasAvailable(old(State())[from], p, q) then Ok(()) else Error(ProductOutOfStock)
    {
      if from !in warehouses {
        return Error(WarehouseNotFound);
      }
      if to !in warehouses {
        return Error(WarehouseNotFound);
      }
      if !warehouses[from].HasAvailableStock(p, q) {
        return Error(ProductOutOfStock);
      }
      ghost var start := State();
      var _ := warehouses[from].AdjustProductStock(p, -q);
      assert State() == start[from := Model.Adjust(start[from], p, -q)];
      ghost var mid := State();
      var _ := warehouses[to].AdjustProductStock(p, q);
      assert State() == mid[to := Model.Adjust(mid[to], p, q)];
      return Ok(());
    }

    method GetTotalProductStock(p: nat) returns (total: int)
      ensures total == Model.Total(State(), p)
    {
      total := 0;
      ghost var levels := Model.StockLevels(State(), p);
      var rest := warehouses.Keys;
      assert levels - (levels.Keys - rest) == levels;
      while rest != {}
        invariant rest <= warehouses.Keys
        invariant total + Sum(levels - (levels.Keys - rest)) == Sum(levels)
        decreases rest
      {
        var id := Least(rest);
        ghost var left := levels - (levels.Keys - rest);
        SumRemove(left, id);
        total := total + warehouses[id].GetProductStock(p);
        rest := rest - {id};
        assert left - {id} == levels - (levels.Keys - rest);
      }
      ghost var none := levels - (levels.Keys - rest);
      assert none == map[];
      assert Sum(none) == 0;
      assert levels == Model.StockLevels(State(), p);
      assert total == Sum(levels);
    }

    /** The active warehouses with enough available stock, by ascending id. */
    method FindWarehousesWithProduct(p: nat, q: int) returns (r: seq<nat>)
      ensures Increasing(r)
      ensures forall id :: id in r <==> id in State() && Model.Fits(State()[id], (p, q))
    {
      r := [];
      var rest := warehouses.Keys;
      while rest != {}
        invariant rest <= warehouses.Keys
        invariant Increasing(r)
        invariant forall id :: id in r ==> forall later :: later in rest ==> id < later
        invariant forall id :: id in r <==> id in State() && id !in rest && Model.Fits(State()[id], (p, q))
        decreases rest
      {
        var id := Least(rest);
        rest := rest - {id};
        if warehouses[id].active && warehouses[id].HasAvailableStock(p, q) {
          assert forall k :: 0 <= k < |r| ==> r[k] in r;
          r := r + [id];
        }
      }
    }

    /**
     Fails exactly when some line fits no active warehouse. Otherwise, for a non-empty order, the
     answer is the warehouse that serves the most lines, the smallest id among equals, with its count.
     */
    method AllocateOrder(lines: seq<(nat, int)>) returns (r: Result<(nat, nat)>)
      ensures r.Error? <==> exists i :: 0 <= i < |lines| && Model.FitsNowhere(State(), lines[i])
      ensures r.Error? ==> r.code == ProductOutOfStock
      ensures r.Ok? && lines != [] ==>
        Model.Best(State(), lines, r.value.0) && State()[r.value.0].active
        && r.value.1 == Model.Servable(State()[r.value.0], lines)
      ensures lines == [] ==> r == Ok((if warehouses == map[] then 0 else Least(warehouses.Keys), 0))
    {
      var tally := CountLines(lines);
      if tally.Error? {
        return Error(tally.code);
      }
      var counts := tally.value;
      var selected, maxCount := Argmax(counts);
      ArgmaxIsBest(State(), lines, counts, selected, maxCount);
      if selected == 0 && warehouses != map[] {
        selected := Least(warehouses.Keys);
      }
      return Ok((selected, maxCount));
    }

    /** The counting loop, which gives up at the first line that fits nowhere. */
    method CountLines(lines: seq<(nat, int)>) returns (r: Result<map<nat, nat>>)
      ensures r.Error? <==> exists i :: 0 <= i < |lines| && Model.FitsNowhere(State(), lines[i])
      ensures r.Error? ==> r.code == ProductOutOfStock
      ensures r.Ok? ==> Counted(State(), lines, r.value) && (lines != [] ==> r.value != map[])
    {
      var counts: map<nat, nat> := map[];
      ghost var s := State();
      for i := 0 to |lines|
        invariant State() == s && Tallied(s, lines, i, counts)
      {
        var found := FindWarehousesWithProduct(lines[i].0, lines[i].1);
        NowhereIff(s, lines[i], found);
        if found == [] {
          return Error(ProductOutOfStock);
        }
        ghost var before := counts;
        counts := CountEach(counts, found);
        TallyLine(s, lines, i, before, found, counts);
      }
      assert lines[..|lines|] == lines;
      return Ok(counts);
    }
  }

  /** The state of the counting loop before line i. */
  ghost predicate Tallied(s: Model.State, lines: seq<(nat, int)>, i: nat, counts: map<nat, nat>) {
    i <= |lines| && Counted(s, lines[..i], counts) && (i > 0 ==> counts != map[])
    && forall k :: 0 <= k < i ==> !Model.FitsNowhere(s, lines[k])
  }

  lemma TallyLine(s: Model.State, lines: seq<(nat, int)>, i: nat, counts: map<nat, nat>, found: seq<nat>,
      next: map<nat, nat>)
    requires i < |lines| && Tallied(s, lines, i, counts) && found != []
    requires forall id :: id in found <==> id in s && Model.Fits(s[id], lines[i])
    requires forall id :: id in next <==> id in counts || id in found
    requires forall id :: id in next ==>
      next[id] == (if id in counts then counts[id] else 0) + if id in found then 1 else 0
    ensures Tallied(s, lines, i + 1, next)
  {
    NowhereIff(s, lines[i], found);
    CountLine(s, lines[..i], lines[i], counts, found, next);
    assert lines[..i + 1] == lines[..i] + [lines[i]];
  }

  lemma NowhereIff(s: Model.State, line: (nat, int), found: seq<nat>)
    requires forall id :: id in found <==> id in s && Model.Fits(s[id], line)
    ensures Model.FitsNowhere(s, line) <==> found == []
  {
    if found != [] {
      assert found[0] in found;
    } else {
      forall id | id in s ensures !Model.Fits(s[id], line) { assert id !in found; }
    }
  }

  /** warehouse_counts[id]++ for every found warehouse. */
  method CountEach(counts: map<nat, nat>, found: seq<nat>) returns (next: map<nat, nat>)
    requires Increasing(found)
    ensures forall id :: id in next <==> id in counts || id in found
    ensures forall id :: id in next ==>
      next[id] == (if id in counts then counts[id] else 0) + if id in found then 1 else 0
  {
    next := counts;
    for k := 0 to |found|
      invariant forall id :: id in next <==> id in counts || id in found[..k]
      invariant forall id :: id in next ==>
        next[id] == (if id in counts then counts[id] else 0) + if id in found[..k] then 1 else 0
    {
      assert found[k] !in found[..k];
      next := next[found[k] := (if found[k] in next then next[found[k]] else 0) + 1];
      assert found[..k + 1] == found[..k] + [found[k]];
    }
    assert found[..|found|] == found;
  }

  /** counts holds the number of servable lines of every warehouse that serves any. */
  ghost predicate Counted(s: Model.State, lines: seq<(nat, int)>, counts: map<nat, nat>) {
    && (forall id :: id in counts ==> id in s && s[id].active && counts[id] > 0)
    && (forall id :: id in s ==> Model.Servable(s[id], lines) == if id in counts then counts[id] else 0)
  }

  lemma CountLine(s: Model.State, lines: seq<(nat, int)>, line: (nat, int), counts: map<nat, nat>, found: seq<nat>,
      next: map<nat, nat>)
    requires Counted(s, lines, counts)
    requires forall id :: id in found <==> id in s && Model.Fits(s[id], line)
    requires forall id :: id in next <==> id in counts || id in found
    requires forall id :: id in next ==>
      next[id] == (if id in counts then counts[id] else 0) + if id in found then 1 else 0
    ensures Counted(s, lines + [line], next) && (found != [] ==> next != map[])
  {
    assert found != [] ==> found[0] in found && found[0] in next;
    assert (lines + [line])[..|lines|] == lines;
  }

  lemma ArgmaxIsBest(s: Model.State, lines: seq<(nat, int)>, counts: map<nat, nat>, selected: nat, maxCount: nat)
    requires Counted(s, lines, counts)
    requires counts != map[] ==> selected in counts && maxCount == counts[selected]
    requires forall id :: id in counts ==> counts[id] <= maxCount && (counts[id] == maxCount ==> selected <= id)
    ensures counts != map[] ==>
      Model.Best(s, lines, selected) && s[selected].active && maxCount == Model.Servable(s[selected], lines)
      && (selected == 0 ==> Least(s.Keys) == 0)
    ensures lines == [] ==> counts == map[]
  {
  }

  /** The scan of a std::map with strict >: the first of the largest values wins. */
  method Argmax(counts: map<nat, nat>) returns (selected: nat, maxCount: nat)
    requires forall id :: id in counts ==> counts[id] > 0
    ensures counts == map[] ==> selected == 0 && maxCount == 0
    ensures counts != map[] ==> selected in counts && maxCount == counts[selected]
    ensures forall id :: id in counts ==> counts[id] <= maxCount && (counts[id] == maxCount ==> selected <= id)
  {
    selected, maxCount := 0, 0;
    var rest := counts.Keys;
    while rest != {}
      invariant rest <= counts.Keys
      invariant if rest == counts.Keys then selected == 0 && maxCount == 0
        else selected in counts && selected !in rest && maxCount == counts[selected]
      invariant forall id :: id in counts && id !in rest ==>
        counts[id] <= maxCount && (counts[id] == maxCount ==> selected <= id)
        && forall later :: later in rest ==> id < later
      decreases rest
    {
      var id := Least(rest);
      rest := rest - {id};
      if counts[id] > maxCount {
        selected, maxCount := id, counts[id];
      }
    }
  }
}
