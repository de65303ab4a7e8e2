/** The order line collection: a vector with two indexes that every operation rebuilds. */
module OrderItemCollections {
  import opened Results
  import opened Sequences
  import opened Ordered
  import opened Sums
  import opened OrderLines

  class OrderItemCollection {
    var items: seq<Item>
    var idIndex: map<nat, nat>
    var productIndex: map<nat, seq<nat>>

    /** The indexes describe the items exactly. */
    ghost predicate Valid()
      reads this
    {
      Indexed(items, idIndex, productIndex)
    }

    constructor ()
      ensures Valid() && items == []
    {
      items, idIndex, productIndex := [], map[], map[];
    }

    method Clear()
      modifies this
      ensures Valid() && items == []
    {
      items, idIndex, productIndex := [], map[], map[];
    }

    method RebuildIndexes()
      modifies `idIndex, `productIndex
      ensures Valid()
    {
      idIndex, productIndex := map[], map[];
      for i := 0 to |items|
        invariant Indexed(items[..i], idIndex, productIndex)
      {
        ghost var before := items[..i];
        var item := items[i];
        assert items[..i + 1] == before + [item];
        IndexSnoc(before, item, idIndex, productIndex);
        idIndex := idIndex[item.id := i];
        productIndex := productIndex[item.product := (if item.product in productIndex then productIndex[item.product]
          else []) + [i]];
      }
      assert items[..|items|] == items;
    }

    /** The new line gets the id size() + 1, which may be in use already. */
    method AddItem(item: Item)
      modifies this
      ensures Valid() && items == old(items) + [item.(id := |old(items)| + 1)]
    {
      items := items + [item.(id := |items| + 1)];
      RebuildIndexes();
    }

    /** Of several lines with the id the last one goes. */
    method RemoveItem(id: nat) returns (r: Outcome)
      requires Valid()
      modifies this
      ensures Valid()
      ensures r.Ok? <==> id in Ids(old(items))
      ensures r.Error? ==> items == old(items)
      ensures r.Ok? ==> exists k: nat ::
        LastPosition(old(items), id, k) && items == old(items)[..k] + old(items)[k + 1..]
    {
      if id !in idIndex {
        return Error(InvalidParameter);
      }
      var k := idIndex[id];
      assert LastPosition(items, id, k) && items[k] in items;
      items := items[..k] + items[k + 1..];
      RebuildIndexes();
      return Ok(());
    }

    /** Erasing by position, highest first, leaves the other products' lines in their order. */
    method RemoveItemByProduct(p: nat) returns (r: Outcome)
      requires Valid()
      modifies this
      ensures Valid() && items == WithoutProduct(old(items), p)
      ensures r.Ok? <==> p in Products(old(items))
    {
      if p !in productIndex {
        WithoutProductSame(items, p);
        return Error(InvalidParameter);
      }
      ghost var start := items;
      var positions := productIndex[p];
      assert positions[0] in positions && start[positions[0]] in start;
      var n := |positions|;
      while n > 0
        invariant 0 <= n <= |positions|
        invariant items == Erased(start, positions, p, n)
      {
        n := n - 1;
        var idx := positions[n];
        assert idx in positions;
        EraseStep(start, positions, p, n);
        items := items[..idx] + items[idx + 1..];
      }
      WithoutBeforeFirst(start, positions, p);
      RebuildIndexes();
      return Ok(());
    }

    method UpdateQuantity(id: nat, quantity: int) returns (r: Outcome)
      requires Valid()
      modifies this
      ensures Valid()
      ensures r.Ok? <==> id in Ids(old(items))
      ensures r.Error? ==> items == old(items)
      ensures r.Ok? ==> exists k: nat ::
        LastPosition(old(items), id, k) && items == old(items)[k := old(items)[k].(quantity := quantity)]
    {
      if id !in idIndex {
        return Error(InvalidParameter);
      }
      var k := idIndex[id];
      assert LastPosition(items, id, k) && items[k] in items;
      IndexedKept(items, k, items[k].(quantity := quantity), idIndex, productIndex);
      items := items[k := items[k].(quantity := quantity)];
      return Ok(());
    }

    method UpdatePrice(id: nat, price: real) returns (r: Outcome)
      requires Valid()
      modifies this
      ensures Valid()
      ensures r.Ok? <==> id in Ids(old(items))
      ensures r.Error? ==> items == old(items)
      ensures r.Ok? ==> exists k: nat ::
        LastPosition(old(items), id, k) && items == old(items)[k := old(items)[k].(unitPrice := price)]
    {
      if id !in idIndex {
        return Error(InvalidParameter);
      }
      var k := idIndex[id];
      assert LastPosition(items, id, k) && items[k] in items;
      IndexedKept(items, k, items[k].(unitPrice := price), idIndex, productIndex);
      items := items[k := items[k].(unitPrice := price)];
      return Ok(());
    }

    /** get_item: the last line with the id. */
    method GetItem(id: nat) returns (r: Option<Item>)
      requires Valid()
      ensures r.None? <==> id !in Ids(items)
      ensures r.Some? ==> exists k: nat :: LastPosition(items, id, k) && r.value == items[k]
    {
      if id !in idIndex {
        return None;
      }
      assert LastPosition(items, id, idIndex[id]) && items[idIndex[id]] in items;
      return Some(items[idIndex[id]]);
    }

    /** get_item_by_product: the first line of the product. */
    method GetItemByProduct(p: nat) returns (r: Option<Item>)
      requires Valid()
      ensures if p in Products(items) then r == Some(FirstOf(items, p)) else r == None
    {
      if p !in productIndex {
        return None;
      }
      var k := productIndex[p][0];
      assert k in productIndex[p] && items[k] in items;
      FirstPosition(items, p, k, productIndex[p]);
      return Some(items[k]);
    }

    method ComputeTotalQuantity() returns (total: int)
      ensures total == TotalQuantity(items)
    {
      total := 0;
      for i := 0 to |items|
        invariant total == TotalQuantity(items[..i])
      {
        assert items[..i + 1][..i] == items[..i];
        total := total + items[i].quantity;
      }
      assert items[..|items|] == items;
    }

    /** Adding up the indexed lines gives the quantity of all lines of the product. */
    method CountProduct(p: nat) returns (count: int)
      requires Valid()
      ensures count == QuantityOf(items, p)
    {
      count := 0;
      if p !in productIndex {
        QuantityOfAbsent(items, p);
        return;
      }
      var positions := productIndex[p];
      for n := 0 to |positions|
        invariant count == CountedTo(items, p, positions, n)
      {
        CountNext(items, p, positions, n);
        count := count + items[positions[n]].quantity;
      }
      CountAll(items, p, positions);
    }

    method ProductQuantityMap() returns (m: map<nat, int>)
      requires Valid()
      ensures m == QuantityMap(items) && Sum(m) == TotalQuantity(items)
    {
      m := map[];
      var ids := Ascending(productIndex.Keys);
      for k := 0 to |ids|
        invariant Quantities(items, ids, k, m)
      {
        var count := CountProduct(ids[k]);
        OneMoreQuantity(items, ids, k, m);
        m := m[ids[k] := count];
      }
      IndexedProducts(items, idIndex, productIndex);
      AllQuantities(items, ids, m);
    }

    method MergeDuplicateProducts()
      modifies this
      ensures Valid() && items == Merged(old(items))
      ensures QuantityMap(items) == QuantityMap(old(items)) && TotalQuantity(items) == TotalQuantity(old(items))
      ensures ProductsIncrease(items)
    {
      ghost var start := items;
      var merged := CollectByProduct();
      items := InKeyOrder(merged);
      MergedIs(start, merged, items);
      MergeKeepsQuantities(start);
      MergedProducts(start);
      RebuildIndexes();
    }

    /** Walks a std::map by ascending key. */
    static method InKeyOrder(merged: map<nat, Item>) returns (r: seq<Item>)
      ensures |r| == |Ascending(merged.Keys)|
      ensures forall k :: 0 <= k < |r| ==>
        Ascending(merged.Keys)[k] in merged && r[k] == merged[Ascending(merged.Keys)[k]]
    {
      r := [];
      var ids := Ascending(merged.Keys);
      for k := 0 to |ids|
        invariant |r| == k
        invariant forall j :: 0 <= j < k ==> ids[j] in merged && r[j] == merged[ids[j]]
      {
        assert ids[k] in ids;
        r := r + [merged[ids[k]]];
      }
    }

    /** The std::map that merge_duplicate_products fills. */
    method CollectByProduct() returns (merged: map<nat, Item>)
      ensures merged.Keys == Products(items)
      ensures forall p :: p in merged ==> merged[p] == MergedLine(items, p)
    {
      merged := map[];
      for i := 0 to |items|
        invariant merged.Keys == Products(items[..i])
        invariant forall p :: p in merged ==> merged[p] == MergedLine(items[..i], p)
      {
        var item := items[i];
        assert items[..i + 1] == items[..i] + [item];
        MergeSnoc(items[..i], item);
        if item.product !in merged {
          merged := merged[item.product := item];
        } else {
          var line := merged[item.product];
          merged := merged[item.product := line.(quantity := line.quantity + item.quantity)];
        }
      }
      assert items[..|items|] == items;
    }

    method SortByPrice(ascending: bool)
      modifies this
      ensures Valid() && multiset(items) == multiset(old(items)) && QuantityMap(items) == QuantityMap(old(items))
      ensures forall i, j :: 0 <= i < j < |items| ==>
        if ascending then items[i].unitPrice <= items[j].unitPrice else items[i].unitPrice >= items[j].unitPrice
    {
      items := Sort(items, (x: Item) => if ascending then x.unitPrice else -x.unitPrice);
      PermutationKeepsMap(items, old(items));
      RebuildIndexes();
    }

    method SortByQuantity(ascending: bool)
      modifies this
      ensures Valid() && multiset(items) == multiset(old(items)) && QuantityMap(items) == QuantityMap(old(items))
      ensures forall i, j :: 0 <= i < j < |items| ==>
        if ascending then items[i].quantity <= items[j].quantity else items[i].quantity >= items[j].quantity
    {
      items := Sort(items, (x: Item) => if ascending then x.quantity as real else -(x.quantity as real));
      PermutationKeepsMap(items, old(items));
      RebuildIndexes();
    }
  }

  // ---------------------------------------------------------------- quantities per product

  /** m holds the quantities of the first k products. */
  ghost predicate Quantities(items: seq<Item>, ids: seq<nat>, k: nat, m: map<nat, int>) {
    && k <= |ids|
    && (forall j :: 0 <= j < k ==> ids[j] in m)
    && (forall p :: p in m ==> p in ids && m[p] == QuantityOf(items, p))
  }

  lemma OneMoreQuantity(items: seq<Item>, ids: seq<nat>, k: nat, m: map<nat, int>)
    requires Quantities(items, ids, k, m) && k < |ids|
    ensures Quantities(items, ids, k + 1, m[ids[k] := QuantityOf(items, ids[k])])
  {
  }

  lemma AllQuantities(items: seq<Item>, ids: seq<nat>, m: map<nat, int>)
    requires Quantities(items, ids, |ids|, m) && ids == Ascending(Products(items))
    ensures m == QuantityMap(items) && Sum(m) == TotalQuantity(items)
  {
    assert forall p :: p in m <==> p in ids;
    DoubleCounting(items);
  }

  // ---------------------------------------------------------------- rebuilding

  lemma IndexSnoc(items: seq<Item>, item: Item, idIndex: map<nat, nat>, productIndex: map<nat, seq<nat>>)
    requires Indexed(items, idIndex, productIndex)
    ensures Indexed(items + [item], idIndex[item.id := |items|],
      productIndex[item.product := (if item.product in productIndex then productIndex[item.product]
        else []) + [|items|]])
  {
    var all := items + [item];
    var before := if item.product in productIndex then productIndex[item.product] else [];
    assert ExactPositions(items, item.product, before);
    PositionsSnoc(items, item, before);
    forall p | p in productIndex && p != item.product ensures ExactPositions(all, p, productIndex[p]) {
      PositionsKept(items, item, p, productIndex[p]);
    }
    forall id | id in idIndex && id != item.id ensures LastPosition(all, id, idIndex[id]) {
      assert LastPosition(items, id, idIndex[id]);
    }
  }

  lemma PositionsSnoc(items: seq<Item>, item: Item, positions: seq<nat>)
    requires ExactPositions(items, item.product, positions)
    ensures ExactPositions(items + [item], item.product, positions + [|items|])
  {
    var all, more := items + [item], positions + [|items|];
    forall i, j | 0 <= i < j < |more| ensures more[i] < more[j] {
      assert more[i] == positions[i] && positions[i] in positions;
    }
    forall i | 0 <= i < |all| && all[i].product == item.product ensures i in more {
      if i < |items| { assert all[i] == items[i]; } else { assert more[|positions|] == i; }
    }
  }

  lemma PositionsKept(items: seq<Item>, item: Item, p: nat, positions: seq<nat>)
    requires ExactPositions(items, p, positions) && p != item.product
    ensures ExactPositions(items + [item], p, positions)
  {
  }

  /** Changing a line's quantity or price leaves the indexes right. */
  lemma IndexedKept(items: seq<Item>, k: nat, item: Item, idIndex: map<nat, nat>, productIndex: map<nat, seq<nat>>)
    requires Indexed(items, idIndex, productIndex)
    requires k < |items| && item.id == items[k].id && item.product == items[k].product
    ensures Indexed(items[k := item], idIndex, productIndex)
  {
    forall id | id in idIndex ensures LastPosition(items[k := item], id, idIndex[id]) {
      assert LastPosition(items, id, idIndex[id]);
    }
    forall p | p in productIndex ensures ExactPositions(items[k := item], p, productIndex[p]) {
      assert ExactPositions(items, p, productIndex[p]);
    }
  }

  lemma IndexedProducts(items: seq<Item>, idIndex: map<nat, nat>, productIndex: map<nat, seq<nat>>)
    requires Indexed(items, idIndex, productIndex)
    ensures productIndex.Keys == Products(items)
  {
    forall p | p in productIndex ensures p in Products(items) {
      assert productIndex[p][0] in productIndex[p];
      assert items[productIndex[p][0]] in items;
    }
  }

  // ---------------------------------------------------------------- erasing by position

  /** A place between two consecutive listed positions belongs to another product. */
  lemma Gap(items: seq<Item>, positions: seq<nat>, p: nat, n: nat, i: nat)
    requires ExactPositions(items, p, positions) && n <= |positions| && i < |items|
    requires n > 0 ==> positions[n - 1] < i
    requires n < |positions| ==> i < positions[n]
    ensures items[i].product != p
  {
    forall j | 0 <= j < |positions| ensures positions[j] != i {
      if j < n - 1 { assert positions[j] < positions[n - 1]; }
      if j > n { assert positions[n] < positions[j]; }
    }
    assert i !in positions;
  }

  /** The lines from here on are filtered already. */
  function Cut(items: seq<Item>, positions: seq<nat>, n: nat): nat {
    if n < |positions| then positions[n] else |items|
  }

  /** The items once the listed positions from n on are erased. */
  function Erased(items: seq<Item>, positions: seq<nat>, p: nat, n: nat): seq<Item>
    requires ExactPositions(items, p, positions) && n <= |positions|
  {
    assert n < |positions| ==> positions[n] in positions;
    var cut := Cut(items, positions, n);
    items[..cut] + WithoutProduct(items[cut..], p)
  }

  lemma EraseStep(items: seq<Item>, positions: seq<nat>, p: nat, n: nat)
    requires ExactPositions(items, p, positions) && n < |positions|
    ensures var before := Erased(items, positions, p, n + 1); var idx := positions[n];
      idx < |before| && before[..idx] + before[idx + 1..] == Erased(items, positions, p, n)
  {
    var cut := Cut(items, positions, n + 1);
    var idx := positions[n];
    FilterFrom(items, positions, p, n);
    assert items[..cut] == items[..idx] + [items[idx]] + items[idx + 1..cut];
    EraseAt(items[..idx], items[idx], items[idx + 1..cut], WithoutProduct(items[cut..], p));
  }

  /** Between the n-th listed position and the next only lines of other products stand. */
  lemma FilterFrom(items: seq<Item>, positions: seq<nat>, p: nat, n: nat)
    requires ExactPositions(items, p, positions) && n < |positions|
    ensures var cut := Cut(items, positions, n + 1); var idx := positions[n];
      idx < cut <= |items| && WithoutProduct(items[idx..], p) == items[idx + 1..cut] + WithoutProduct(items[cut..], p)
  {
    var cut := Cut(items, positions, n + 1);
    var idx := positions[n];
    assert idx in positions;
    if n + 1 < |positions| { assert positions[n + 1] in positions; }
    forall i | idx < i < cut ensures items[i].product != p {
      Gap(items, positions, p, n + 1, i);
    }
    FilterSplit(items, p, idx, cut);
  }

  lemma FilterSplit(items: seq<Item>, p: nat, idx: nat, cut: nat)
    requires idx < cut <= |items| && items[idx].product == p
    requires forall i :: idx < i < cut ==> items[i].product != p
    ensures WithoutProduct(items[idx..], p) == items[idx + 1..cut] + WithoutProduct(items[cut..], p)
  {
    var between := items[idx + 1..cut];
    WithoutProductSame(between, p);
    WithoutProductConcat(between, items[cut..], p);
    assert items[idx..][1..] == between + items[cut..];
  }

  lemma EraseAt(a: seq<Item>, x: Item, b: seq<Item>, c: seq<Item>)
    ensures var before := a + [x] + b + c; before[..|a|] + before[|a| + 1..] == a + (b + c)
  {
  }

  lemma WithoutBeforeFirst(items: seq<Item>, positions: seq<nat>, p: nat)
    requires ExactPositions(items, p, positions)
    ensures Erased(items, positions, p, 0) == WithoutProduct(items, p)
  {
    if positions != [] { assert positions[0] in positions; }
    var cut := Cut(items, positions, 0);
    forall i | 0 <= i < cut ensures items[i].product != p {
      Gap(items, positions, p, 0, i);
    }
    WithoutProductSame(items[..cut], p);
    WithoutProductConcat(items[..cut], items[cut..], p);
    assert items == items[..cut] + items[cut..];
  }

  // ---------------------------------------------------------------- counting through the index

  /** The quantity of p in the lines up to the n-th of its positions. */
  ghost function CountedTo(items: seq<Item>, p: nat, positions: seq<nat>, n: nat): int
    requires ExactPositions(items, p, positions) && n <= |positions|
  {
    assert n > 0 ==> positions[n - 1] in positions;
    QuantityOf(items[..if n == 0 then 0 else positions[n - 1] + 1], p)
  }

  lemma CountNext(items: seq<Item>, p: nat, positions: seq<nat>, n: nat)
    requires ExactPositions(items, p, positions) && n < |positions|
    ensures positions[n] < |items|
    ensures CountedTo(items, p, positions, n + 1) == CountedTo(items, p, positions, n) + items[positions[n]].quantity
  {
    var idx := positions[n];
    assert idx in positions;
    QuantityOfNone(items[..idx], p, positions, n, if n == 0 then 0 else positions[n - 1] + 1, items);
    assert items[..idx + 1][..idx] == items[..idx];
  }

  lemma CountAll(items: seq<Item>, p: nat, positions: seq<nat>)
    requires ExactPositions(items, p, positions)
    ensures CountedTo(items, p, positions, |positions|) == QuantityOf(items, p)
  {
    var n := |positions|;
    assert n > 0 ==> positions[n - 1] in positions;
    assert items[..|items|] == items;
    QuantityOfNone(items, p, positions, n, if n == 0 then 0 else positions[n - 1] + 1, items);
  }

  /** The lines that follow the listed positions add nothing, up to the next one. */
  lemma QuantityOfNone(prefix: seq<Item>, p: nat, positions: seq<nat>, n: nat, from: nat, items: seq<Item>)
    requires ExactPositions(items, p, positions) && n <= |positions| && prefix <= items
    requires from == (if n == 0 then 0 else positions[n - 1] + 1) && from <= |prefix|
    requires n < |positions| ==> |prefix| <= positions[n]
    ensures QuantityOf(prefix, p) == QuantityOf(items[..from], p)
  {
    var between := prefix[from..];
    forall i | 0 <= i < |between| ensures between[i].product != p {
      Gap(items, positions, p, n, from + i);
    }
    QuantityOfAbsent(between, p);
    assert prefix == items[..from] + between;
    QuantityOfConcat(items[..from], between, p);
  }

  lemma FirstPosition(items: seq<Item>, p: nat, k: nat, positions: seq<nat>)
    requires ExactPositions(items, p, positions) && positions != [] && positions[0] == k < |items|
    requires items[k].product == p && p in Products(items)
    ensures FirstOf(items, p) == items[k]
  {
    forall i | 0 <= i < k ensures items[i].product != p {
      Gap(items, positions, p, 0, i);
    }
    FirstOfAt(items, p, k);
  }

  lemma {:induction false} FirstOfAt(items: seq<Item>, p: nat, k: nat)
    requires k < |items| && items[k].product == p && p in Products(items)
    requires forall i :: 0 <= i < k ==> items[i].product != p
    ensures FirstOf(items, p) == items[k]
  {
    if k > 0 {
      assert items[1..][k - 1] in items[1..];
      FirstOfAt(items[1..], p, k - 1);
    }
  }

  // ---------------------------------------------------------------- merging

  lemma {:induction false} FirstOfSnoc(items: seq<Item>, item: Item, p: nat)
    requires p in Products(items + [item])
    ensures FirstOf(items + [item], p) == if p in Products(items) then FirstOf(items, p) else item
  {
    if items == [] {
      assert items + [item] == [item];
      assert item in [item];
    } else if items[0].product != p {
      assert (items + [item])[1..] == items[1..] + [item];
      var x :| x in items + [item] && x.product == p;
      assert x in items[1..] + [item];
      if p in Products(items) { var y :| y in items && y.product == p; assert y in items[1..]; }
      FirstOfSnoc(items[1..], item, p);
      assert forall y :: y in items[1..] ==> y in items;
    } else {
      assert items[0] in items;
    }
  }

  lemma MergeSnoc(items: seq<Item>, item: Item)
    ensures Products(items + [item]) == Products(items) + {item.product}
    ensures forall p :: p in Products(items) && p != item.product ==>
      MergedLine(items + [item], p) == MergedLine(items, p)
    ensures item.product in Products(items + [item]) && MergedLine(items + [item], item.product) ==
      if item.product in Products(items)
      then MergedLine(items, item.product).(quantity := MergedLine(items, item.product).quantity + item.quantity)
      else item
  {
    var all := items + [item];
    assert item in all && all[..|all| - 1] == items;
    assert Products(all) == Products(items) + {item.product};
    forall p | p in Products(all) ensures FirstOf(all, p) == if p in Products(items) then FirstOf(items, p) else item {
      FirstOfSnoc(items, item, p);
    }
    if item.product !in Products(items) { QuantityOfAbsent(items, item.product); }
  }

  lemma MergedIs(items: seq<Item>, merged: map<nat, Item>, r: seq<Item>)
    requires merged.Keys == Products(items) && forall p :: p in merged ==> merged[p] == MergedLine(items, p)
    requires |r| == |Ascending(merged.Keys)|
    requires forall k :: 0 <= k < |r| ==>
      Ascending(merged.Keys)[k] in merged && r[k] == merged[Ascending(merged.Keys)[k]]
    ensures r == Merged(items)
  {
    forall k | 0 <= k < |r| ensures r[k] == Merged(items)[k] {
      assert Ascending(merged.Keys)[k] in merged;
    }
  }

  // ---------------------------------------------------------------- std::sort

  predicate RankedUp(s: seq<Item>, rank: Item -> real) {
    forall i, j :: 0 <= i < j < |s| ==> rank(s[i]) <= rank(s[j])
  }

  lemma InsertRanked(s: seq<Item>, rank: Item -> real, k: nat, x: Item)
    requires RankedUp(s, rank) && k <= |s|
    requires forall j :: k <= j < |s| ==> rank(s[j]) > rank(x)
    requires k > 0 ==> rank(s[k - 1]) <= rank(x)
    ensures RankedUp(s[..k] + [x] + s[k..], rank)
  {
    var r := s[..k] + [x] + s[k..];
    forall i, j | 0 <= i < j < |r| ensures rank(r[i]) <= rank(r[j]) {
      assert i < k ==> r[i] == s[i];
      assert j > k ==> r[j] == s[j - 1];
      if j < k { assert r[j] == s[j]; }
      else if j == k { if i < k - 1 { assert rank(s[i]) <= rank(s[k - 1]); } }
      else if i > k { assert r[i] == s[i - 1]; }
      else if i < k { assert rank(s[i]) <= rank(s[j - 1]); }
    }
  }

  function Insert(s: seq<Item>, rank: Item -> real, k: nat, x: Item): (r: seq<Item>)
    requires RankedUp(s, rank) && k <= |s|
    requires forall j :: k <= j < |s| ==> rank(s[j]) > rank(x)
    requires k > 0 ==> rank(s[k - 1]) <= rank(x)
    ensures RankedUp(r, rank) && multiset(r) == multiset(s) + multiset{x}
  {
    InsertRanked(s, rank, k, x);
    InsertMultiset(s, k, x);
    s[..k] + [x] + s[k..]
  }

  lemma InsertMultiset(s: seq<Item>, k: nat, x: Item)
    requires k <= |s|
    ensures multiset(s[..k] + [x] + s[k..]) == multiset(s) + multiset{x}
  {
    assert s == s[..k] + s[k..];
  }

  /** std::sort promises an ordered permutation and nothing about ties; insertion is one way to keep it. */
  method Sort(s: seq<Item>, rank: Item -> real) returns (r: seq<Item>)
    ensures multiset(r) == multiset(s) && RankedUp(r, rank)
  {
    r := [];
    for n := 0 to |s|
      invariant multiset(r) == multiset(s[..n]) && RankedUp(r, rank)
    {
      var k := |r|;
      while k > 0 && rank(r[k - 1]) > rank(s[n])
        invariant 0 <= k <= |r|
        invariant forall j :: k <= j < |r| ==> rank(r[j]) > rank(s[n])
      {
        k := k - 1;
      }
      r := Insert(r, rank, k, s[n]);
      assert s[..n + 1] == s[..n] + [s[n]];
    }
    assert s[..|s|] == s;
  }
}
