/** What a list of order lines means: positions, quantities per product, and the merged list. */
module OrderLines {
  import opened Sequences
  import opened Ordered
  import opened Sums

  datatype Item = Item(id: nat, product: nat, quantity: int, unitPrice: real)

  function Products(items: seq<Item>): set<nat> {
    set i | i in items :: i.product
  }

  function Ids(items: seq<Item>): set<nat> {
    set i | i in items :: i.id
  }

  /** Total quantity over all lines of one product. */
  function QuantityOf(items: seq<Item>, p: nat): int {
    if items == [] then 0
    else QuantityOf(items[..|items| - 1], p)
         + (if items[|items| - 1].product == p then items[|items| - 1].quantity else 0)
  }

  function TotalQuantity(items: seq<Item>): int {
    if items == [] then 0 else TotalQuantity(items[..|items| - 1]) + items[|items| - 1].quantity
  }

  function QuantityMap(items: seq<Item>): map<nat, int> {
    map p | p in Products(items) :: QuantityOf(items, p)
  }

  /** The lines of other products, in their order. */
  function WithoutProduct(items: seq<Item>, p: nat): (r: seq<Item>)
    ensures forall i :: i in r <==> i in items && i.product != p
  {
    if items == [] then []
    else if items[0].product == p then WithoutProduct(items[1..], p)
    else [items[0]] + WithoutProduct(items[1..], p)
  }

  // ---------------------------------------------------------------- the two indexes

  /** positions lists, ascending, exactly the places of product p. */
  predicate ExactPositions(items: seq<Item>, p: nat, positions: seq<nat>) {
    && Increasing(positions)
    && (forall i :: i in positions ==> i < |items| && items[i].product == p)
    && (forall i :: 0 <= i < |items| && items[i].product == p ==> i in positions)
  }

  predicate LastPosition(items: seq<Item>, id: nat, k: nat) {
    k < |items| && items[k].id == id && forall i :: k < i < |items| ==> items[i].id != id
  }

  /** The id index names the last line of each id, the product index all lines of each product. */
  predicate Indexed(items: seq<Item>, idIndex: map<nat, nat>, productIndex: map<nat, seq<nat>>) {
    && (forall i :: 0 <= i < |items| ==> items[i].id in idIndex && items[i].product in productIndex)
    && (forall id :: id in idIndex ==> LastPosition(items, id, idIndex[id]))
    && (forall p :: p in productIndex ==> productIndex[p] != [] && ExactPositions(items, p, productIndex[p]))
  }

  // ---------------------------------------------------------------- filtering

  lemma {:induction false} WithoutProductConcat(a: seq<Item>, b: seq<Item>, p: nat)
    ensures WithoutProduct(a + b, p) == WithoutProduct(a, p) + WithoutProduct(b, p)
  {
    if a == [] {
      assert a + b == b;
    } else {
      assert (a + b)[1..] == a[1..] + b;
      WithoutProductConcat(a[1..], b, p);
    }
  }

  lemma {:induction false} WithoutProductSame(a: seq<Item>, p: nat)
    requires forall i :: 0 <= i < |a| ==> a[i].product != p
    ensures WithoutProduct(a, p) == a
  {
    if a != [] { WithoutProductSame(a[1..], p); }
  }

  // ---------------------------------------------------------------- double counting

  lemma QuantityMapSnoc(items: seq<Item>, last: Item)
    ensures Sum(QuantityMap(items + [last])) == Sum(QuantityMap(items)) + last.quantity
  {
    var all := items + [last];
    assert all[..|all| - 1] == items;
    var p := last.product;
    if p !in Products(items) { QuantityOfAbsent(items, p); }
    SumUpdate(QuantityMap(items), p, QuantityOf(all, p));
    assert Products(all) == Products(items) + {p};
    assert QuantityMap(all) == QuantityMap(items)[p := QuantityOf(all, p)];
  }

  lemma {:induction false} QuantityOfAbsent(items: seq<Item>, p: nat)
    requires p !in Products(items)
    ensures QuantityOf(items, p) == 0
  {
    if items != [] {
      assert items[|items| - 1] in items;
      assert Products(items[..|items| - 1]) <= Products(items);
      QuantityOfAbsent(items[..|items| - 1], p);
    }
  }

  /** Summing per product and summing per line give the same total. */
  lemma {:induction false} DoubleCounting(items: seq<Item>)
    ensures Sum(QuantityMap(items)) == TotalQuantity(items)
  {
    if items == [] {
      assert QuantityMap(items) == map[];
    } else {
      var n := |items| - 1;
      DoubleCounting(items[..n]);
      QuantityMapSnoc(items[..n], items[n]);
      assert items[..n] + [items[n]] == items;
    }
  }

  // ---------------------------------------------------------------- permutations

  lemma {:induction false} QuantityOfConcat(a: seq<Item>, b: seq<Item>, p: nat)
    ensures QuantityOf(a + b, p) == QuantityOf(a, p) + QuantityOf(b, p)
  {
    if b == [] {
      assert a + b == a;
    } else {
      var n := |b| - 1;
      assert (a + b)[..|a + b| - 1] == a + b[..n];
      QuantityOfConcat(a, b[..n], p);
    }
  }

  lemma QuantityOfSplit(items: seq<Item>, k: nat, p: nat)
    requires k < |items|
    ensures QuantityOf(items, p)
         == QuantityOf(items[..k] + items[k + 1..], p) + (if items[k].product == p then items[k].quantity else 0)
  {
    var x := [items[k]];
    assert items == items[..k] + x + items[k + 1..];
    QuantityOfConcat(items[..k] + x, items[k + 1..], p);
    QuantityOfConcat(items[..k], x, p);
    QuantityOfConcat(items[..k], items[k + 1..], p);
    assert x[..0] == [];
  }

  lemma RemoveSameElement(a: seq<Item>, b: seq<Item>) returns (k: nat)
    requires multiset(a) == multiset(b) && a != []
    ensures k < |b| && b[k] == a[|a| - 1]
    ensures multiset(a[..|a| - 1]) == multiset(b[..k] + b[k + 1..])
  {
    var x := a[|a| - 1];
    assert x in multiset(a);
    k :| 0 <= k < |b| && b[k] == x;
    assert a == a[..|a| - 1] + [x];
    assert b == b[..k] + ([x] + b[k + 1..]);
    assert multiset(a[..|a| - 1]) == multiset(a) - multiset{x};
    assert multiset(b[..k] + b[k + 1..]) == multiset(b) - multiset{x};
  }

  /** Reordering the lines changes no quantity. */
  lemma {:induction false} PermutationKeepsQuantities(a: seq<Item>, b: seq<Item>, p: nat)
    requires multiset(a) == multiset(b)
    ensures QuantityOf(a, p) == QuantityOf(b, p)
    decreases |a|
  {
    if a == [] {
      assert |multiset(b)| == 0;
    } else {
      var k := RemoveSameElement(a, b);
      PermutationKeepsQuantities(a[..|a| - 1], b[..k] + b[k + 1..], p);
      QuantityOfSplit(b, k, p);
    }
  }

  lemma PermutationKeepsMap(a: seq<Item>, b: seq<Item>)
    requires multiset(a) == multiset(b)
    ensures QuantityMap(a) == QuantityMap(b)
  {
    forall i ensures i in a <==> i in b { assert i in multiset(a) <==> i in multiset(b); }
    assert Products(a) == Products(b);
    forall p | p in Products(a) ensures QuantityOf(a, p) == QuantityOf(b, p) { PermutationKeepsQuantities(a, b, p); }
  }

  // ---------------------------------------------------------------- merging

  /** The first line of p, carrying the quantity of all its lines. */
  function MergedLine(items: seq<Item>, p: nat): (r: Item)
    requires p in Products(items)
    ensures r.product == p && r.quantity == QuantityOf(items, p)
  {
    FirstOf(items, p).(quantity := QuantityOf(items, p))
  }

  function FirstOf(items: seq<Item>, p: nat): (r: Item)
    requires p in Products(items)
    ensures r in items && r.product == p
  {
    if items[0].product == p then items[0]
    else
      assert p in Products(items[1..]) by { var i :| i in items && i.product == p; assert i in items[1..]; }
      FirstOf(items[1..], p)
  }

  /** One line per product, by ascending product id. */
  function Merged(items: seq<Item>): seq<Item> {
    var ids := Ascending(Products(items));
    seq(|ids|, i requires 0 <= i < |ids| => assert ids[i] in ids; MergedLine(items, ids[i]))
  }

  /** Every merged line is the first line of its product, with id and price, and the quantity of all of them. */
  lemma MergedLinesAreFirst(items: seq<Item>, j: nat)
    requires j < |Merged(items)|
    ensures exists k ::
      && 0 <= k < |items| && (forall i :: 0 <= i < k ==> items[i].product != items[k].product)
      && Merged(items)[j] == Item(items[k].id, items[k].product, QuantityOf(items, items[k].product),
        items[k].unitPrice)
  {
    var ids := Ascending(Products(items));
    assert ids[j] in ids;
    var k := FirstAt(items, ids[j]);
  }

  lemma {:induction false} FirstAt(items: seq<Item>, p: nat) returns (k: nat)
    requires p in Products(items)
    ensures k < |items| && items[k].product == p && FirstOf(items, p) == items[k]
    ensures forall i :: 0 <= i < k ==> items[i].product != p
  {
    if items[0].product == p {
      k := 0;
    } else {
      var x :| x in items && x.product == p;
      assert x in items[1..];
      var rest := FirstAt(items[1..], p);
      k := rest + 1;
      forall i | 0 <= i < k ensures items[i].product != p { if i > 0 { assert items[i] == items[1..][i - 1]; } }
    }
  }

  lemma MergedProducts(items: seq<Item>)
    ensures Products(Merged(items)) == Products(items)
    ensures ProductsIncrease(Merged(items))
  {
    var ids := Ascending(Products(items));
    var m := Merged(items);
    forall i | 0 <= i < |ids| ensures m[i].product == ids[i] { assert ids[i] in ids; }
    forall p | p in Products(items) ensures p in Products(m) {
      assert p in ids;
      var i :| 0 <= i < |ids| && ids[i] == p;
      assert m[i] in m;
    }
  }

  /** A list with distinct products has one line per product. */
  lemma {:induction false} QuantityOfDistinct(items: seq<Item>, k: nat)
    requires ProductsIncrease(items) && k < |items|
    ensures QuantityOf(items, items[k].product) == items[k].quantity
    ensures items[k].product in Products(items) && FirstOf(items, items[k].product) == items[k]
  {
    assert items[k] in items;
    var p := items[k].product;
    var left, right := items[..k], items[k + 1..];
    assert items == left + [items[k]] + right;
    QuantityOfConcat(left + [items[k]], right, p);
    QuantityOfConcat(left, [items[k]], p);
    QuantityOfAbsent(left, p);
    QuantityOfAbsent(right, p);
    assert QuantityOf([items[k]], p) == items[k].quantity by { assert [items[k]][..0] == []; }
    var f := FirstOf(items, p);
    var j :| 0 <= j < |items| && items[j] == f;
    assert j == k;
  }

  /** Merging keeps what was ordered of every product, and the total. */
  lemma MergeKeepsQuantities(items: seq<Item>)
    ensures QuantityMap(Merged(items)) == QuantityMap(items)
    ensures TotalQuantity(Merged(items)) == TotalQuantity(items)
  {
    var m := Merged(items);
    var ids := Ascending(Products(items));
    MergedProducts(items);
    forall p | p in Products(items) ensures QuantityOf(m, p) == QuantityOf(items, p) {
      assert p in ids;
      var i :| 0 <= i < |ids| && ids[i] == p;
      QuantityOfDistinct(m, i);
    }
    DoubleCounting(m);
    DoubleCounting(items);
  }

  /** Merging a merged list changes nothing. */
  lemma MergeIdempotent(items: seq<Item>)
    ensures Merged(Merged(items)) == Merged(items)
  {
    MergedProducts(items);
    MergeFixed(Merged(items));
  }

  predicate ProductsIncrease(items: seq<Item>) {
    forall i, j :: 0 <= i < j < |items| ==> items[i].product < items[j].product
  }

  lemma ProductIds(items: seq<Item>)
    requires ProductsIncrease(items)
    ensures |Ascending(Products(items))| == |items|
    ensures forall i :: 0 <= i < |items| ==> Ascending(Products(items))[i] == items[i].product
  {
    var ids: seq<nat> := seq(|items|, i requires 0 <= i < |items| => items[i].product);
    forall i | 0 <= i < |ids| ensures ids[i] in Products(items) { assert items[i] in items; }
    forall p | p in Products(items) ensures p in ids {
      var i :| 0 <= i < |items| && items[i].product == p;
      assert ids[i] == p;
    }
    IncreasingUnique(ids, Ascending(Products(items)));
  }

  /** The lists that merging leaves alone are those with strictly increasing product ids. */
  lemma MergeFixed(items: seq<Item>)
    ensures Merged(items) == items <==> ProductsIncrease(items)
  {
    MergedProducts(items);
    if ProductsIncrease(items) {
      ProductIds(items);
      forall k | 0 <= k < |items| ensures Merged(items)[k] == items[k] { QuantityOfDistinct(items, k); }
    }
  }
}
