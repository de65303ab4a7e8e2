/** Result values shared by every module: the outcome of an operation is a value or an error code. */
module Results {
  datatype ErrorCode =
    | InvalidParameter
    | AuthRequired
    | OrderNotFound
    | ProductOutOfStock
    | WarehouseNotFound
    | PaymentInvalidStatus
    | PaymentRefundExceedsAmount
    | PaymentInvalidAmount
    | PaymentMethodNotSupported
    | PaymentGatewayError
    | PaymentGatewayNotFound
    | PaymentNotFound
    | PaymentRefundNotFound
    | DbConnectionFailed
    | DbTransactionError
    | CacheError

  datatype Option<+T> = None | Some(value: T)

  datatype Result<+T> = Ok(value: T) | Error(code: ErrorCode)

  type Outcome = Result<()>
}

/** Facts about sequences that several managers rely on. */
module Sequences {

  /** The erase-remove idiom: every occurrence of x goes, the order of the rest stays. */
  function Without<T(==, !new)>(s: seq<T>, x: T): (r: seq<T>)
    ensures x !in r
    ensures forall y :: y in r <==> y in s && y != x
    ensures forall y :: y != x ==> multiset(r)[y] == multiset(s)[y]
  {
    if s == [] then []
    else
      assert s == [s[0]] + s[1..];
      if s[0] == x then Without(s[1..], x) else [s[0]] + Without(s[1..], x)
  }

  /** operator[] of a map of lists: a missing list is an empty one. */
  function ListOf<K, T>(index: map<K, seq<T>>, k: K): seq<T> {
    if k in index then index[k] else []
  }

  predicate Increasing(s: seq<int>) {
    forall i, j :: 0 <= i < j < |s| ==> s[i] < s[j]
  }

  lemma {:induction false} WithoutKeepsIncreasing(s: seq<nat>, x: nat)
    requires Increasing(s)
    ensures Increasing(Without(s, x))
  {
    if s != [] {
      WithoutKeepsIncreasing(s[1..], x);
      var rest := Without(s[1..], x);
      forall j | 0 <= j < |rest| ensures s[0] < rest[j] {
        assert rest[j] in s[1..];
      }
    }
  }

  predicate NoDuplicates<T(==)>(s: seq<T>) {
    forall i, j :: 0 <= i < j < |s| ==> s[i] != s[j]
  }

  /** Duplicate-free sequences list every one of their elements exactly once. */
  lemma {:induction false} NoDuplicatesMultiset<T(!new)>(s: seq<T>)
    ensures NoDuplicates(s) <==> forall x :: x in s ==> multiset(s)[x] == 1
  {
    if s != [] {
      var t := s[1..];
      assert s == [s[0]] + t;
      NoDuplicatesMultiset(t);
      if NoDuplicates(s) {
        assert NoDuplicates(t) by {
          forall i, j | 0 <= i < j < |t| ensures t[i] != t[j] { assert s[i + 1] != s[j + 1]; }
        }
        assert s[0] !in t;
      } else if forall x :: x in s ==> multiset(s)[x] == 1 {
        assert multiset(s)[s[0]] == 1 + multiset(t)[s[0]];
        forall x | x in t ensures multiset(t)[x] == 1 { assert x in s; }
        forall i, j | 0 <= i < j < |s| ensures s[i] != s[j] {
          if i == 0 { assert s[j] == t[j - 1]; } else { assert t[i - 1] != t[j - 1]; }
        }
        assert false;
      }
    }
  }

  lemma WithoutKeepsNoDuplicates<T(!new)>(s: seq<T>, x: T)
    requires NoDuplicates(s)
    ensures NoDuplicates(Without(s, x))
  {
    NoDuplicatesMultiset(s);
    NoDuplicatesMultiset(Without(s, x));
  }

  /** std::find and erase: the first occurrence goes. */
  function EraseFirst<T(==)>(list: seq<T>, x: T): seq<T> {
    if list == [] then [] else if list[0] == x then list[1..] else [list[0]] + EraseFirst(list[1..], x)
  }

  lemma {:induction false} EraseFirstDistinct<T>(list: seq<T>, x: T)
    requires NoDuplicates(list)
    ensures NoDuplicates(EraseFirst(list, x))
    ensures forall y :: y in EraseFirst(list, x) <==> y in list && y != x
  {
    if list != [] {
      assert list[0] !in list[1..];
      if list[0] != x { EraseFirstDistinct(list[1..], x); }
    }
  }

  lemma {:induction false} EraseLast<T>(list: seq<T>, x: T)
    requires x !in list
    ensures EraseFirst(list + [x], x) == list
  {
    if list != [] {
      assert (list + [x])[1..] == list[1..] + [x];
      EraseLast(list[1..], x);
    }
  }

  lemma AppendDistinct<T>(list: seq<T>, x: T)
    requires NoDuplicates(list) && x !in list
    ensures NoDuplicates(list + [x])
  {
  }

  function Reversed<T>(s: seq<T>): (r: seq<T>)
    ensures |r| == |s|
    ensures forall i :: 0 <= i < |s| ==> r[i] == s[|s| - 1 - i]
  {
    if s == [] then [] else Reversed(s[1..]) + [s[0]]
  }
}

/** Ascending iteration over the keys of std::set and std::map. */
module Ordered {
  import opened Sequences

  lemma {:induction false} LeastElement(s: set<nat>) returns (x: nat)
    requires s != {}
    ensures x in s && forall y :: y in s ==> x <= y
  {
    var first :| first in s;
    assert forall y :: y in s ==> y == first || y in s - {first};
    if s == {first} {
      x := first;
    } else {
      var z := LeastElement(s - {first});
      x := if z < first then z else first;
    }
  }

  function Least(s: set<nat>): (x: nat)
    requires s != {}
    ensures x in s && forall y :: y in s ==> x <= y
  {
    assert exists x :: x in s && forall y :: y in s ==> x <= y by { var z := LeastElement(s); }
    var x :| x in s && forall y :: y in s ==> x <= y;
    x
  }

  /** The elements of s in ascending order. */
  function Ascending(s: set<nat>): (r: seq<nat>)
    ensures Increasing(r)
    ensures forall x :: x in r <==> x in s
    ensures |r| == |s|
  {
    if s == {} then []
    else
      var x := Least(s);
      assert s == {x} + (s - {x});
      [x] + Ascending(s - {x})
  }

  /** A strictly increasing list is determined by its elements. */
  lemma {:induction false} IncreasingUnique(a: seq<int>, b: seq<int>)
    requires Increasing(a) && Increasing(b)
    requires forall x :: x in a <==> x in b
    ensures a == b
  {
    assert (a != [] ==> a[0] in a) && (b != [] ==> b[0] in b);
    if a != [] && b != [] {
      assert a[0] == b[0];
      forall x ensures x in a[1..] <==> x in b[1..] {
        if x in a[1..] { assert x in b && x != a[0]; }
        if x in b[1..] { assert x in a && x != b[0]; }
      }
      IncreasingUnique(a[1..], b[1..]);
    }
  }
}

/** Sums over the values of a finite map. */
module Sums {

  ghost function Sum<K>(m: map<K, int>): int {
    if m == map[] then 0 else var k :| k in m; m[k] + Sum(m - {k})
  }

  /** The order in which the keys are taken does not matter. */
  lemma {:induction false} SumRemove<K>(m: map<K, int>, k: K)
    requires k in m
    ensures Sum(m) == m[k] + Sum(m - {k})
    decreases |m|
  {
    var j :| j in m && Sum(m) == m[j] + Sum(m - {j});
    if j != k {
      SumRemove(m - {j}, k);
      SumRemove(m - {k}, j);
      assert m - {j} - {k} == m - {k} - {j};
    }
  }

  lemma SumUpdate<K>(m: map<K, int>, k: K, v: int)
    ensures Sum(m[k := v]) == Sum(m) - (if k in m then m[k] else 0) + v
  {
    SumRemove(m[k := v], k);
    if k in m {
      SumRemove(m, k);
      assert m[k := v] - {k} == m - {k};
    } else {
      assert m[k := v] - {k} == m;
    }
  }

  lemma {:induction false} SumNonNegative<K>(m: map<K, int>)
    requires forall k :: k in m ==> m[k] >= 0
    ensures Sum(m) >= 0
    ensures forall k :: k in m ==> m[k] <= Sum(m)
    decreases |m|
  {
    if m != map[] {
      var j :| j in m;
      SumRemove(m, j);
      SumNonNegative(m - {j});
      forall k | k in m ensures m[k] <= Sum(m) {
        SumRemove(m, k);
        SumNonNegative(m - {k});
      }
    }
  }
}
