/** A stable sort by an integer key, and what makes it stable: it commutes with filtering. */
module StableSort {
  function Insert<T>(x: T, xs: seq<T>, key: T -> int): (r: seq<T>)
    ensures |r| == |xs| + 1
  {
    if xs == [] || key(x) <= key(xs[0]) then [x] + xs else [xs[0]] + Insert(x, xs[1..], key)
  }

  function Sort<T>(xs: seq<T>, key: T -> int): (r: seq<T>)
    ensures |r| == |xs|
  {
    if xs == [] then [] else Insert(xs[0], Sort(xs[1..], key), key)
  }

  function Filter<T>(xs: seq<T>, p: T -> bool): (r: seq<T>)
    ensures |r| <= |xs|
  {
    if xs == [] then [] else (if p(xs[0]) then [xs[0]] else []) + Filter(xs[1..], p)
  }

  ghost predicate Ordered<T>(xs: seq<T>, key: T -> int) {
    forall i, j :: 0 <= i < j < |xs| ==> key(xs[i]) <= key(xs[j])
  }

  lemma OrderedCons<T>(x: T, xs: seq<T>, key: T -> int)
    requires Ordered(xs, key) && (xs != [] ==> key(x) <= key(xs[0]))
    ensures Ordered([x] + xs, key)
  {
  }

  lemma {:induction false} InsertOrdered<T>(x: T, xs: seq<T>, key: T -> int)
    requires Ordered(xs, key)
    ensures Ordered(Insert(x, xs, key), key)
    ensures xs != [] && key(xs[0]) < key(x) ==> Insert(x, xs, key)[0] == xs[0]
    ensures xs == [] || key(x) <= key(xs[0]) ==> Insert(x, xs, key)[0] == x
  {
    if xs == [] || key(x) <= key(xs[0]) {
      OrderedCons(x, xs, key);
    } else {
      InsertOrdered(x, xs[1..], key);
      OrderedCons(xs[0], Insert(x, xs[1..], key), key);
    }
  }

  lemma {:induction false} InsertPermutes<T>(x: T, xs: seq<T>, key: T -> int)
    ensures multiset(Insert(x, xs, key)) == multiset{x} + multiset(xs)
  {
    if xs != [] && key(x) > key(xs[0]) {
      assert xs == [xs[0]] + xs[1..];
      InsertPermutes(x, xs[1..], key);
    }
  }

  /** Sorting orders the elements and keeps every one of them. */
  lemma {:induction false} SortOrders<T>(xs: seq<T>, key: T -> int)
    ensures Ordered(Sort(xs, key), key)
    ensures multiset(Sort(xs, key)) == multiset(xs)
  {
    if xs != [] {
      assert xs == [xs[0]] + xs[1..];
      SortOrders(xs[1..], key);
      InsertOrdered(xs[0], Sort(xs[1..], key), key);
      InsertPermutes(xs[0], Sort(xs[1..], key), key);
    }
  }

  lemma {:induction false} SortOfOrdered<T>(xs: seq<T>, key: T -> int)
    requires Ordered(xs, key)
    ensures Sort(xs, key) == xs
  {
    if xs != [] {
      SortOfOrdered(xs[1..], key);
    }
  }

  /** Everything a filter keeps is as large as everything it was given. */
  lemma {:induction false} FilterFirst<T>(xs: seq<T>, key: T -> int, p: T -> bool, bound: int)
    requires forall i :: 0 <= i < |xs| ==> bound <= key(xs[i])
    ensures Filter(xs, p) != [] ==> bound <= key(Filter(xs, p)[0])
  {
    if xs != [] {
      FilterFirst(xs[1..], key, p, bound);
    }
  }

  lemma FilterCons<T>(x: T, xs: seq<T>, p: T -> bool)
    ensures Filter([x] + xs, p) == if p(x) then [x] + Filter(xs, p) else Filter(xs, p)
  {
    assert ([x] + xs)[1..] == xs;
  }

  lemma InsertBefore<T>(x: T, xs: seq<T>, key: T -> int)
    requires xs != [] ==> key(x) <= key(xs[0])
    ensures Insert(x, xs, key) == [x] + xs
  {
  }

  lemma InsertAfter<T>(x: T, y: T, xs: seq<T>, key: T -> int)
    requires key(y) < key(x)
    ensures Insert(x, [y] + xs, key) == [y] + Insert(x, xs, key)
  {
    assert ([y] + xs)[1..] == xs;
  }

  lemma {:induction false} FilterInsert<T>(x: T, xs: seq<T>, key: T -> int, p: T -> bool)
    requires Ordered(xs, key)
    ensures Filter(Insert(x, xs, key), p) == if p(x) then Insert(x, Filter(xs, p), key) else Filter(xs, p)
  {
    if xs == [] || key(x) <= key(xs[0]) {
      FilterFirst(xs, key, p, key(x));
      InsertBefore(x, Filter(xs, p), key);
      FilterCons(x, xs, p);
    } else {
      var y, ys := xs[0], xs[1..];
      assert xs == [y] + ys;
      FilterInsert(x, ys, key, p);
      FilterCons(y, ys, p);
      InsertAfter(x, y, ys, key);
      InsertAfter(x, y, Filter(ys, p), key);
      FilterCons(y, Insert(x, ys, key), p);
    }
  }

  lemma SortCons<T>(x: T, xs: seq<T>, key: T -> int)
    ensures Sort([x] + xs, key) == Insert(x, Sort(xs, key), key)
  {
    assert ([x] + xs)[1..] == xs;
  }

  /** Stability: choosing elements before the sort or after it is the same. */
  lemma {:induction false} SortCommutesWithFilter<T>(xs: seq<T>, key: T -> int, p: T -> bool)
    ensures Filter(Sort(xs, key), p) == Sort(Filter(xs, p), key)
  {
    if xs != [] {
      var x, rest := xs[0], xs[1..];
      assert xs == [x] + rest;
      SortOrders(rest, key);
      SortCommutesWithFilter(rest, key, p);
      SortCons(x, rest, key);
      FilterCons(x, rest, p);
      SortCons(x, Filter(rest, p), key);
      FilterInsert(x, Sort(rest, key), key, p);
    }
  }

  lemma {:induction false} SortAbsorbsSort<T>(a: seq<T>, b: seq<T>, key: T -> int)
    ensures Sort(a + Sort(b, key), key) == Sort(a + b, key)
  {
    hide *;
    if a == [] {
      SortOrders(b, key);
      SortOfOrdered(Sort(b, key), key);
      assert a + b == b && a + Sort(b, key) == Sort(b, key);
    } else {
      var x, rest := a[0], a[1..];
      SortAbsorbsSort(rest, b, key);
      assert a + b == [x] + (rest + b) && a + Sort(b, key) == [x] + (rest + Sort(b, key));
      SortCons(x, rest + b, key);
      SortCons(x, rest + Sort(b, key), key);
    }
  }
}
