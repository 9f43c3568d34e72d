// Sorting by a string key, the way strings.Compare orders strings.

module Ordering {

  // strings.Compare(a, b) < 0
  predicate Before(a: string, b: string) {
    if b == [] then false
    else if a == [] then true
    else a[0] < b[0] || (a[0] == b[0] && Before(a[1..], b[1..]))
  }

  predicate Sorted<T>(xs: seq<T>, key: T -> string) {
    forall i, j :: 0 <= i < j < |xs| ==> Before(key(xs[i]), key(xs[j]))
  }

  predicate UniqueKeys<T>(xs: seq<T>, key: T -> string) {
    forall i, j :: 0 <= i < j < |xs| ==> key(xs[i]) != key(xs[j])
  }

  function Insert<T(!new)>(x: T, xs: seq<T>, key: T -> string): (r: seq<T>)
    ensures |r| == |xs| + 1
    ensures forall y :: y in r <==> y == x || y in xs
  {
    if xs == [] then [x]
    else if Before(key(xs[0]), key(x)) then [xs[0]] + Insert(x, xs[1..], key)
    else [x] + xs
  }

  function Sort<T(!new)>(xs: seq<T>, key: T -> string): (r: seq<T>)
    ensures |r| == |xs|
    ensures forall y :: y in r <==> y in xs
  {
    if xs == [] then [] else Insert(xs[0], Sort(xs[1..], key), key)
  }

  lemma {:induction false} OrderIsTotal(a: string, b: string)
    ensures Before(a, b) || a == b || Before(b, a)
    ensures !(Before(a, b) && Before(b, a)) && !Before(a, a)
  {
    if a != [] && b != [] && a[0] == b[0] {
      OrderIsTotal(a[1..], b[1..]);
      assert a == [a[0]] + a[1..] && b == [b[0]] + b[1..];
    }
    if a != [] { OrderIsTotal(a[1..], a[1..]); }
  }

  lemma {:induction false} OrderIsTransitive(a: string, b: string, c: string)
    requires Before(a, b) && Before(b, c)
    ensures Before(a, c)
  {
    if a != [] && a[0] == b[0] && b[0] == c[0] { OrderIsTransitive(a[1..], b[1..], c[1..]); }
  }

  lemma {:induction false} InsertKeepsOrder<T(!new)>(x: T, xs: seq<T>, key: T -> string)
    requires Sorted(xs, key) && forall y <- xs :: key(y) != key(x)
    ensures Sorted(Insert(x, xs, key), key)
  {
    if xs != [] {
      OrderIsTotal(key(xs[0]), key(x));
      var r := Insert(x, xs, key);
      if Before(key(xs[0]), key(x)) {
        InsertKeepsOrder(x, xs[1..], key);
        forall j | 1 <= j < |r|
          ensures Before(key(r[0]), key(r[j]))
        {
          assert r[j] in Insert(x, xs[1..], key);
        }
      } else {
        forall j | 1 <= j < |r|
          ensures Before(key(x), key(r[j]))
        {
          if j > 1 { OrderIsTransitive(key(x), key(xs[0]), key(xs[j - 1])); }
        }
      }
    }
  }

  lemma {:induction false} SortingSorts<T(!new)>(xs: seq<T>, key: T -> string)
    requires UniqueKeys(xs, key)
    ensures Sorted(Sort(xs, key), key)
  {
    if xs != [] {
      SortingSorts(xs[1..], key);
      InsertKeepsOrder(xs[0], Sort(xs[1..], key), key);
    }
  }

  lemma SortedKeysAreUnique<T>(xs: seq<T>, key: T -> string)
    requires Sorted(xs, key)
    ensures UniqueKeys(xs, key)
  {
    forall i, j | 0 <= i < j < |xs|
      ensures key(xs[i]) != key(xs[j])
    {
      OrderIsTotal(key(xs[i]), key(xs[j]));
    }
  }

  lemma {:induction false} InsertedKeysWereUnique<T(!new)>(x: T, xs: seq<T>, key: T -> string)
    requires UniqueKeys(Insert(x, xs, key), key)
    ensures UniqueKeys(xs, key) && forall y <- xs :: key(y) != key(x)
  {
    if xs != [] {
      var r := Insert(x, xs, key);
      if Before(key(xs[0]), key(x)) {
        assert r[1..] == Insert(x, xs[1..], key);
        InsertedKeysWereUnique(x, xs[1..], key);
        forall j | 1 <= j < |xs|
          ensures key(xs[j]) != key(xs[0])
        {
          assert xs[j] in xs[1..];
          var k :| 0 <= k < |r[1..]| && r[1..][k] == xs[j];
          assert r[k + 1] == xs[j] && r[0] == xs[0];
        }
        OrderIsTotal(key(xs[0]), key(xs[0]));
      } else {
        assert r[1..] == xs;
        forall k | 0 <= k < |xs|
          ensures key(xs[k]) != key(x)
        {
          assert r[k + 1] == xs[k] && r[0] == x;
        }
      }
    }
  }

  lemma {:induction false} SortedFromUnique<T(!new)>(xs: seq<T>, key: T -> string)
    requires UniqueKeys(Sort(xs, key), key)
    ensures UniqueKeys(xs, key)
  {
    if xs != [] {
      InsertedKeysWereUnique(xs[0], Sort(xs[1..], key), key);
      SortedFromUnique(xs[1..], key);
      forall j | 1 <= j < |xs|
        ensures key(xs[0]) != key(xs[j])
      {
        assert xs[j] in xs[1..];
      }
    }
  }

  /** Two sorted lists of the same elements are the same list. */
  lemma {:induction false} SortedListsAreEqual<T(!new)>(xs: seq<T>, ys: seq<T>, key: T -> string)
    requires Sorted(xs, key) && Sorted(ys, key) && forall y :: y in xs <==> y in ys
    ensures xs == ys
  {
    if |ys| > 0 { assert ys[0] in ys && ys[0] in xs; }
    if |xs| > 0 {
      assert xs[0] in xs && xs[0] in ys;
      var i :| 0 <= i < |ys| && ys[i] == xs[0];
      var j :| 0 <= j < |xs| && xs[j] == ys[0];
      OrderIsTotal(key(xs[0]), key(ys[0]));
      assert i == 0 && j == 0;
      SortedKeysAreUnique(xs, key);
      SortedKeysAreUnique(ys, key);
      forall y
        ensures y in xs[1..] <==> y in ys[1..]
      {
        if y in xs[1..] {
          assert y in ys && key(y) != key(xs[0]);
          var k :| 0 <= k < |ys| && ys[k] == y;
          assert ys[1..][k - 1] == y;
        }
        if y in ys[1..] {
          assert y in xs && key(y) != key(ys[0]);
          var k :| 0 <= k < |xs| && xs[k] == y;
          assert xs[1..][k - 1] == y;
        }
      }
      SortedListsAreEqual(xs[1..], ys[1..], key);
      assert xs == [xs[0]] + xs[1..] && ys == [ys[0]] + ys[1..];
    }
  }
}
