/** sort.Slice as a function: the same elements, in ascending order of a comparison or of an integer key. */
module Sorting {

  ghost predicate TotalOrder<T(!new)>(before: (T, T) -> bool) {
    && (forall a, b :: before(a, b) || before(b, a))
    && (forall a, b, c :: before(a, b) && before(b, c) ==> before(a, c))
  }

  ghost predicate Sorted<T>(xs: seq<T>, before: (T, T) -> bool) {
    forall i, j | 0 <= i < j < |xs| :: before(xs[i], xs[j])
  }

  ghost predicate Ascending<T>(xs: seq<T>, key: T -> int) {
    forall i, j | 0 <= i < j < |xs| :: key(xs[i]) <= key(xs[j])
  }

  function Insert<T>(x: T, xs: seq<T>, before: (T, T) -> bool): (r: seq<T>)
    ensures multiset(r) == multiset(xs) + multiset{x}
    ensures |r| == |xs| + 1
  {
    if xs == [] || before(x, xs[0]) then [x] + xs
    else
      assert xs == [xs[0]] + xs[1..];
      [xs[0]] + Insert(x, xs[1..], before)
  }

  lemma {:induction false} InsertKeepsOrder<T(!new)>(x: T, xs: seq<T>, before: (T, T) -> bool)
    requires TotalOrder(before) && Sorted(xs, before)
    ensures Sorted(Insert(x, xs, before), before)
  {
    if xs != [] {
      if !before(x, xs[0]) {
        var rest := Insert(x, xs[1..], before);
        InsertKeepsOrder(x, xs[1..], before);
        forall i | 0 <= i < |rest| ensures before(xs[0], rest[i]) {
          assert rest[i] in multiset(rest);
          assert rest[i] == x || rest[i] in xs[1..];
        }
      } else {
        forall i | 0 <= i < |xs| ensures before(x, xs[i]) {
          if i > 0 { assert before(xs[0], xs[i]); }
        }
      }
    }
  }

  function SortWith<T(!new)>(xs: seq<T>, before: (T, T) -> bool): (r: seq<T>)
    ensures TotalOrder(before) ==> Sorted(r, before)
    ensures multiset(r) == multiset(xs)
    ensures |r| == |xs|
  {
    if xs == [] then []
    else
      assert xs == [xs[0]] + xs[1..];
      var rest := SortWith(xs[1..], before);
      assert TotalOrder(before) ==> Sorted(Insert(xs[0], rest, before), before) by {
        if TotalOrder(before) { InsertKeepsOrder(xs[0], rest, before); }
      }
      Insert(xs[0], rest, before)
  }

  function SortBy<T(!new)>(xs: seq<T>, key: T -> int): (r: seq<T>)
    ensures Ascending(r, key)
    ensures multiset(r) == multiset(xs)
    ensures |r| == |xs|
  {
    var before := (a: T, b: T) => key(a) <= key(b);
    assert TotalOrder(before);
    var r := SortWith(xs, before);
    assert Ascending(r, key) by {
      forall i, j | 0 <= i < j < |r| ensures key(r[i]) <= key(r[j]) { assert before(r[i], r[j]); }
    }
    r
  }

  lemma SameElements<T>(xs: seq<T>, ys: seq<T>)
    requires multiset(xs) == multiset(ys)
    ensures forall x :: x in xs <==> x in ys
  {
    forall x ensures x in xs <==> x in ys {
      assert x in multiset(xs) <==> x in multiset(ys);
    }
  }
}
