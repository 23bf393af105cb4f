/** `std::sort` by an integer key: some sorted permutation. */
module Sorting {

  predicate SortedBy<T>(xs: seq<T>, key: T -> int) {
    forall i, j :: 0 <= i < j < |xs| ==> key(xs[i]) <= key(xs[j])
  }

  function Insert<T>(xs: seq<T>, x: T, key: T -> int): seq<T> {
    if xs == [] || key(x) <= key(xs[0]) then [x] + xs else [xs[0]] + Insert(xs[1..], x, key)
  }

  function Sort<T>(xs: seq<T>, key: T -> int): seq<T> {
    if xs == [] then [] else Insert(Sort(xs[1..], key), xs[0], key)
  }

  lemma {:induction false} InsertPermutes<T>(xs: seq<T>, x: T, key: T -> int)
    ensures multiset(Insert(xs, x, key)) == multiset(xs) + multiset{x}
  {
    if xs == [] || key(x) <= key(xs[0]) {
    } else {
      InsertPermutes(xs[1..], x, key);
      assert xs == [xs[0]] + xs[1..];
    }
  }

  lemma {:induction false} InsertBound<T>(xs: seq<T>, x: T, key: T -> int, low: int)
    requires low <= key(x) && forall i :: 0 <= i < |xs| ==> low <= key(xs[i])
    ensures forall i :: 0 <= i < |Insert(xs, x, key)| ==> low <= key(Insert(xs, x, key)[i])
  {
    if xs == [] || key(x) <= key(xs[0]) {
    } else {
      assert forall i :: 0 <= i < |xs[1..]| ==> xs[1..][i] == xs[i + 1];
      InsertBound(xs[1..], x, key, low);
    }
  }

  lemma {:induction false} InsertSorts<T>(xs: seq<T>, x: T, key: T -> int)
    requires SortedBy(xs, key)
    ensures SortedBy(Insert(xs, x, key), key)
  {
    if xs == [] || key(x) <= key(xs[0]) {
    } else {
      assert forall i :: 0 <= i < |xs[1..]| ==> xs[1..][i] == xs[i + 1];
      InsertSorts(xs[1..], x, key);
      InsertBound(xs[1..], x, key, key(xs[0]));
    }
  }

  lemma {:induction false} SortSorts<T>(xs: seq<T>, key: T -> int)
    ensures SortedBy(Sort(xs, key), key) && multiset(Sort(xs, key)) == multiset(xs)
  {
    if xs != [] {
      SortSorts(xs[1..], key);
      InsertSorts(Sort(xs[1..], key), xs[0], key);
      InsertPermutes(Sort(xs[1..], key), xs[0], key);
      assert xs == [xs[0]] + xs[1..];
    }
  }

  predicate NoRepeats<T(==)>(xs: seq<T>) {
    forall i, j :: 0 <= i < j < |xs| ==> xs[i] != xs[j]
  }

  predicate CountedOnce<T(==)>(xs: seq<T>) {
    forall x | x in xs :: multiset(xs)[x] == 1
  }

  lemma NoRepeatsStep<T>(first: T, rest: seq<T>)
    ensures NoRepeats([first] + rest) <==> first !in rest && NoRepeats(rest)
  {
    var xs := [first] + rest;
    if NoRepeats(xs) {
      forall i, j | 0 <= i < j < |rest| ensures rest[i] != rest[j] {
        assert xs[i + 1] != xs[j + 1];
      }
      forall i | 0 <= i < |rest| ensures rest[i] != first {
        assert xs[0] != xs[i + 1];
      }
    }
  }

  lemma CountedOnceStep<T>(first: T, rest: seq<T>)
    ensures CountedOnce([first] + rest) <==> first !in rest && CountedOnce(rest)
  {
    var xs := [first] + rest;
    assert multiset(xs) == multiset{first} + multiset(rest);
    if CountedOnce(xs) {
      assert first in xs;
      forall x | x in rest ensures multiset(rest)[x] == 1 {
        assert x in xs;
      }
    }
  }

  lemma {:induction false} NoRepeatsCount<T>(xs: seq<T>)
    ensures NoRepeats(xs) <==> CountedOnce(xs)
  {
    if xs != [] {
      assert xs == [xs[0]] + xs[1..];
      NoRepeatsCount(xs[1..]);
      NoRepeatsStep(xs[0], xs[1..]);
      CountedOnceStep(xs[0], xs[1..]);
    }
  }

  lemma PermutationNoRepeats<T>(xs: seq<T>, ys: seq<T>)
    requires multiset(xs) == multiset(ys) && NoRepeats(xs)
    ensures NoRepeats(ys) && |xs| == |ys| && forall x :: x in xs <==> x in ys
  {
    NoRepeatsCount(xs);
    NoRepeatsCount(ys);
    assert |multiset(xs)| == |multiset(ys)|;
    forall x ensures x in xs <==> x in ys {
      assert x in xs <==> x in multiset(xs);
      assert x in ys <==> x in multiset(ys);
    }
  }
}
