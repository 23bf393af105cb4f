/** ORDER BY ... LIMIT: the first rows of a set by an integer key, ties in any order. */
module Cuts {

  lemma {:induction false} SubsetSize<T>(a: set<T>, b: set<T>)
    requires a <= b
    ensures |a| <= |b|
  {
    if a != {} {
      var x :| x in a;
      SubsetSize(a - {x}, b - {x});
    }
  }

  predicate NoTwice<T(==)>(xs: seq<T>) {
    forall i, j :: 0 <= i < j < |xs| ==> xs[i] != xs[j]
  }

  function Elements<T(==)>(xs: seq<T>): set<T> {
    set i | 0 <= i < |xs| :: xs[i]
  }

  function Keys<T, K(==)>(xs: seq<T>, key: T -> K): set<K> {
    set i | 0 <= i < |xs| :: key(xs[i])
  }

  lemma KeysAppend<T, K>(xs: seq<T>, x: T, key: T -> K)
    ensures Keys(xs + [x], key) == Keys(xs, key) + {key(x)}
  {
    var all := xs + [x];
    assert all[|xs|] == x && forall i :: 0 <= i < |xs| ==> all[i] == xs[i];
    forall k | k in Keys(xs, key) ensures k in Keys(all, key) {
      var i :| 0 <= i < |xs| && key(xs[i]) == k;
      assert key(all[i]) == k;
    }
    assert key(all[|xs|]) == key(x);
  }

  lemma {:induction false} KeysSize<T, K>(xs: seq<T>, key: T -> K)
    requires forall i, j :: 0 <= i < j < |xs| ==> key(xs[i]) != key(xs[j])
    ensures |Keys(xs, key)| == |xs|
  {
    if xs == [] {
      assert Keys(xs, key) == {};
    } else {
      var front, last := xs[..|xs| - 1], xs[|xs| - 1];
      KeysSize(front, key);
      KeysAppend(front, last, key);
      assert xs == front + [last];
      assert key(last) !in Keys(front, key);
    }
  }

  lemma ElementsSize<T>(xs: seq<T>)
    requires NoTwice(xs)
    ensures |Elements(xs)| == |xs|
  {
    KeysSize(xs, x => x);
    assert Elements(xs) == Keys(xs, x => x);
  }

  /** LIMIT */
  function Limited(count: nat, limit: nat): nat {
    if count < limit then count else limit
  }

  /** n rows of the set, each once, in ascending order of the key. */
  ghost predicate IsCut<T(!new)>(all: set<T>, key: T -> int, n: nat, xs: seq<T>) {
    && |xs| == n && NoTwice(xs)
    && (forall i :: 0 <= i < |xs| ==> xs[i] in all)
    && (forall i, j :: 0 <= i < j < |xs| ==> key(xs[i]) <= key(xs[j]))
  }

  /** And no row that is left out comes before one that is not. */
  ghost predicate IsFirst<T(!new)>(all: set<T>, key: T -> int, n: nat, xs: seq<T>) {
    IsCut(all, key, n, xs) && forall x, i :: x in all && x !in xs && 0 <= i < |xs| ==> key(x) >= key(xs[i])
  }

  lemma {:induction false} LeastExists<T(!new)>(all: set<T>, key: T -> int) returns (least: T)
    requires all != {}
    ensures least in all && forall x :: x in all ==> key(least) <= key(x)
  {
    var x :| x in all;
    var rest := all - {x};
    if rest == {} {
      assert all == {x};
      least := x;
    } else {
      var y := LeastExists(rest, key);
      least := if key(x) <= key(y) then x else y;
      forall z | z in all ensures key(least) <= key(z) {
        assert z == x || z in rest;
      }
    }
  }

  lemma FirstPrepend<T(!new)>(all: set<T>, key: T -> int, n: nat, least: T, rest: seq<T>)
    requires n >= 1 && IsFirst(all - {least}, key, n - 1, rest)
    requires least in all && forall x :: x in all ==> key(least) <= key(x)
    ensures IsFirst(all, key, n, [least] + rest)
  {
    var xs := [least] + rest;
    assert forall i :: 0 < i < |xs| ==> xs[i] == rest[i - 1];
    forall x, i | x in all && x !in xs && 0 <= i < |xs| ensures key(x) >= key(xs[i]) {
      assert x != least && x !in rest;
    }
  }

  /** There is an answer to every such query. */
  lemma {:induction false} FirstExists<T(!new)>(all: set<T>, key: T -> int, n: nat) returns (xs: seq<T>)
    requires n <= |all|
    ensures IsFirst(all, key, n, xs)
    decreases n
  {
    if n == 0 {
      xs := [];
    } else {
      var least := LeastExists(all, key);
      var rest := FirstExists(all - {least}, key, n - 1);
      FirstPrepend(all, key, n, least, rest);
      xs := [least] + rest;
    }
  }

  /** A row that is left out of the first n has at least n others before it or level with it. */
  lemma LeftOutIsCrowded<T(!new)>(all: set<T>, key: T -> int, n: nat, xs: seq<T>, x: T, others: set<T>)
    requires IsFirst(all, key, n, xs) && x in all && x !in xs
    requires forall y :: y in all && y != x && key(y) <= key(x) ==> y in others
    ensures |others| >= n
  {
    ElementsSize(xs);
    SubsetSize(Elements(xs), others);
  }

  /** And if there are so many, some answer leaves it out. */
  lemma CrowdedIsLeftOut<T(!new)>(all: set<T>, key: T -> int, n: nat, x: T, others: set<T>) returns (xs: seq<T>)
    requires x in all && |others| >= n
    requires forall y :: y in others ==> y in all && y != x && key(y) <= key(x)
    ensures IsFirst(all, key, n, xs) && x !in xs
  {
    SubsetSize(others, all - {x});
    xs := FirstExists(all - {x}, key, n);
    ElementsSize(xs);
    forall i | 0 <= i < |xs| ensures key(x) >= key(xs[i]) {
      if key(x) < key(xs[i]) {
        assert others <= Elements(xs) - {xs[i]} by {
          forall y | y in others ensures y in Elements(xs) - {xs[i]} {
            assert y in all - {x} && y in xs;
          }
        }
        SubsetSize(others, Elements(xs) - {xs[i]});
      }
    }
  }
}
