/** When the order of a batch is determined by its timestamps, and when its hash is. */
module Listing {
  import opened Wrappers
  import opened Anchor
  import opened Cuts

  lemma IdsSize(rows: seq<Item>)
    requires Distinct(rows)
    ensures |Ids(rows)| == |rows|
  {
    var key := (row: Item) => row.id;
    KeysSize(rows, key);
    assert Ids(rows) == Keys(rows, key);
  }

  lemma EarlierIdsFit(queue: map<Id, Row>, a: seq<Item>, b: seq<Item>, k: nat)
    requires Ordered(queue, a) && Ordered(queue, b) && Ids(a) == Ids(b) && k < |a| && k < |b|
    requires queue[a[k].id].queuedAt < queue[b[k].id].queuedAt
    ensures Ids(a[..k + 1]) <= Ids(b[..k])
  {
    forall id | id in Ids(a[..k + 1]) ensures id in Ids(b[..k]) {
      var i :| 0 <= i < k + 1 && a[i].id == id;
      assert id in Ids(b);
      var j :| 0 <= j < |b| && b[j].id == id;
      assert queue[id].queuedAt <= queue[a[k].id].queuedAt;
      assert j < k;
      assert b[..k][j].id == id;
    }
  }

  /** The k-th row of any two listings of the same rows was queued at the same time. */
  lemma TimesAgree(queue: map<Id, Row>, a: seq<Item>, b: seq<Item>, k: nat)
    requires Ordered(queue, a) && Ordered(queue, b) && Ids(a) == Ids(b) && k < |a|
    ensures |a| == |b| && queue[a[k].id].queuedAt == queue[b[k].id].queuedAt
  {
    IdsSize(a);
    IdsSize(b);
    if queue[a[k].id].queuedAt < queue[b[k].id].queuedAt {
      NotEarlier(queue, a, b, k);
    } else if queue[b[k].id].queuedAt < queue[a[k].id].queuedAt {
      NotEarlier(queue, b, a, k);
    }
  }

  lemma NotEarlier(queue: map<Id, Row>, a: seq<Item>, b: seq<Item>, k: nat)
    requires Ordered(queue, a) && Ordered(queue, b) && Ids(a) == Ids(b) && k < |a| && k < |b|
    ensures queue[a[k].id].queuedAt >= queue[b[k].id].queuedAt
  {
    if queue[a[k].id].queuedAt < queue[b[k].id].queuedAt {
      EarlierIdsFit(queue, a, b, k);
      IdsSize(a[..k + 1]);
      IdsSize(b[..k]);
      SubsetSize(Ids(a[..k + 1]), Ids(b[..k]));
    }
  }

  /** Rows of the batch queued at the same time have the same digest. */
  ghost predicate TiesAgree(queue: map<Id, Row>, ids: set<Id>)
    requires ids <= queue.Keys
  {
    forall x, y :: x in ids && y in ids && queue[x].queuedAt == queue[y].queuedAt ==> queue[x].digest == queue[y].digest
  }

  lemma DigestsAgree(queue: map<Id, Row>, a: seq<Item>, b: seq<Item>)
    requires Ordered(queue, a) && Ordered(queue, b) && Ids(a) == Ids(b)
    requires TiesAgree(queue, Ids(a))
    ensures Digests(a) == Digests(b)
  {
    IdsSize(a);
    IdsSize(b);
    forall k | 0 <= k < |a| ensures Digests(a)[k] == Digests(b)[k] {
      TimesAgree(queue, a, b, k);
      assert a[k].id in Ids(a) && b[k].id in Ids(b);
    }
  }

  /** Two neighbours of a listing that were queued at the same time but differ in digest. */
  ghost predicate SwapAt(queue: map<Id, Row>, a: seq<Item>, r: nat)
    requires Ordered(queue, a)
  {
    r + 1 < |a| && queue[a[r].id].queuedAt == queue[a[r + 1].id].queuedAt && a[r].digest != a[r + 1].digest
  }

  lemma {:induction false} FindSwap(queue: map<Id, Row>, a: seq<Item>, p: nat, q: nat) returns (r: nat)
    requires Ordered(queue, a) && p < q < |a|
    requires queue[a[p].id].queuedAt == queue[a[q].id].queuedAt && a[p].digest != a[q].digest
    ensures SwapAt(queue, a, r)
    decreases q - p
  {
    assert queue[a[p].id].queuedAt <= queue[a[p + 1].id].queuedAt <= queue[a[q].id].queuedAt;
    if a[p].digest != a[p + 1].digest {
      r := p;
    } else {
      r := FindSwap(queue, a, p + 1, q);
    }
  }

  lemma SwappedIsOrdered(queue: map<Id, Row>, a: seq<Item>, r: nat)
    requires Ordered(queue, a) && SwapAt(queue, a, r)
    ensures var b := a[r := a[r + 1]][r + 1 := a[r]];
            Ordered(queue, b) && Ids(b) == Ids(a) && Digests(b) != Digests(a)
  {
    var b := a[r := a[r + 1]][r + 1 := a[r]];
    forall id ensures id in Ids(a) <==> id in Ids(b) {
      if i :| 0 <= i < |a| && a[i].id == id {
        assert b[if i == r then r + 1 else if i == r + 1 then r else i].id == id;
      }
      if i :| 0 <= i < |b| && b[i].id == id {
        assert a[if i == r then r + 1 else if i == r + 1 then r else i].id == id;
      }
    }
    assert Digests(b)[r] != Digests(a)[r];
  }

  /** The digests come in one order for every listing exactly when tied rows agree. */
  lemma OneOrderIffTiesAgree(queue: map<Id, Row>, a: seq<Item>)
    requires Ordered(queue, a)
    ensures TiesAgree(queue, Ids(a)) <==> forall b :: IsListing(queue, Ids(a), b) ==> Digests(b) == Digests(a)
  {
    if TiesAgree(queue, Ids(a)) {
      forall b | IsListing(queue, Ids(a), b) ensures Digests(b) == Digests(a) {
        DigestsAgree(queue, b, a);
      }
    } else {
      var x, y :| x in Ids(a) && y in Ids(a)
                  && queue[x].queuedAt == queue[y].queuedAt && queue[x].digest != queue[y].digest;
      var i :| 0 <= i < |a| && a[i].id == x;
      var j :| 0 <= j < |a| && a[j].id == y;
      var r := FindSwap(queue, a, if i < j then i else j, if i < j then j else i);
      SwappedIsOrdered(queue, a, r);
      var b := a[r := a[r + 1]][r + 1 := a[r]];
      assert IsListing(queue, Ids(a), b) && Digests(b) != Digests(a);
    }
  }

  lemma JoinNonempty(ds: seq<string>, n: nat)
    requires n > 0 && (forall d | d in ds :: |d| == n)
    ensures ds != [] ==> |Join(ds)| >= n && Join(ds)[..n] == ds[0] && Join(ds)[n..] == Join(ds[1..])
  {
    if ds != [] { assert ds[0] in ds; }
  }

  /** The digests come one after the other, in order. */
  lemma {:induction false} JoinAppend(ds: seq<string>, es: seq<string>)
    ensures Join(ds + es) == Join(ds) + Join(es)
  {
    if ds == [] {
      assert ds + es == es;
    } else {
      JoinAppend(ds[1..], es);
      assert (ds + es)[1..] == ds[1..] + es;
    }
  }

  /** Joining digests of one fixed positive length loses nothing. */
  lemma {:induction false} JoinInjective(ds: seq<string>, es: seq<string>, n: nat)
    requires n > 0 && (forall d | d in ds :: |d| == n) && (forall e | e in es :: |e| == n)
    requires Join(ds) == Join(es)
    ensures ds == es
  {
    JoinNonempty(ds, n);
    JoinNonempty(es, n);
    if ds != [] && es != [] {
      assert forall d | d in ds[1..] :: d in ds;
      assert forall e | e in es[1..] :: e in es;
      JoinInjective(ds[1..], es[1..], n);
      assert ds == [ds[0]] + ds[1..] && es == [es[0]] + es[1..];
    }
  }
}
