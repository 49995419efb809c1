/** Rows in the order a query asks for them. */
module Listings {

  type Rank = (int, int)

  predicate Before(a: Rank, b: Rank) {
    a.0 < b.0 || (a.0 == b.0 && a.1 <= b.1)
  }

  /** Ranked keys in the order of their ranks, none twice; keys of equal rank come as they may. */
  ghost predicate IsSorted<T(!new)>(q: seq<T>, ranks: map<T, Rank>) {
    && (forall i :: 0 <= i < |q| ==> q[i] in ranks)
    && (forall i, j :: 0 <= i < j < |q| ==> q[i] != q[j] && Before(ranks[q[i]], ranks[q[j]]))
  }

  ghost predicate IsListing<T(!new)>(q: seq<T>, ranks: map<T, Rank>) {
    IsSorted(q, ranks) && forall k :: k in ranks ==> k in q
  }

  method Listing<T(==, !new)>(ranks: map<T, Rank>) returns (q: seq<T>)
    ensures IsListing(q, ranks)
  {
    var rest := ranks.Keys;
    q := [];
    while rest != {}
      invariant rest <= ranks.Keys
      invariant IsSorted(q, ranks)
      invariant forall k :: k in q <==> k in ranks && k !in rest
      decreases rest
    {
      var k :| k in rest;
      q := Insert(q, k, ranks);
      rest := rest - {k};
    }
  }

  method Insert<T(==, !new)>(q: seq<T>, k: T, ranks: map<T, Rank>) returns (r: seq<T>)
    requires IsSorted(q, ranks) && k in ranks && k !in q
    ensures IsSorted(r, ranks)
    ensures forall x :: x in r <==> x in q || x == k
  {
    var i := |q|;
    while i > 0 && !Before(ranks[q[i - 1]], ranks[k])
      invariant 0 <= i <= |q|
      invariant forall j :: i <= j < |q| ==> Before(ranks[k], ranks[q[j]])
    {
      i := i - 1;
    }
    r := q[..i] + [k] + q[i..];
    Inserted(q, k, ranks, i, r);
    InsertedMembers(q, k, i);
  }

  lemma Inserted<T(!new)>(q: seq<T>, k: T, ranks: map<T, Rank>, i: nat, r: seq<T>)
    requires IsSorted(q, ranks) && k in ranks && k !in q && i <= |q|
    requires i > 0 ==> Before(ranks[q[i - 1]], ranks[k])
    requires forall j :: i <= j < |q| ==> Before(ranks[k], ranks[q[j]])
    requires |r| == |q| + 1 && r[i] == k
    requires forall j :: 0 <= j < i ==> r[j] == q[j]
    requires forall j :: i < j < |r| ==> r[j] == q[j - 1]
    ensures IsSorted(r, ranks)
  {
    forall h, j | 0 <= h < j < |r| ensures r[h] != r[j] && Before(ranks[r[h]], ranks[r[j]]) {
      if j == i && h < i - 1 {
        assert Before(ranks[q[h]], ranks[q[i - 1]]);
      }
    }
  }

  lemma InsertedMembers<T>(q: seq<T>, k: T, i: nat)
    requires i <= |q|
    ensures forall x :: x in q[..i] + [k] + q[i..] <==> x in q || x == k
  {
    assert q == q[..i] + q[i..];
  }

  lemma ListingHasEveryKey<T(!new)>(q: seq<T>, ranks: map<T, Rank>)
    requires IsListing(q, ranks)
    ensures (set k | k in q) == ranks.Keys && |q| == |ranks.Keys|
  {
    SizeOfDistinct(q);
    assert (set k | k in q) == ranks.Keys;
  }

  lemma {:induction false} SizeOfDistinct<T(!new)>(q: seq<T>)
    requires forall i, j :: 0 <= i < j < |q| ==> q[i] != q[j]
    ensures |set k | k in q| == |q|
  {
    if q != [] {
      var front, last := q[..|q| - 1], q[|q| - 1];
      SizeOfDistinct(front);
      assert q == front + [last];
      assert (set k | k in q) == (set k | k in front) + {last};
    }
  }
}
