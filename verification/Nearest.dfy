/** Bounded sorted lists of the smallest numbers offered so far. */
module Nearest {

  ghost predicate Sorted(d: seq<nat>)
  {
    forall i, j :: 0 <= i < j < |d| ==> d[i] < d[j]
  }

  /** `d` holds, in order, the `k` smallest of the numbers offered. */
  ghost predicate Smallest(d: seq<nat>, offered: set<nat>, k: nat)
  {
    && Sorted(d) && |d| <= k
    && (forall x :: x in d ==> x in offered)
    && (forall x :: x in offered && x !in d ==> |d| == k && Above(d, x))
  }

  ghost predicate Above(d: seq<nat>, x: nat)
  {
    forall y :: y in d ==> y < x
  }

  /** The first position at or after `i` whose number is not below `x`. */
  function Rank(d: seq<nat>, x: nat, i: nat): (r: nat)
    requires i <= |d|
    ensures i <= r <= |d|
    ensures forall j :: i <= j < r ==> d[j] < x
    ensures r < |d| ==> x <= d[r]
    decreases |d| - i
  {
    if i == |d| || x <= d[i] then i else Rank(d, x, i + 1)
  }

  function Take<T>(l: seq<T>, k: nat): seq<T> { if |l| <= k then l else l[..k] }

  /** Insertion at a position, dropping what falls off the end. */
  function Place<T>(l: seq<T>, i: nat, e: T, k: nat): seq<T>
    requires i <= |l|
  {
    Take(l[..i] + [e] + l[i..], k)
  }

  function Offer(d: seq<nat>, x: nat, k: nat): seq<nat>
  {
    var i := Rank(d, x, 0);
    if i < |d| && d[i] == x then d else Place(d, i, x, k)
  }

  lemma RankFinds(d: seq<nat>, x: nat)
    requires Sorted(d)
    ensures x in d <==> Rank(d, x, 0) < |d| && d[Rank(d, x, 0)] == x
  {
  }

  lemma InsertedSorted(d: seq<nat>, x: nat)
    requires Sorted(d) && x !in d
    ensures var i := Rank(d, x, 0); Sorted(d[..i] + [x] + d[i..])
  {
  }

  /** What falls off the end of a sorted list is above all that stays. */
  lemma CutOff(full: seq<nat>, x: nat, k: nat)
    requires Sorted(full) && x in full && x !in Take(full, k)
    ensures |Take(full, k)| == k && Above(Take(full, k), x)
  {
    var p :| 0 <= p < |full| && full[p] == x;
    assert k <= p;
  }

  lemma InsertedMember(d: seq<nat>, i: nat, x: nat, y: nat)
    requires i <= |d|
    ensures y in d[..i] + [x] + d[i..] <==> y == x || y in d
  {
    assert d == d[..i] + d[i..];
  }

  lemma TakeMember(full: seq<nat>, k: nat, y: nat)
    requires y in Take(full, k)
    ensures y in full
  {
  }

  /** Offering one more number to the k smallest gives the k smallest of all offered. */
  lemma OfferSmallest(d: seq<nat>, offered: set<nat>, x: nat, k: nat)
    requires Smallest(d, offered, k)
    ensures Smallest(Offer(d, x, k), offered + {x}, k)
  {
    RankFinds(d, x);
    if x !in d {
      var i := Rank(d, x, 0);
      var full := d[..i] + [x] + d[i..];
      var r := Take(full, k);
      InsertedSorted(d, x);
      forall y | y in r ensures y in offered + {x} {
        TakeMember(full, k, y);
        InsertedMember(d, i, x, y);
      }
      forall y | y in offered + {x} && y !in r ensures |r| == k && Above(r, y) {
        InsertedMember(d, i, x, y);
        if y in full {
          CutOff(full, y, k);
        } else {
          Bumped(d, x, y);
        }
      }
    }
  }

  lemma Bumped(d: seq<nat>, x: nat, y: nat)
    requires Sorted(d) && Above(d, y)
    ensures Above(Place(d, Rank(d, x, 0), x, |d|), y)
  {
    var i := Rank(d, x, 0);
    var full := d[..i] + [x] + d[i..];
    forall j | 0 <= j < |d| ensures full[j] < y {
      if j < i {
        assert full[j] == d[j] && d[j] in d;
      } else if j > i {
        assert full[j] == d[j - 1] && d[j - 1] in d;
      } else {
        assert d[i] in d;
      }
    }
  }

  /** Offering keeps a list sorted; a number beyond the end of a full list changes nothing. */
  lemma OfferSorted(d: seq<nat>, x: nat, k: nat)
    requires Sorted(d) && |d| <= k
    ensures Sorted(Offer(d, x, k)) && |Offer(d, x, k)| <= k
    ensures Rank(d, x, 0) == k ==> Offer(d, x, k) == d
  {
    OfferSmallest(d, ToSet(d), x, k);
    if Rank(d, x, 0) == k { assert (d[..k] + [x] + d[k..])[..k] == d; }
  }

  function OfferAll(d: seq<nat>, xs: seq<nat>, k: nat): seq<nat>
  {
    if xs == [] then d else Offer(OfferAll(d, xs[..|xs| - 1], k), xs[|xs| - 1], k)
  }

  function ToSet(xs: seq<nat>): set<nat> { set x | x in xs }

  lemma ToSetSnoc(xs: seq<nat>)
    requires xs != []
    ensures ToSet(xs) == ToSet(xs[..|xs| - 1]) + {xs[|xs| - 1]}
  {
    assert xs == xs[..|xs| - 1] + [xs[|xs| - 1]];
  }

  lemma {:induction false} OfferAllSmallest(d: seq<nat>, offered: set<nat>, xs: seq<nat>, k: nat)
    requires Smallest(d, offered, k)
    ensures Smallest(OfferAll(d, xs, k), offered + ToSet(xs), k)
    decreases |xs|
  {
    if xs == [] {
      assert offered + ToSet(xs) == offered;
    } else {
      var n := |xs| - 1;
      OfferAllSmallest(d, offered, xs[..n], k);
      OfferSmallest(OfferAll(d, xs[..n], k), offered + ToSet(xs[..n]), xs[n], k);
      ToSetSnoc(xs);
      assert offered + ToSet(xs[..n]) + {xs[n]} == offered + ToSet(xs);
    }
  }

  // ------------------------------------------------------------- uniqueness

  lemma {:induction false} ToSetSize(d: seq<nat>)
    requires Sorted(d)
    ensures |ToSet(d)| == |d|
    decreases |d|
  {
    if d != [] {
      var n := |d| - 1;
      ToSetSize(d[..n]);
      ToSetSnoc(d);
      assert forall y :: y in d[..n] ==> y < d[n];
      assert d[n] !in ToSet(d[..n]);
    }
  }

  lemma {:induction false} SubsetSize<T>(a: set<T>, b: set<T>)
    requires a <= b
    ensures |a| <= |b|
    decreases a
  {
    if a != {} {
      var x :| x in a;
      SubsetSize(a - {x}, b - {x});
    }
  }

  lemma SmallestSubset(d1: seq<nat>, d2: seq<nat>, offered: set<nat>, k: nat)
    requires Smallest(d1, offered, k) && Smallest(d2, offered, k)
    ensures ToSet(d1) <= ToSet(d2)
  {
    ToSetSize(d1);
    ToSetSize(d2);
    forall x | x in d1 ensures x in d2 {
      if x !in d2 {
        assert Above(d2, x) && |d2| == k;
        assert forall y :: y in d2 && y !in d1 ==> Above(d1, y);
        assert ToSet(d2) <= ToSet(d1) - {x};
        SubsetSize(ToSet(d2), ToSet(d1) - {x});
      }
    }
  }

  lemma LastIsMax(d1: seq<nat>, d2: seq<nat>)
    requires Sorted(d1) && Sorted(d2) && ToSet(d1) == ToSet(d2) && |d1| == |d2| > 0
    ensures d1[|d1| - 1] == d2[|d2| - 1]
  {
    var a, b := d1[|d1| - 1], d2[|d2| - 1];
    assert a in ToSet(d1) && b in ToSet(d2);
    assert forall y :: y in d1 ==> y <= a;
    assert forall y :: y in d2 ==> y <= b;
  }

  lemma ToSetFront(d: seq<nat>)
    requires Sorted(d) && d != []
    ensures ToSet(d[..|d| - 1]) == ToSet(d) - {d[|d| - 1]}
  {
    var n := |d| - 1;
    ToSetSnoc(d);
    assert forall y :: y in d[..n] ==> y < d[n];
  }

  lemma {:induction false} SortedUnique(d1: seq<nat>, d2: seq<nat>)
    requires Sorted(d1) && Sorted(d2) && ToSet(d1) == ToSet(d2)
    ensures d1 == d2
    decreases |d1|
  {
    ToSetSize(d1);
    ToSetSize(d2);
    if d1 != [] {
      var n := |d1| - 1;
      LastIsMax(d1, d2);
      ToSetFront(d1);
      ToSetFront(d2);
      SortedUnique(d1[..n], d2[..n]);
      assert d1 == d1[..n] + [d1[n]] && d2 == d2[..n] + [d2[n]];
    }
  }

  /** There is only one list of the k smallest. */
  lemma SmallestUnique(d1: seq<nat>, d2: seq<nat>, offered: set<nat>, k: nat)
    requires Smallest(d1, offered, k) && Smallest(d2, offered, k)
    ensures d1 == d2
  {
    SmallestSubset(d1, d2, offered, k);
    SmallestSubset(d2, d1, offered, k);
    SortedUnique(d1, d2);
  }

  /** If k of the numbers offered are below all others, adding the others changes nothing. */
  lemma SmallestEnough(d: seq<nat>, near: set<nat>, offered: set<nat>, all: set<nat>, k: nat)
    requires Smallest(d, offered, k) && near <= offered <= all && |near| >= k
    requires forall x, y :: x in near && y in all && y !in near ==> x < y
    ensures Smallest(d, all, k)
  {
    forall y | y in all && y !in d ensures |d| == k && Above(d, y) {
      if y !in offered { FullOfNear(d, near, offered, k); }
    }
  }

  lemma FullOfNear(d: seq<nat>, near: set<nat>, offered: set<nat>, k: nat)
    requires Smallest(d, offered, k) && near <= offered && |near| >= k
    requires forall x, y :: x in near && y in offered && y !in near ==> x < y
    ensures |d| == k && forall y :: y in d ==> y in near
  {
    ToSetSize(d);
    if near <= ToSet(d) {
      SubsetSize(near, ToSet(d));
      forall y | y in d ensures y in near {
        if y !in near { SubsetSize(near, ToSet(d) - {y}); }
      }
    } else {
      var x :| x in near && x !in d;
      assert Above(d, x) && |d| == k;
    }
  }

  /** Whatever the order of the offers, and however often each is repeated, the result is the
      same: the k smallest of them. */
  lemma OrderIrrelevant(xs: seq<nat>, ys: seq<nat>, k: nat)
    requires ToSet(xs) == ToSet(ys)
    ensures OfferAll([], xs, k) == OfferAll([], ys, k) && Smallest(OfferAll([], xs, k), ToSet(xs), k)
  {
    OfferAllSmallest([], {}, xs, k);
    OfferAllSmallest([], {}, ys, k);
    assert {} + ToSet(xs) == ToSet(xs);
    SmallestUnique(OfferAll([], xs, k), OfferAll([], ys, k), ToSet(xs), k);
  }
}
