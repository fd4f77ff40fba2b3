/** Eviction of pieces from one torrent: what goes, in which order, and how much. */
module Eviction {
  import opened Arith
  import opened Geometry
  import opened Options
  import opened PieceStore
  import opened PieceRuns
  import opened PieceMemory

  // -------------------------------------------------------------------- the order

  /** Pieces not requested for this long are evicted commonest first. */
  const OLD: nat := 7200

  function At(available: seq<nat>, i: nat): nat { if i < |available| then available[i] else 0 }

  function Compare(x: nat, y: nat): int { if x < y then -1 else if x > y then 1 else 0 }

  /** Models the comparison function of Expire. */
  function Cmp(t: seq<nat>, available: seq<nat>, i: nat, j: nat): int
    requires i < |t| && j < |t|
  {
    if t[i] >= OLD && t[j] >= OLD && At(available, i) != At(available, j)
    then Compare(At(available, j), At(available, i))
    else Compare(t[j], t[i])
  }

  predicate Less(t: seq<nat>, available: seq<nat>, i: nat, j: nat)
    requires i < |t| && j < |t|
  {
    Cmp(t, available, i, j) < 0
  }

  /** The comparison is a strict weak order, which sorting relies on. */
  lemma StrictWeakOrder(t: seq<nat>, available: seq<nat>, i: nat, j: nat, k: nat)
    requires i < |t| && j < |t| && k < |t|
    ensures Cmp(t, available, i, j) == -Cmp(t, available, j, i) && !Less(t, available, i, i)
    ensures Less(t, available, i, j) && Less(t, available, j, k) ==> Less(t, available, i, k)
    ensures Cmp(t, available, i, j) == 0 && Cmp(t, available, j, k) == 0 ==> Cmp(t, available, i, k) == 0
  {
  }

  /** It puts the pieces unused for two hours before the others, the commonest of them first,
      and the others least recently used first. */
  lemma OrderMeaning(t: seq<nat>, available: seq<nat>, i: nat, j: nat)
    requires i < |t| && j < |t|
    ensures t[i] >= OLD > t[j] ==> Less(t, available, i, j)
    ensures t[i] >= OLD && t[j] >= OLD && At(available, i) > At(available, j) ==> Less(t, available, i, j)
    ensures t[i] < OLD && t[j] < OLD ==> (Less(t, available, i, j) <==> t[i] > t[j])
  {
  }

  /** What slices.SortFunc makes of a permutation of the n pieces. */
  ghost predicate Ordered(t: seq<nat>, available: seq<nat>, order: seq<nat>)
  {
    && (forall k :: 0 <= k < |order| ==> order[k] < |t|)
    && (forall k, l :: 0 <= k < l < |order| ==> order[k] != order[l] && !Less(t, available, order[l], order[k]))
    && (forall i: nat :: i < |t| ==> i in order)
  }

  // -------------------------------------------------------------------- the sweep

  predicate Within(order: seq<nat>, n: nat) { forall k :: 0 <= k < |order| ==> order[k] < n }

  predicate Evictable(p: Piece) { p.data.Some? && !p.status.Busy? }

  /** The loop of Expire over the rest of the order: the store afterwards, the calls of f, and
      the number of pieces deleted. */
  function Swept(st: Store, order: seq<nat>, todo: int, size: nat): (Store, seq<nat>, nat)
    requires Within(order, |st.pieces|)
    decreases |order|
  {
    if order == [] || todo <= 0 then (st, [], 0)
    else
      var i := order[0];
      var done := Evictable(st.pieces[i]);
      var (after, calls, n) := Swept(Evicted(st, i), order[1..], if done then todo - size else todo, size);
      (after, (if done && st.pieces[i].status.Complete? then [i] else []) + calls, (if done then 1 else 0) + n)
  }

  ghost predicate Distinct(order: seq<nat>) { forall k, l :: 0 <= k < l < |order| ==> order[k] != order[l] }

  /** What a piece may have become. */
  ghost predicate KeptOrGone(p: Piece, q: Piece) { q == p || (Evictable(p) && q == NOTHING) }

  ghost predicate Gone(st: Store, after: Store, i: nat)
    requires i < |st.pieces| && i < |after.pieces|
  {
    st.pieces[i].data.Some? && after.pieces[i].data.None?
  }

  /** The sweep changes nothing but by eviction, and only pieces of the order. */
  lemma {:induction false} SweptKeeps(st: Store, order: seq<nat>, todo: int, size: nat, i: nat)
    requires Within(order, |st.pieces|)
    requires i < |st.pieces|
    ensures var after := Swept(st, order, todo, size).0;
            && |after.pieces| == |st.pieces| && KeptOrGone(st.pieces[i], after.pieces[i])
            && (i !in order ==> after.pieces[i] == st.pieces[i])
    decreases |order|
  {
    if order != [] && todo > 0 {
      SweptKeeps(Evicted(st, order[0]), order[1..], if Evictable(st.pieces[order[0]]) then todo - size else todo, size, i);
    }
  }

  /** If the sweep evicts a piece, no evictable piece before it in the order is left. */
  lemma {:induction false} SweptInOrder(st: Store, order: seq<nat>, todo: int, size: nat, k: nat, l: nat)
    requires Distinct(order) && Within(order, |st.pieces|)
    requires k < l < |order|
    ensures var after := Swept(st, order, todo, size).0;
            |after.pieces| == |st.pieces| && (Gone(st, after, order[l]) ==> !Evictable(after.pieces[order[k]]))
    decreases |order|
  {
    SweptKeeps(st, order, todo, size, order[l]);
    if todo > 0 {
      var s1 := Evicted(st, order[0]);
      var left := if Evictable(st.pieces[order[0]]) then todo - size else todo;
      if k == 0 {
        SweptKeeps(s1, order[1..], left, size, order[0]);
      } else {
        assert order[1..][k - 1] == order[k] && order[1..][l - 1] == order[l];
        SweptInOrder(s1, order[1..], left, size, k - 1, l - 1);
      }
    }
  }

  /** The sweep stops as soon as enough has gone, and not before unless nothing is left. */
  lemma {:induction false} SweptEnough(st: Store, order: seq<nat>, todo: int, size: nat)
    requires Distinct(order) && Within(order, |st.pieces|)
    ensures var (after, _, n) := Swept(st, order, todo, size);
            && after.count == st.count - n && after.deleted == st.deleted && |after.pieces| == |st.pieces|
            && (n > 0 ==> todo - (n - 1) * size > 0)
            && (todo - n * size > 0 ==> forall x :: 0 <= x < |order| ==> !Evictable(after.pieces[order[x]]))
    decreases |order|
  {
    if order != [] && todo > 0 {
      var done := Evictable(st.pieces[order[0]]);
      var s1 := Evicted(st, order[0]);
      var left := if done then todo - size else todo;
      SweptEnough(s1, order[1..], left, size);
      SweptKeeps(s1, order[1..], left, size, order[0]);
      var (after, _, n) := Swept(s1, order[1..], left, size);
      if done {
        Distribute(n, 1, size);
        if n > 0 { Distribute(n - 1, 1, size); }
      }
      if left - n * size > 0 {
        forall x | 0 <= x < |order| ensures !Evictable(after.pieces[order[x]]) {
          if x > 0 { assert order[x] == order[1..][x - 1]; }
        }
      }
    }
  }

  /** The callback is called once for each complete piece that has gone, and for nothing else. */
  lemma {:induction false} SweptCalls(st: Store, order: seq<nat>, todo: int, size: nat, i: nat)
    requires Distinct(order) && Within(order, |st.pieces|) && i < |st.pieces|
    ensures var (after, calls, n) := Swept(st, order, todo, size);
            && |after.pieces| == |st.pieces|
            && multiset(calls)[i] == if Gone(st, after, i) && st.pieces[i].status.Complete? then 1 else 0
    decreases |order|
  {
    SweptKeeps(st, order, todo, size, i);
    if order != [] && todo > 0 {
      var o := order[0];
      var done := Evictable(st.pieces[o]);
      var s1 := Evicted(st, o);
      var left := if done then todo - size else todo;
      var head := if done && st.pieces[o].status.Complete? then [o] else [];
      var (after, calls, n) := Swept(s1, order[1..], left, size);
      assert Swept(st, order, todo, size).1 == head + calls;
      SweptCalls(s1, order[1..], left, size, i);
      SweptKeeps(s1, order[1..], left, size, o);
      hide Swept;
      assert multiset(head + calls)[i] == multiset(head)[i] + multiset(calls)[i];
      EvictedGone(st, after, o, i);
    }
  }

  lemma EvictedGone(st: Store, after: Store, o: nat, i: nat)
    requires o < |st.pieces| == |after.pieces| && i < |st.pieces| && after.pieces[o] == Evicted(st, o).pieces[o]
    ensures |Evicted(st, o).pieces| == |st.pieces|
    ensures i == o ==> (Gone(st, after, i) <==> Evictable(st.pieces[o])) && !Gone(Evicted(st, o), after, i)
    ensures i != o ==> (Gone(st, after, i) <==> Gone(Evicted(st, o), after, i)) && Evicted(st, o).pieces[i] == st.pieces[i]
  {
  }

  lemma {:induction false} SweptCounted(st: Store, order: seq<nat>, todo: int, size: nat)
    requires Counted(st) && Within(order, |st.pieces|)
    ensures Counted(Swept(st, order, todo, size).0)
    decreases |order|
  {
    hide Counted;
    if order != [] && todo > 0 {
      FreedCounted(st, order[0]);
      SweptCounted(Evicted(st, order[0]), order[1..], if Evictable(st.pieces[order[0]]) then todo - size else todo, size);
    }
  }

  lemma {:induction false} NoneAllocated(ps: seq<Piece>)
    requires forall i :: 0 <= i < |ps| ==> ps[i].data.None?
    ensures Allocated(ps) == 0
  {
    if ps != [] { NoneAllocated(ps[..|ps| - 1]); }
  }

  ghost predicate NoBusy(st: Store) { forall i :: 0 <= i < |st.pieces| ==> !st.pieces[i].status.Busy? }

  lemma OrderedDistinct(t: seq<nat>, available: seq<nat>, order: seq<nat>, n: nat)
    requires Ordered(t, available, order) && n == |t|
    ensures Distinct(order) && Within(order, n)
  {
    hide Less;
  }

  /** With no busy piece, Expire ends within the target and deletes no more than it must. */
  lemma ExpireReachesTarget(st: Store, t: seq<nat>, available: seq<nat>, order: seq<nat>, bytes: nat, size: nat)
    requires Counted(st) && NoBusy(st) && |t| == |st.pieces| && Ordered(t, available, order)
    requires Within(order, |st.pieces|)
    ensures var (after, _, n) := Swept(st, order, st.count * size - bytes, size);
            && Counted(after) && after.count == st.count - n && after.count >= 0
            && after.count * size <= bytes
            && (n > 0 ==> (after.count + 1) * size > bytes)
  {
    OrderedDistinct(t, available, order, |t|);
    var todo := st.count * size - bytes;
    SweptEnough(st, order, todo, size);
    SweptCounted(st, order, todo, size);
    var (after, _, n) := Swept(st, order, todo, size);
    SubMul(st.count, n, size);
    if n > 0 { SubMul(st.count, n - 1, size); }
    if todo - n * size > 0 {
      forall i | 0 <= i < |after.pieces| ensures after.pieces[i].data.None? {
        SweptKeeps(st, order, todo, size, i);
        assert i in order;
        var x :| 0 <= x < |order| && order[x] == i;
        assert !Evictable(after.pieces[order[x]]);
      }
      NoneAllocated(after.pieces);
    }
  }

  lemma SubMul(a: int, b: int, m: int)
    ensures (a - b) * m == a * m - b * m
  {
  }

  /** A piece that has gone was not after one that is left: so none used in the last two hours
      goes while an older one with memory remains. */
  lemma ExpireInOrder(st: Store, t: seq<nat>, available: seq<nat>, order: seq<nat>, todo: int, size: nat, i: nat, j: nat)
    requires NoBusy(st) && |t| == |st.pieces| && Ordered(t, available, order) && i < |t| && j < |t|
    requires Within(order, |st.pieces|)
    ensures var after := Swept(st, order, todo, size).0;
            && |after.pieces| == |st.pieces|
            && (Gone(st, after, j) && after.pieces[i].data.Some? ==> !Less(t, available, i, j))
            && (Gone(st, after, j) && t[j] < OLD && t[i] >= OLD ==> after.pieces[i].data.None?)
  {
    OrderedDistinct(t, available, order, |t|);
    SweptKeeps(st, order, todo, size, i);
    SweptKeeps(st, order, todo, size, j);
    assert i in order && j in order;
    var k :| 0 <= k < |order| && order[k] == i;
    var l :| 0 <= l < |order| && order[l] == j;
    if k < l { SweptInOrder(st, order, todo, size, k, l); }
    OrderMeaning(t, available, i, j);
    if k == l { StrictWeakOrder(t, available, i, i, i); }
    hide Swept, Less;
  }

  /** Models Expire after the sort: `order` is what the sort returned, `calls` the calls of f. */
  method Expire(ps: Pieces, bytes: int, t: seq<nat>, available: seq<nat>, order: seq<nat>) returns (count: nat, calls: seq<nat>)
    requires ps.Valid() && |t| == |ps.pieces| && Ordered(t, available, order)
    requires Within(order, |ps.View().pieces|)
    modifies ps
    ensures ps.Valid() && (ps.View(), calls, count) == Swept(old(ps.View()), order, old(ps.count) * ps.g.pieceSize - bytes, ps.g.pieceSize)
  {
    hide Swept, Ordered, Rest, Shape.Pieces, Shape.PieceLength, Sized, Shape.Valid;
    var size := ps.g.pieceSize;
    var todo := ps.count * size - bytes;
    count, calls := 0, [];
    ghost var start := ps.View();
    ghost var goal := Swept(start, order, todo, size);
    RestStart(start, order, todo, size);
    assert order[0..] == order;
    var k := 0;
    while k < |order|
      invariant 0 <= k <= |order| && ps.Valid() && |ps.View().pieces| == |ps.pieces| && |ps.pieces| == |start.pieces|
      invariant Rest(ps.View(), order[k..], todo, size, calls, count) == goal
    {
      var index := order[k];
      if todo <= 0 {
        break;
      }
      ghost var before := ps.View();
      assert before.pieces[index] == Abs(ps.pieces[index]);
      var done, complete := ps.Evict(index);
      RestStep(before, order[k..], todo, size, calls, count);
      assert order[k..][1..] == order[k + 1..];
      if done {
        if complete {
          calls := calls + [index];
        }
        count := count + 1;
        todo := todo - size;
      }
      k := k + 1;
    }
    RestEnd(ps.View(), order[k..], todo, size, calls, count);
  }

  lemma RestStart(st: Store, order: seq<nat>, todo: int, size: nat)
    requires Within(order, |st.pieces|)
    ensures Rest(st, order, todo, size, [], 0) == Swept(st, order, todo, size)
  {
    assert [] + Swept(st, order, todo, size).1 == Swept(st, order, todo, size).1;
  }

  lemma RestEnd(st: Store, order: seq<nat>, todo: int, size: nat, calls: seq<nat>, count: nat)
    requires Within(order, |st.pieces|) && (order == [] || todo <= 0)
    ensures Rest(st, order, todo, size, calls, count) == (st, calls, count)
  {
    assert calls + [] == calls;
  }

  /** The result of the sweep, when part of it has been done. */
  ghost function Rest(st: Store, order: seq<nat>, todo: int, size: nat, calls: seq<nat>, count: nat): (Store, seq<nat>, nat)
    requires Within(order, |st.pieces|)
  {
    var (after, more, n) := Swept(st, order, todo, size);
    (after, calls + more, count + n)
  }

  lemma RestStep(st: Store, order: seq<nat>, todo: int, size: nat, calls: seq<nat>, count: nat)
    requires order != [] && todo > 0 && Within(order, |st.pieces|)
    ensures var i := order[0];
            var done := Evictable(st.pieces[i]);
            |Evicted(st, i).pieces| == |st.pieces|
            && Rest(st, order, todo, size, calls, count) ==
               Rest(Evicted(st, i), order[1..], if done then todo - size else todo, size,
                 if done && st.pieces[i].status.Complete? then calls + [i] else calls, if done then count + 1 else count)
  {
    var i := order[0];
    var done := Evictable(st.pieces[i]);
    var (after, more, n) := Swept(Evicted(st, i), order[1..], if done then todo - size else todo, size);
    var head := if done && st.pieces[i].status.Complete? then [i] else [];
    assert calls + (head + more) == (calls + head) + more;
    assert calls + head == if done && st.pieces[i].status.Complete? then calls + [i] else calls;
  }
}
