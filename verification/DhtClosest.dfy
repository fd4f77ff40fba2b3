/** The nodes closest to a target: search candidates and find_node replies.

A search keeps its 14 closest candidates and a reply carries the 8 closest good nodes.  Both
are filled by insertion into an array sorted by XOR distance. */
module DhtClosest {
  import opened Ids
  import opened DhtPartition
  import opened DhtTable
  import opened DhtRouting
  import opened Nearest
  import opened Options

  datatype Entry<T> = Entry(id: Id, data: T)

  datatype Candidate = Candidate(addr: nat, replied: bool, requestTime: int, replyTime: int, pinged: int, token: seq<bv8>, acked: bool)

  const SEARCH_NODES: nat := 14
  const REPLY_NODES: nat := 8

  function Keys<T>(l: seq<Entry<T>>, ref: Id): (d: seq<nat>)
    ensures |d| == |l| && forall i :: 0 <= i < |l| ==> d[i] == Dist(l[i].id, ref)
  {
    seq(|l|, i requires 0 <= i < |l| => Dist(l[i].id, ref))
  }

  function Dists(ids: set<Id>, ref: Id): set<nat> { set x | x in ids :: Dist(x, ref) }

  /** `l` lists, nearest first, the `k` ids closest to `ref` among those offered. */
  ghost predicate Closest<T>(l: seq<Entry<T>>, offered: set<Id>, ref: Id, k: nat)
  {
    Smallest(Keys(l, ref), Dists(offered, ref), k)
  }

  /** What `Closest` says of the ids themselves. */
  lemma ClosestMeaning<T>(l: seq<Entry<T>>, offered: set<Id>, ref: Id, k: nat, x: Id)
    requires Closest(l, offered, ref, k) && x in offered
    ensures forall i :: 0 <= i < |l| ==> l[i].id in offered
    ensures forall i, j :: 0 <= i < j < |l| ==> l[i].id != l[j].id && Dist(l[i].id, ref) < Dist(l[j].id, ref)
    ensures (exists i :: 0 <= i < |l| && l[i].id == x) || (|l| == k && forall i :: 0 <= i < k ==> Dist(l[i].id, ref) < Dist(x, ref))
  {
    var d := Keys(l, ref);
    forall i | 0 <= i < |l| ensures l[i].id in offered {
      assert d[i] in d;
      var y :| y in offered && Dist(y, ref) == d[i];
      DistInjective(y, l[i].id, ref);
    }
    if Dist(x, ref) in d {
      var i :| 0 <= i < |d| && d[i] == Dist(x, ref);
      DistInjective(x, l[i].id, ref);
    } else {
      assert Above(d, Dist(x, ref));
      assert forall i :: 0 <= i < |l| ==> d[i] in d;
    }
  }

  // ------------------------------------------------------------- arrays in place

  /** Makes room at position i by shifting, dropping the last entry of a full array. */
  method InsertAt<T>(a: array<T>, i: nat, n: nat, e: T) returns (m: nat)
    requires i <= n <= a.Length && i < a.Length
    modifies a
    ensures m == if n < a.Length then n + 1 else n
    ensures a[..m] == Place(old(a[..n]), i, e, a.Length)
  {
    m := n;
    if n < a.Length {
      m := n + 1;
    }
    var j := m - 1;
    while j > i
      invariant i <= j < m
      invariant forall x :: 0 <= x <= j && x < n ==> a[x] == old(a[x])
      invariant forall x :: j < x < m ==> a[x] == old(a[x - 1])
    {
      a[j] := a[j - 1];
      j := j - 1;
    }
    a[i] := e;
    Shifted(old(a[..n]), a[..m], i, e, a.Length);
  }

  lemma Shifted<T>(was: seq<T>, now: seq<T>, i: nat, e: T, k: nat)
    requires i <= |was| <= k && i < k && |now| == if |was| < k then |was| + 1 else |was|
    requires now[i] == e && (forall x :: 0 <= x < i ==> now[x] == was[x]) && (forall x :: i < x < |now| ==> now[x] == was[x - 1])
    ensures now == Place(was, i, e, k)
  {
    var full := was[..i] + [e] + was[i..];
    forall x | 0 <= x < |now| ensures now[x] == full[x] {
      if x > i { assert full[x] == was[x - 1]; }
    }
    assert now == full[..|now|];
    assert |was| < k ==> full[..|now|] == full;
  }

  lemma PlaceKeys<T>(l: seq<Entry<T>>, i: nat, e: Entry<T>, ref: Id, k: nat)
    requires i <= |l|
    ensures Keys(Place(l, i, e, k), ref) == Place(Keys(l, ref), i, Dist(e.id, ref), k)
  {
    var full := l[..i] + [e] + l[i..];
    var d := Keys(l, ref);
    assert Keys(full, ref) == d[..i] + [Dist(e.id, ref)] + d[i..];
  }

  /** The scan that both insertions start with. */
  method Scan<T>(a: array<Entry<T>>, n: nat, id: Id, ref: Id) returns (i: nat)
    requires n <= a.Length && Sorted(Keys(a[..n], ref))
    ensures i == Rank(Keys(a[..n], ref), Dist(id, ref), 0) <= n
    ensures i < n && Dist(a[i].id, ref) == Dist(id, ref) ==> a[i].id == id
  {
    i := 0;
    ghost var d := Keys(a[..n], ref);
    while i < n && Dist(id, ref) > Dist(a[i].id, ref)
      invariant i <= n && Rank(d, Dist(id, ref), i) == Rank(d, Dist(id, ref), 0)
    {
      assert d[i] == Dist(a[i].id, ref);
      i := i + 1;
    }
    assert i < n ==> d[i] == Dist(a[i].id, ref);
    if i < n && Dist(a[i].id, ref) == Dist(id, ref) { DistInjective(a[i].id, id, ref); }
  }

  lemma OfferCases(d: seq<nat>, x: nat, k: nat)
    requires Sorted(d) && |d| <= k
    ensures var i := Rank(d, x, 0);
            Offer(d, x, k) == if (i < |d| && d[i] == x) || i == k then d else Place(d, i, x, k)
  {
    OfferSorted(d, x, k);
    RankFinds(d, x);
  }

  /** Bounded sorted insertion, common to searches and replies.  Returns where the entry's id
      now is, or -1 if it is farther than all of a full list. */
  method InsertSorted<T>(a: array<Entry<T>>, n: nat, e: Entry<T>, ref: Id) returns (r: int, m: nat)
    requires n <= a.Length && Sorted(Keys(a[..n], ref))
    modifies a
    ensures n <= m <= a.Length && Sorted(Keys(a[..m], ref))
    ensures Keys(a[..m], ref) == Offer(old(Keys(a[..n], ref)), Dist(e.id, ref), a.Length)
    ensures -1 <= r < m
    ensures r >= 0 ==> a[r] == Entry(e.id, Known(old(a[..n]), e.id, e.data))
    ensures forall j :: 0 <= j < m && j != r ==> a[j] in old(a[..n]) && a[j].id != e.id
  {
    hide Sorted, Rank, Place, Offer, Take, Keys;
    ghost var was, d, x := a[..n], Keys(a[..n], ref), Dist(e.id, ref);
    var i := Scan(a, n, e.id, ref);
    OfferSorted(d, x, a.Length);
    OfferCases(d, x, a.Length);
    r, m := i, n;
    assert forall j :: 0 <= j < n ==> a[j] == was[j];
    Elsewhere(was, e.id, ref, e.data);
    if i < n && a[i].id == e.id {
    } else if i == a.Length {
      r := -1;
    } else {
      PlaceKeys(was, i, e, ref, a.Length);
      PlaceMembers(was, i, e, a.Length);
      m := InsertAt(a, i, n, e);
      assert forall j :: 0 <= j < m ==> a[j] == a[..m][j];
    }
  }

  /** In a sorted list an id is found at its rank or not at all. */
  lemma Elsewhere<T>(l: seq<Entry<T>>, id: Id, ref: Id, blank: T)
    requires Sorted(Keys(l, ref))
    ensures var i := Rank(Keys(l, ref), Dist(id, ref), 0);
            if i < |l| && l[i].id == id
            then Known(l, id, blank) == l[i].data && forall j :: 0 <= j < |l| && j != i ==> l[j].id != id
            else Known(l, id, blank) == blank && forall j :: 0 <= j < |l| ==> l[j].id != id
  {
    var d, x := Keys(l, ref), Dist(id, ref);
    var i := Rank(d, x, 0);
    RankFinds(d, x);
    forall j | 0 <= j < |l| && l[j].id == id ensures j == i { assert d[j] == x && d[j] in d; }
  }

  /** The data listed for an id, or a blank record. */
  ghost function Known<T>(l: seq<Entry<T>>, id: Id, blank: T): T
  {
    if j :| 0 <= j < |l| && l[j].id == id then l[j].data else blank
  }

  /** One more offer. */
  lemma ClosestOffer<T>(l: seq<Entry<T>>, m: seq<Entry<T>>, offered: set<Id>, ref: Id, k: nat, x: Id)
    requires Closest(l, offered, ref, k) && Keys(m, ref) == Offer(Keys(l, ref), Dist(x, ref), k)
    ensures Closest(m, offered + {x}, ref, k)
  {
    hide Smallest, Offer, Keys;
    OfferSmallest(Keys(l, ref), Dists(offered, ref), Dist(x, ref), k);
    assert Dists(offered + {x}, ref) == Dists(offered, ref) + {Dist(x, ref)};
  }

  const BLANK: Candidate := Candidate(0, false, 0, 0, 0, [], false)

  /** The record-keeping at the end of insert_search_node: a reply resets the request, and an
      overlong token is ignored. */
  function Renewed(c: Candidate, addr: nat, replied: bool, token: Option<seq<bv8>>, now: int): Candidate
  {
    var d := c.(addr := addr);
    var e := if replied then d.(replied := true, replyTime := now, requestTime := 0, pinged := 0) else d;
    if token.Some? && |token.value| < 40 then e.(token := token.value) else e
  }

  class Search {
    const target: Id
    const nodes: array<Entry<Candidate>>
    var numnodes: nat
    ghost var offered: set<Id>

    /** The candidates are the 14 closest of all ids ever offered, nearest first. */
    ghost predicate Valid()
      reads this, nodes
    {
      nodes.Length == SEARCH_NODES && numnodes <= SEARCH_NODES && Closest(nodes[..numnodes], offered, target, SEARCH_NODES)
    }

    constructor (id: Id)
      ensures Valid() && fresh(nodes) && target == id && numnodes == 0 && offered == {}
    {
      target := id;
      nodes := new Entry<Candidate>[SEARCH_NODES](i => Entry(ZERO, BLANK));
      numnodes := 0;
      offered := {};
      new;
      assert Keys(nodes[..0], id) == [];
    }

    /** Models insert_search_node.  Returns the position of the candidate, or -1. */
    method InsertSearchNode(id: Id, addr: nat, sameFamily: bool, replied: bool, token: Option<seq<bv8>>, now: int)
      returns (r: int)
      requires Valid()
      modifies this, nodes
      ensures Valid()
      ensures !sameFamily ==> r == -1 && numnodes == old(numnodes) && nodes[..] == old(nodes[..]) && offered == old(offered)
      ensures sameFamily ==> offered == old(offered) + {id}
      ensures -1 <= r < numnodes
      ensures r >= 0 ==> nodes[r] == Entry(id, Renewed(Known(old(nodes[..numnodes]), id, BLANK), addr, replied, token, now))
      ensures sameFamily ==> forall j :: 0 <= j < numnodes && j != r ==> nodes[j] in old(nodes[..numnodes]) && nodes[j].id != id
    {
      hide Smallest, Keys, Dists, Offer;
      if !sameFamily {
        return -1;
      }
      ghost var was := nodes[..numnodes];
      ClosestSorted(was, offered, target, SEARCH_NODES);
      var m;
      r, m := InsertSorted(nodes, numnodes, Entry(id, BLANK), target);
      ClosestOffer(was, nodes[..m], offered, target, SEARCH_NODES, id);
      numnodes := m;
      offered := offered + {id};
      if r >= 0 {
        ghost var listed := nodes[..numnodes];
        nodes[r] := Entry(id, Renewed(nodes[r].data, addr, replied, token, now));
        SameKeys(listed, nodes[..numnodes], target);
      }
    }
  }

  lemma ClosestSorted<T>(l: seq<Entry<T>>, offered: set<Id>, ref: Id, k: nat)
    requires Closest(l, offered, ref, k)
    ensures Sorted(Keys(l, ref)) && |l| <= k
  {
  }

  lemma SameKeys<T>(l: seq<Entry<T>>, m: seq<Entry<T>>, ref: Id)
    requires |l| == |m| && forall i :: 0 <= i < |l| ==> l[i].id == m[i].id
    ensures Keys(l, ref) == Keys(m, ref)
  {
  }

  lemma PlaceMembers<T>(l: seq<T>, i: nat, e: T, k: nat)
    requires i <= |l| <= k && i < k
    ensures i < |Place(l, i, e, k)| && Place(l, i, e, k)[i] == e
    ensures forall j :: 0 <= j < |Place(l, i, e, k)| && j != i ==> Place(l, i, e, k)[j] in l
  {
    var full := l[..i] + [e] + l[i..];
    forall j | 0 <= j < |full| && j != i ensures full[j] in l {
      if j < i { assert full[j] == l[j]; } else { assert full[j] == l[j - 1]; }
    }
  }

  // -------------------------------------------------------------------- replies

  /** The keys of a bucket's good nodes, in list order. */
  function GoodKeys(ns: seq<Node>, now: int, ref: Id): seq<nat>
  {
    if ns == [] then []
    else
      var n := ns[|ns| - 1];
      GoodKeys(ns[..|ns| - 1], now, ref) + if NodeGood(n, now) then [Dist(n.id, ref)] else []
  }

  ghost function GoodIds(ns: seq<Node>, now: int): set<Id> { set n | n in ns && NodeGood(n, now) :: n.id }

  ghost function AllGoodIds(bs: seq<Bucket>, now: int): set<Id>
  {
    set i, n | 0 <= i < |bs| && n in bs[i].nodes && NodeGood(n, now) :: n.id
  }

  /** A reply entry is the id and the address of a good node. */
  ghost predicate Speaks(e: Entry<nat>, ns: seq<Node>, now: int)
  {
    exists n :: n in ns && NodeGood(n, now) && e == Entry(n.id, n.addr)
  }

  /** Models insert_closest_node. */
  method InsertClosestNode(nodes: array<Entry<nat>>, numnodes: nat, id: Id, n: Node) returns (num: nat)
    requires nodes.Length == REPLY_NODES && numnodes <= REPLY_NODES && Sorted(Keys(nodes[..numnodes], id))
    modifies nodes
    ensures num <= REPLY_NODES
    ensures Keys(nodes[..num], id) == Offer(old(Keys(nodes[..numnodes], id)), Dist(n.id, id), REPLY_NODES)
    ensures Sorted(Keys(nodes[..num], id))
    ensures forall j :: 0 <= j < num ==> nodes[j] in old(nodes[..numnodes]) || nodes[j] == Entry(n.id, n.addr)
  {
    hide Sorted, Keys, Offer;
    var r;
    ghost var was := nodes[..numnodes];
    r, num := InsertSorted(nodes, numnodes, Entry(n.id, n.addr), id);
    KnownFrom(was, n.id, n.addr);
  }

  lemma KnownFrom<T>(l: seq<Entry<T>>, id: Id, blank: T)
    ensures Known(l, id, blank) == blank || Entry(id, Known(l, id, blank)) in l
  {
  }

  /** Models buffer_closest_nodes. */
  method BufferClosestNodes(nodes: array<Entry<nat>>, numnodes: nat, id: Id, b: Bucket, now: int) returns (num: nat)
    requires nodes.Length == REPLY_NODES && numnodes <= REPLY_NODES && Sorted(Keys(nodes[..numnodes], id))
    modifies nodes
    ensures num <= REPLY_NODES && Sorted(Keys(nodes[..num], id))
    ensures Keys(nodes[..num], id) == OfferAll(old(Keys(nodes[..numnodes], id)), GoodKeys(b.nodes, now, id), REPLY_NODES)
    ensures forall j :: 0 <= j < num ==> nodes[j] in old(nodes[..numnodes]) || Speaks(nodes[j], b.nodes, now)
  {
    hide Sorted, Keys, Offer, OfferAll, GoodKeys, Speaks, NodeGood, Dist;
    num := numnodes;
    var k := 0;
    ghost var was, d := nodes[..numnodes], Keys(nodes[..numnodes], id);
    NoneGood(b.nodes, now, id, d);
    while k < |b.nodes|
      invariant k <= |b.nodes| && num <= REPLY_NODES && Sorted(Keys(nodes[..num], id))
      invariant Keys(nodes[..num], id) == OfferAll(d, GoodKeys(b.nodes[..k], now, id), REPLY_NODES)
      invariant forall j :: 0 <= j < num ==> nodes[j] in was || Speaks(nodes[j], b.nodes, now)
    {
      GoodKeysNext(b.nodes, k, now, id, d);
      if NodeGood(b.nodes[k], now) {
        num := InsertClosestNode(nodes, num, id, b.nodes[k]);
        GoodSpeaks(b.nodes, k, now);
      }
      k := k + 1;
    }
    assert b.nodes[..k] == b.nodes;
  }

  lemma NoneGood(ns: seq<Node>, now: int, ref: Id, d: seq<nat>)
    ensures OfferAll(d, GoodKeys(ns[..0], now, ref), REPLY_NODES) == d
  {
  }

  lemma GoodSpeaks(ns: seq<Node>, k: nat, now: int)
    requires k < |ns| && NodeGood(ns[k], now)
    ensures Speaks(Entry(ns[k].id, ns[k].addr), ns, now)
  {
    assert ns[k] in ns;
  }

  lemma GoodKeysNext(ns: seq<Node>, k: nat, now: int, ref: Id, d: seq<nat>)
    requires k < |ns|
    ensures var before := OfferAll(d, GoodKeys(ns[..k], now, ref), REPLY_NODES);
            OfferAll(d, GoodKeys(ns[..k + 1], now, ref), REPLY_NODES) ==
              if NodeGood(ns[k], now) then Offer(before, Dist(ns[k].id, ref), REPLY_NODES) else before
  {
    assert ns[..k + 1][..k] == ns[..k];
    var g := GoodKeys(ns[..k], now, ref);
    assert (g + [Dist(ns[k].id, ref)])[..|g|] == g;
    assert g + [] == g;
    hide Offer;
  }

  /** The keys send_closest_nodes selects: the target's bucket, then the next, then the previous. */
  ghost function Selected(bs: seq<Bucket>, target: Id, now: int): seq<nat>
    requires |bs| > 0
  {
    var i := Find(bs, target);
    var d0 := OfferAll([], GoodKeys(bs[i].nodes, now, target), REPLY_NODES);
    var d1 := if i + 1 < |bs| then OfferAll(d0, GoodKeys(bs[i + 1].nodes, now, target), REPLY_NODES) else d0;
    if i > 0 then OfferAll(d1, GoodKeys(bs[i - 1].nodes, now, target), REPLY_NODES) else d1
  }

  /** The good ids of these three buckets. */
  ghost function Nearby(bs: seq<Bucket>, target: Id, now: int): set<Id>
    requires |bs| > 0
  {
    var i := Find(bs, target);
    GoodIds(bs[i].nodes, now)
    + (if i + 1 < |bs| then GoodIds(bs[i + 1].nodes, now) else {})
    + (if i > 0 then GoodIds(bs[i - 1].nodes, now) else {})
  }

  /** Every entry is a good node of the table. */
  ghost predicate FromTable(l: seq<Entry<nat>>, bs: seq<Bucket>, now: int)
  {
    forall j :: 0 <= j < |l| ==> InTable(l[j], bs, now)
  }

  ghost predicate InTable(e: Entry<nat>, bs: seq<Bucket>, now: int)
  {
    exists k :: 0 <= k < |bs| && Speaks(e, bs[k].nodes, now)
  }

  lemma FromTableMore(l: seq<Entry<nat>>, m: seq<Entry<nat>>, bs: seq<Bucket>, k: nat, now: int)
    requires FromTable(l, bs, now) && k < |bs|
    requires forall j :: 0 <= j < |m| ==> m[j] in l || Speaks(m[j], bs[k].nodes, now)
    ensures FromTable(m, bs, now)
  {
    hide Speaks;
    forall j | 0 <= j < |m| ensures InTable(m[j], bs, now) {
      if m[j] in l {
        var i :| 0 <= i < |l| && l[i] == m[j];
        assert InTable(l[i], bs, now);
      } else {
        assert Speaks(m[j], bs[k].nodes, now);
      }
    }
  }

  /** Models the node selection of send_closest_nodes for one address family: the closest good
      nodes of three buckets, which are those of the table if the target's has eight. */
  method SendClosestNodes(t: RoutingTable, target: Id, now: int) returns (nodes: array<Entry<nat>>, num: nat)
    requires t.Valid()
    ensures fresh(nodes) && nodes.Length == REPLY_NODES && num <= REPLY_NODES
    ensures Closest(nodes[..num], Nearby(t.buckets, target, now), target, REPLY_NODES)
    ensures FromTable(nodes[..num], t.buckets, now)
    ensures |GoodIds(t.buckets[Find(t.buckets, target)].nodes, now)| >= REPLY_NODES ==>
              num == REPLY_NODES && Closest(nodes[..num], AllGoodIds(t.buckets, now), target, REPLY_NODES)
  {
    hide Keys, OfferAll, GoodKeys, Smallest, Speaks, FromTable, GoodIds, AllGoodIds, Nearby, Sorted, Dists, Good;
    nodes := new Entry<nat>[REPLY_NODES](i => Entry(ZERO, 0));
    var i := t.FindBucket(target);
    num := GatherThree(nodes, t.buckets, i, target, now);
    SelectedSmallest(t.buckets, target, now);
    if |GoodIds(t.buckets[i].nodes, now)| >= REPLY_NODES {
      SelectedIsClosest(t.buckets, t.myid, target, now);
    }
  }

  /** The three passes of that selection. */
  method GatherThree(nodes: array<Entry<nat>>, bs: seq<Bucket>, i: nat, target: Id, now: int) returns (num: nat)
    requires nodes.Length == REPLY_NODES && |bs| > 0 && i == Find(bs, target)
    modifies nodes
    ensures num <= REPLY_NODES && Keys(nodes[..num], target) == Selected(bs, target, now) && FromTable(nodes[..num], bs, now)
  {
    hide OfferAll, GoodKeys, Speaks, FromTable;
    NoEntries(nodes[..0], bs, target, now);
    hide Keys, Sorted;
    num := BufferClosestNodes(nodes, 0, target, bs[i], now);
    FromTableMore([], nodes[..num], bs, i, now);
    if i + 1 < |bs| {
      ghost var l := nodes[..num];
      num := BufferClosestNodes(nodes, num, target, bs[i + 1], now);
      FromTableMore(l, nodes[..num], bs, i + 1, now);
    }
    if i > 0 {
      ghost var l := nodes[..num];
      num := BufferClosestNodes(nodes, num, target, bs[i - 1], now);
      FromTableMore(l, nodes[..num], bs, i - 1, now);
    }
  }

  lemma NoEntries(l: seq<Entry<nat>>, bs: seq<Bucket>, ref: Id, now: int)
    requires l == []
    ensures Keys(l, ref) == [] && Sorted(Keys(l, ref)) && FromTable([], bs, now)
  {
  }

  // ------------------------------------------------- the selection is the closest

  lemma {:induction false} GoodKeysSet(ns: seq<Node>, now: int, ref: Id)
    ensures ToSet(GoodKeys(ns, now, ref)) == Dists(GoodIds(ns, now), ref)
    decreases |ns|
  {
    if ns != [] {
      var k := |ns| - 1;
      GoodKeysSet(ns[..k], now, ref);
      assert ns == ns[..k] + [ns[k]];
      var add := if NodeGood(ns[k], now) then {ns[k].id} else {};
      assert GoodIds(ns, now) == GoodIds(ns[..k], now) + add;
      assert Dists(GoodIds(ns, now), ref) == Dists(GoodIds(ns[..k], now), ref) + Dists(add, ref);
    }
  }

  lemma {:induction false} DistsSize(ids: set<Id>, ref: Id)
    ensures |Dists(ids, ref)| == |ids|
    decreases ids
  {
    if ids != {} {
      var x :| x in ids;
      var rest := ids - {x};
      DistsSize(rest, ref);
      forall y | y in rest ensures Dist(y, ref) != Dist(x, ref) {
        if Dist(y, ref) == Dist(x, ref) { DistInjective(y, x, ref); }
      }
      assert Dists(ids, ref) == Dists(rest, ref) + {Dist(x, ref)};
    }
  }

  /** Everything in the target's bucket is closer to it than anything in another bucket. */
  lemma BucketIsNear(bs: seq<Bucket>, target: Id, x: Id, j: nat, y: Id)
    requires Partition(bs) && j < |bs| && j != Find(bs, target)
    requires InBucket(bs, Find(bs, target), x) && InBucket(bs, j, y)
    ensures Dist(x, target) < Dist(y, target)
  {
    var i := Find(bs, target);
    FindIsTheBucket(bs, target, i);
    FindIsTheBucket(bs, y, i);
    FindIsTheBucket(bs, y, j);
    BucketIsPrefix(bs, i, target);
    BucketIsPrefix(bs, i, x);
    BucketIsPrefix(bs, i, y);
    PrefixIsDistance(x, target, Depth(bs, i));
    PrefixIsDistance(y, target, Depth(bs, i));
  }

  /** The three buckets give the 8 smallest of what they hold. */
  lemma SelectedSmallest(bs: seq<Bucket>, target: Id, now: int)
    requires |bs| > 0
    ensures Smallest(Selected(bs, target, now), Dists(Nearby(bs, target, now), target), REPLY_NODES)
  {
    hide OfferAll, GoodKeys, Dists, Smallest, GoodIds;
    var i := Find(bs, target);
    var ids0 := GoodIds(bs[i].nodes, now);
    var d0 := OfferAll([], GoodKeys(bs[i].nodes, now, target), REPLY_NODES);
    FirstSmallest(bs[i].nodes, target, now);
    var d1, ids1 := d0, ids0;
    if i + 1 < |bs| {
      MoreSmallest(bs[i + 1].nodes, d0, ids0, target, now);
      d1, ids1 := OfferAll(d0, GoodKeys(bs[i + 1].nodes, now, target), REPLY_NODES), ids0 + GoodIds(bs[i + 1].nodes, now);
    }
    if i > 0 { MoreSmallest(bs[i - 1].nodes, d1, ids1, target, now); }
    assert i + 1 >= |bs| ==> ids0 + {} == ids0;
    assert i == 0 ==> ids1 + {} == ids1;
  }

  lemma FirstSmallest(ns: seq<Node>, target: Id, now: int)
    ensures Smallest(OfferAll([], GoodKeys(ns, now, target), REPLY_NODES), Dists(GoodIds(ns, now), target), REPLY_NODES)
  {
    hide OfferAll, GoodKeys, GoodIds;
    OfferAllSmallest([], {}, GoodKeys(ns, now, target), REPLY_NODES);
    GoodKeysSet(ns, now, target);
    assert {} + Dists(GoodIds(ns, now), target) == Dists(GoodIds(ns, now), target);
  }

  lemma MoreSmallest(ns: seq<Node>, d: seq<nat>, ids: set<Id>, target: Id, now: int)
    requires Smallest(d, Dists(ids, target), REPLY_NODES)
    ensures Smallest(OfferAll(d, GoodKeys(ns, now, target), REPLY_NODES), Dists(ids + GoodIds(ns, now), target), REPLY_NODES)
  {
    hide OfferAll, GoodKeys, GoodIds, Smallest;
    OfferAllSmallest(d, Dists(ids, target), GoodKeys(ns, now, target), REPLY_NODES);
    GoodKeysSet(ns, now, target);
    assert Dists(ids + GoodIds(ns, now), target) == Dists(ids, target) + Dists(GoodIds(ns, now), target);
  }

  /** With eight good nodes in the target's bucket, the reply is the 8 closest good nodes of
      the whole table, although only three buckets are looked at. */
  lemma SelectedIsClosest(bs: seq<Bucket>, myid: Id, target: Id, now: int)
    requires Good(bs, myid)
    requires |GoodIds(bs[Find(bs, target)].nodes, now)| >= REPLY_NODES
    ensures Smallest(Selected(bs, target, now), Dists(AllGoodIds(bs, now), target), REPLY_NODES)
    ensures |Selected(bs, target, now)| == REPLY_NODES
  {
    hide Selected, OfferAll, GoodKeys, Smallest, Good;
    var i := Find(bs, target);
    var near, all := GoodIds(bs[i].nodes, now), AllGoodIds(bs, now);
    SelectedSmallest(bs, target, now);
    NearbyIn(bs, target, now);
    DistsSize(near, target);
    forall a, b | a in Dists(near, target) && b in Dists(all, target) && b !in Dists(near, target) ensures a < b {
      var x :| x in near && Dist(x, target) == a;
      var y :| y in all && Dist(y, target) == b;
      NearIsNearer(bs, myid, target, now, x, y);
    }
    hide Dists, GoodIds, AllGoodIds, Nearby;
    SmallestEnough(Selected(bs, target, now), Dists(near, target), Dists(Nearby(bs, target, now), target), Dists(all, target), REPLY_NODES);
    FullOfNear(Selected(bs, target, now), Dists(near, target), Dists(Nearby(bs, target, now), target), REPLY_NODES);
  }

  lemma NearbyIn(bs: seq<Bucket>, target: Id, now: int)
    requires |bs| > 0
    ensures var near, ids, all := GoodIds(bs[Find(bs, target)].nodes, now), Nearby(bs, target, now), AllGoodIds(bs, now);
            && near <= ids <= all && Dists(near, target) <= Dists(ids, target) <= Dists(all, target)
  {
  }

  /** A good node of the target's bucket is closer than a good node that is not in it. */
  lemma NearIsNearer(bs: seq<Bucket>, myid: Id, target: Id, now: int, x: Id, y: Id)
    requires Good(bs, myid) && x in GoodIds(bs[Find(bs, target)].nodes, now) && y in AllGoodIds(bs, now)
    requires Dist(y, target) !in Dists(GoodIds(bs[Find(bs, target)].nodes, now), target)
    ensures Dist(x, target) < Dist(y, target)
  {
    hide Partition, Dist, Contents;
    var i := Find(bs, target);
    var m :| m in bs[i].nodes && NodeGood(m, now) && m.id == x;
    var j, n :| 0 <= j < |bs| && n in bs[j].nodes && NodeGood(n, now) && n.id == y;
    assert GoodBucket(bs, i) && GoodBucket(bs, j);
    assert j != i;
    BucketIsNear(bs, target, x, j, y);
  }
}
