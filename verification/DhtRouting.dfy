/** The routing table's operations, as they update the bucket list in place. */
module DhtRouting {
  import opened Ids
  import opened DhtPartition
  import opened DhtTable
  import opened Options

  /** Models node_good. */
  predicate NodeGood(n: Node, now: int)
  {
    n.pinged <= 2 && n.replyTime >= now - 7200 && n.time >= now - 900
  }

  predicate Discardable(n: Node, now: int)
  {
    n.pinged >= 3 && n.pingedTime < now - 15
  }

  /** The nodes expire_buckets leaves in a bucket. */
  function Keep(ns: seq<Node>): seq<Node>
  {
    if ns == [] then [] else if ns[|ns| - 1].pinged >= 4 then Keep(ns[..|ns| - 1]) else Keep(ns[..|ns| - 1]) + [ns[|ns| - 1]]
  }

  function Expired(b: Bucket): Bucket
  {
    var k := Keep(b.nodes);
    b.(nodes := k, count := b.count - (|b.nodes| - |k|), cached := if |k| < |b.nodes| then None else b.cached)
  }

  /** A node that is in `m` with the freshness that `confirm` grants. */
  ghost predicate Recorded(m: multiset<Node>, id: Id, addr: nat, confirm: int, now: int)
  {
    exists n :: n in m && n.id == id
      && (confirm != 0 ==> n.addr == addr && n.time == now)
      && (confirm >= 2 ==> n.replyTime == now && n.pinged == 0)
  }

  // -------------------------------------------------------- list-level lemmas

  ghost function Depth0(bs: seq<Bucket>, myid: Id): nat
    requires |bs| > 0
  {
    Depth(bs, Find(bs, myid))
  }

  lemma SetNodeBag(ns: seq<Node>, k: nat, n: Node)
    requires k < |ns|
    ensures multiset(ns[k := n]) == multiset(ns) - multiset{ns[k]} + multiset{n}
  {
  }

  lemma SetNodeContents(bs: seq<Bucket>, i: nat, k: nat, n: Node, b: Bucket)
    requires i < |bs| && k < |bs[i].nodes| && b.nodes == bs[i].nodes[k := n]
    ensures multiset{bs[i].nodes[k]} <= Contents(bs)
    ensures Contents(bs[i := b]) == Contents(bs) - multiset{bs[i].nodes[k]} + multiset{n}
  {
    ContentsUpdate(bs, i, b);
    SetNodeBag(bs[i].nodes, k, n);
    assert multiset{bs[i].nodes[k]} <= multiset(bs[i].nodes);
  }

  /** Overwriting one node keeps a good table good if its id is new or unchanged. */
  lemma SetNodeGood(bs: seq<Bucket>, i: nat, k: nat, n: Node, b: Bucket, myid: Id)
    requires Good(bs, myid) && i < |bs| && k < |bs[i].nodes|
    requires InBucket(bs, i, n.id) && n.id != myid
    requires n.id == bs[i].nodes[k].id || !HasId(bs, n.id)
    requires b.nodes == bs[i].nodes[k := n] && b.first == bs[i].first && b.count == bs[i].count && b.maxCount == bs[i].maxCount
    ensures Good(bs[i := b], myid)
  {
    var was := bs[i].nodes[k];
    assert UniqueIds(Contents(bs[i := b])) && NoSelf(Contents(bs[i := b]), myid) by {
      SetNodeContents(bs, i, k, n, b);
      ReplaceUnique(Contents(bs), was, n, myid);
    }
    assert GoodBucket(bs, i);
    forall x | x in b.nodes ensures InBucket(bs, i, x.id) { assert x == n || x in bs[i].nodes; }
    UpdateGood(bs, i, b, myid);
  }

  lemma ReplaceUnique(m: multiset<Node>, was: Node, n: Node, myid: Id)
    requires UniqueIds(m) && NoSelf(m, myid) && was in m && n.id != myid
    requires n.id == was.id || forall x :: x in m ==> x.id != n.id
    ensures UniqueIds(m - multiset{was} + multiset{n}) && NoSelf(m - multiset{was} + multiset{n}, myid)
  {
  }

  lemma BackAgain(a: multiset<Node>, m: multiset<Node>)
    requires m <= a
    ensures a - m + m == a
  {
  }

  /** Changing only a bucket's time or cached address leaves the table good. */
  lemma TouchGood(bs: seq<Bucket>, i: nat, b: Bucket, myid: Id)
    requires Good(bs, myid) && i < |bs|
    requires b.nodes == bs[i].nodes && b.first == bs[i].first && b.count == bs[i].count && b.maxCount == bs[i].maxCount
    ensures Good(bs[i := b], myid) && Contents(bs[i := b]) == Contents(bs)
  {
    assert GoodBucket(bs, i);
    hide Contents, Partition, UniqueIds, NoSelf, InBucket;
    ContentsUpdate(bs, i, b);
    BackAgain(Contents(bs), multiset(b.nodes));
    UpdateGood(bs, i, b, myid);
  }

  /** Replacing a bucket without moving its start changes no depth and no search. */
  lemma UpdateDepth(bs: seq<Bucket>, i: nat, b: Bucket, id: Id)
    requires i < |bs| && b.first == bs[i].first
    ensures Find(bs[i := b], id) == Find(bs, id) && Depth0(bs[i := b], id) == Depth0(bs, id)
  {
    UpdateShape(bs, i, b);
    UpdateFindFrom(bs, i, b, 0, id);
  }

  /** A node dropped for lack of room stays without room when our own bucket is cut. */
  lemma CutFullForeign(bs: seq<Bucket>, i: nat, myid: Id, id: Id)
    requires Good(bs, myid) && i == Find(bs, myid) && Depth(bs, i) < BITS && FullForeign(bs, id, myid)
    requires |Cut(bs, i, myid)| == |bs| + 1
    ensures FullForeign(Cut(bs, i, myid), id, myid)
  {
    CutFind(bs, i, myid, id);
    CutFind(bs, i, myid, myid);
  }

  lemma UpdateFullForeign(bs: seq<Bucket>, i: nat, b: Bucket, myid: Id, id: Id)
    requires i < |bs| && b.first == bs[i].first && FullForeign(bs, id, myid)
    requires b.count >= bs[i].count && b.maxCount == bs[i].maxCount
    ensures FullForeign(bs[i := b], id, myid)
  {
    UpdateFindFrom(bs, i, b, 0, id);
    UpdateFindFrom(bs, i, b, 0, myid);
  }

  /** Whoever had no room still has none. */
  ghost predicate KeepsFull(bs: seq<Bucket>, bs': seq<Bucket>, myid: Id)
    requires |bs| > 0 && |bs'| > 0
  {
    forall id :: FullForeign(bs, id, myid) ==> FullForeign(bs', id, myid)
  }

  lemma CutKeepsFull(bs: seq<Bucket>, i: nat, myid: Id)
    requires Good(bs, myid) && i == Find(bs, myid) && Depth(bs, i) < BITS
    ensures |Cut(bs, i, myid)| == |bs| + 1 && KeepsFull(bs, Cut(bs, i, myid), myid)
  {
    CutPartition(bs, i, myid);
    forall id | FullForeign(bs, id, myid) ensures FullForeign(Cut(bs, i, myid), id, myid) { CutFullForeign(bs, i, myid, id); }
  }

  lemma UpdateKeepsFull(bs: seq<Bucket>, i: nat, b: Bucket, myid: Id)
    requires i < |bs| && b.first == bs[i].first && b.count >= bs[i].count && b.maxCount == bs[i].maxCount
    ensures KeepsFull(bs, bs[i := b], myid)
  {
    forall id | FullForeign(bs, id, myid) ensures FullForeign(bs[i := b], id, myid) { UpdateFullForeign(bs, i, b, myid, id); }
  }

  /** Cutting our own bucket deepens it by one level. */
  lemma CutDepth(bs: seq<Bucket>, i: nat, myid: Id)
    requires Good(bs, myid) && i == Find(bs, myid) && Depth(bs, i) < BITS
    ensures |Cut(bs, i, myid)| == |bs| + 1
    ensures Depth0(Cut(bs, i, myid), myid) == Depth0(bs, myid) + 1
  {
    CutPartition(bs, i, myid);
    CutFind(bs, i, myid, myid);
  }

  // ------------------------------------------------------ re-inserting nodes

  /** The invariant of split_bucket's loop: every old node is in the table, in hand, still
      pending, or freed, and a freed node found a full bucket that is not ours, unless memory
      ran out. */
  ghost predicate Splitting(bs: seq<Bucket>, n: Option<Node>, nodes: seq<Node>, freed: seq<Node>, all: multiset<Node>, myid: Id, starved: bool)
  {
    && Good(bs, myid)
    && Contents(bs) + InHand(n) + multiset(nodes) + multiset(freed) == all
    && UniqueIds(all) && NoSelf(all, myid)
    && forall f :: f in freed ==> starved || FullForeign(bs, f.id, myid)
  }

  ghost function InHand(n: Option<Node>): multiset<Node> { if n.Some? then multiset{n.value} else multiset{} }

  lemma SplittingTake(bs: seq<Bucket>, nodes: seq<Node>, freed: seq<Node>, all: multiset<Node>, myid: Id, starved: bool)
    requires Splitting(bs, None, nodes, freed, all, myid, starved) && nodes != []
    ensures Splitting(bs, Some(nodes[0]), nodes[1..], freed, all, myid, starved)
  {
    hide Good, Contents, UniqueIds, NoSelf, FullForeign;
    var head, tail := [nodes[0]], nodes[1..];
    assert multiset(nodes) == multiset(head) + multiset(tail) by { assert nodes == head + tail; }
  }

  lemma SplittingHead(bs: seq<Bucket>, n: Node, nodes: seq<Node>, freed: seq<Node>, all: multiset<Node>, myid: Id, starved: bool)
    requires Splitting(bs, Some(n), nodes, freed, all, myid, starved)
    ensures n.id != myid && UniqueIds(Contents(bs) + multiset{n})
  {
    assert n in all;
    SubUnique(Contents(bs) + multiset{n}, all, myid);
  }

  lemma SplittingInsert(bs: seq<Bucket>, n: Node, nodes: seq<Node>, freed: seq<Node>, all: multiset<Node>, myid: Id, starved: bool)
    requires Splitting(bs, Some(n), nodes, freed, all, myid, starved)
    requires bs[Find(bs, n.id)].count < bs[Find(bs, n.id)].maxCount
    ensures Splitting(Insert(bs, Find(bs, n.id), n), None, nodes, freed, all, myid, starved)
    ensures Depth0(Insert(bs, Find(bs, n.id), n), myid) == Depth0(bs, myid)
    ensures KeepsFull(bs, Insert(bs, Find(bs, n.id), n), myid)
  {
    var i := Find(bs, n.id);
    var b := Insert(bs, i, n)[i];
    SplittingHead(bs, n, nodes, freed, all, myid, starved);
    FindIsTheBucket(bs, n.id, i);
    InsertGood(bs, i, n, myid);
    ContentsInsert(bs, i, n);
    UpdateDepth(bs, i, b, myid);
    UpdateKeepsFull(bs, i, b, myid);
  }

  lemma SplittingFree(bs: seq<Bucket>, n: Node, nodes: seq<Node>, freed: seq<Node>, all: multiset<Node>, myid: Id, starved: bool)
    requires Splitting(bs, Some(n), nodes, freed, all, myid, starved) && (starved || FullForeign(bs, n.id, myid))
    ensures Splitting(bs, None, nodes, freed + [n], all, myid, starved)
  {
    assert multiset(freed + [n]) == multiset(freed) + multiset{n};
  }

  lemma SplittingCut(bs: seq<Bucket>, n: Option<Node>, nodes: seq<Node>, freed: seq<Node>, all: multiset<Node>, myid: Id, starved: bool)
    requires Splitting(bs, n, nodes, freed, all, myid, starved) && Depth0(bs, myid) < BITS
    ensures var i := Find(bs, myid);
            && Splitting(Cut(bs, i, myid), n, nodes + bs[i].nodes, freed, all, myid, starved)
            && Depth0(Cut(bs, i, myid), myid) == Depth0(bs, myid) + 1
            && KeepsFull(bs, Cut(bs, i, myid), myid)
  {
    var i := Find(bs, myid);
    hide Good, Contents, Cut, UniqueIds, NoSelf, FullForeign, Find, Depth;
    CutGood(bs, i, myid);
    CutContents(bs, i, myid);
    CutDepth(bs, i, myid);
    assert multiset(nodes + bs[i].nodes) == multiset(nodes) + multiset(bs[i].nodes);
    CutKeepsFull(bs, i, myid);
  }

  lemma SplittingStart(bs: seq<Bucket>, myid: Id)
    requires Good(bs, myid)
    ensures |bs| > 0 && Splitting(bs, None, [], [], Contents(bs), myid, false)
  {
    hide Contents, UniqueIds, NoSelf;
  }

  lemma SplittingSome(bs: seq<Bucket>, n: Option<Node>, nodes: seq<Node>, freed: seq<Node>, all: multiset<Node>, myid: Id, starved: bool)
    requires Splitting(bs, n, nodes, freed, all, myid, starved)
    ensures |bs| > 0
  {
  }

  lemma SplittingEnd(bs: seq<Bucket>, freed: seq<Node>, all: multiset<Node>, myid: Id, starved: bool)
    requires Splitting(bs, None, [], freed, all, myid, starved)
    ensures Good(bs, myid) && |bs| > 0 && Contents(bs) + multiset(freed) == all
    ensures forall f :: f in freed ==> starved || FullForeign(bs, f.id, myid)
  {
    hide Contents, UniqueIds, NoSelf, FullForeign;
  }

  lemma OwnBucket(bs: seq<Bucket>, i: nat, myid: Id)
    requires Good(bs, myid) && i < |bs|
    ensures InBucket(bs, i, myid) <==> i == Find(bs, myid)
    ensures i == Find(bs, myid) ==> Depth(bs, i) == Depth0(bs, myid)
  {
    FindIsTheBucket(bs, myid, i);
  }

  lemma KeepsFullTwice(a: seq<Bucket>, b: seq<Bucket>, c: seq<Bucket>, myid: Id)
    requires |a| > 0 && |b| > 0 && |c| > 0 && (b == a || KeepsFull(a, b, myid)) && (c == b || KeepsFull(b, c, myid))
    ensures KeepsFull(a, c, myid)
  {
  }

  /** Running out of memory later takes nothing back. */
  lemma SplittingLater(bs: seq<Bucket>, n: Option<Node>, nodes: seq<Node>, freed: seq<Node>, all: multiset<Node>, myid: Id, was: bool, starved: bool)
    requires Splitting(bs, n, nodes, freed, all, myid, was) && (was ==> starved)
    ensures Splitting(bs, n, nodes, freed, all, myid, starved)
  {
    hide Good, Contents, UniqueIds, NoSelf, FullForeign;
  }

  lemma GrownLater(before: seq<Bucket>, bs: seq<Bucket>, freed: seq<Node>, myid: Id, was: bool, starved: bool)
    requires Grown(before, bs, freed, myid, was) && (was ==> starved)
    ensures Grown(before, bs, freed, myid, starved)
  {
    hide Good, Contents, FullForeign;
  }

  /** Our own bucket can still be cut as long as a node other than ourselves falls in it. */
  lemma OwnBucketCuts(bs: seq<Bucket>, n: Node, myid: Id)
    requires Partition(bs) && n.id != myid && Find(bs, n.id) == Find(bs, myid)
    ensures Depth0(bs, myid) < BITS
  {
    var i := Find(bs, myid);
    FindIsTheBucket(bs, n.id, i);
    FindIsTheBucket(bs, myid, i);
    if Depth(bs, i) == BITS { DeepestBucket(bs, i, n.id, myid); }
  }

  // ------------------------------------------------------------ a full bucket

  /** A node that new_node may ping when it finds no room. */
  predicate Stale(n: Node, now: int) { !NodeGood(n, now) && n.pingedTime < now - 15 }

  /** The first stale node, or the end of the list if there is none. */
  ghost predicate FirstStale(nodes: seq<Node>, k: nat, now: int)
  {
    k <= |nodes| && (k < |nodes| ==> Stale(nodes[k], now)) && forall j :: 0 <= j < k ==> !Stale(nodes[j], now)
  }

  /** The bucket after node k has been pinged and the address cached. */
  function Waiting(b: Bucket, k: nat, addr: nat, confirm: int, now: int): Bucket
  {
    var c := if k < |b.nodes| then b.(nodes := b.nodes[k := b.nodes[k].(pinged := b.nodes[k].pinged + 1, pingedTime := now)]) else b;
    if confirm != 0 || b.cached.None? then c.(cached := Some(addr)) else c
  }

  lemma WaitingNodes(b: Bucket, k: nat, addr: nat, confirm: int, now: int)
    requires k <= |b.nodes|
    ensures var c := Waiting(b, k, addr, confirm, now);
            && c.first == b.first && c.count == b.count && c.maxCount == b.maxCount
            && (k == |b.nodes| ==> c.nodes == b.nodes)
            && (k < |b.nodes| ==> exists n: Node :: n.id == b.nodes[k].id && c.nodes == b.nodes[k := n])
  {
    if k < |b.nodes| {
      var n := b.nodes[k].(pinged := b.nodes[k].pinged + 1, pingedTime := now);
      assert n.id == b.nodes[k].id;
    }
  }

  // ------------------------------------------------------------ learning a node

  /** What learning about `id` may do to the set of known nodes: nothing but `id` is added,
      and a node goes only if it was bad, if its bucket is full and not ours, or if memory ran out. */
  ghost predicate Learnt(before: seq<Bucket>, after: seq<Bucket>, id: Id, now: int, myid: Id, starved: bool)
    requires |after| > 0
  {
    && (forall x :: HasId(after, x) ==> x == id || HasId(before, x))
    && (forall n :: n in Contents(before) && !HasId(after, n.id) ==> Discardable(n, now) || starved || FullForeign(after, n.id, myid))
  }

  /** The table after some number of splits. */
  ghost predicate Grown(before: seq<Bucket>, bs: seq<Bucket>, freed: seq<Node>, myid: Id, starved: bool)
  {
    && Good(bs, myid)
    && Contents(bs) + multiset(freed) == Contents(before)
    && forall f :: f in freed ==> starved || FullForeign(bs, f.id, myid)
  }

  lemma GrownSplit(before: seq<Bucket>, bs: seq<Bucket>, freed: seq<Node>, bs': seq<Bucket>, more: seq<Node>, myid: Id, starved: bool)
    requires Grown(before, bs, freed, myid, starved) && Good(bs', myid)
    requires Contents(bs') + multiset(more) == Contents(bs)
    requires forall f :: f in more ==> starved || FullForeign(bs', f.id, myid)
    requires KeepsFull(bs, bs', myid)
    ensures Grown(before, bs', freed + more, myid, starved)
  {
    assert multiset(freed + more) == multiset(freed) + multiset(more);
  }

  lemma GrownGood(before: seq<Bucket>, bs: seq<Bucket>, freed: seq<Node>, myid: Id, starved: bool)
    requires Grown(before, bs, freed, myid, starved)
    ensures Good(bs, myid) && |bs| > 0
  {
  }

  lemma FoundIn(bs: seq<Bucket>, id: Id, myid: Id)
    requires Good(bs, myid)
    ensures InBucket(bs, Find(bs, id), id)
  {
    FindIsTheBucket(bs, id, Find(bs, id));
  }

  /** A node of a good table is in its bucket's range and is not ourselves. */
  lemma GoodNode(bs: seq<Bucket>, i: nat, k: nat, myid: Id)
    requires Good(bs, myid) && i < |bs| && k < |bs[i].nodes|
    ensures InBucket(bs, i, bs[i].nodes[k].id) && bs[i].nodes[k].id != myid
  {
    hide Contents, Partition;
    var n := bs[i].nodes[k];
    assert n in bs[i].nodes && GoodBucket(bs, i);
    ContentsMember(bs, n);
  }

  lemma RecordedIn(bs: seq<Bucket>, n: Node, addr: nat, confirm: int, now: int)
    requires n in Contents(bs) && (confirm != 0 ==> n.addr == addr && n.time == now) && (confirm >= 2 ==> n.replyTime == now && n.pinged == 0)
    ensures Recorded(Contents(bs), n.id, addr, confirm, now) && HasId(bs, n.id)
  {
    hide Contents;
  }

  lemma GrownTouch(before: seq<Bucket>, bs: seq<Bucket>, freed: seq<Node>, i: nat, b: Bucket, myid: Id, starved: bool)
    requires Grown(before, bs, freed, myid, starved) && i < |bs|
    requires b.nodes == bs[i].nodes && b.first == bs[i].first && b.count == bs[i].count && b.maxCount == bs[i].maxCount
    ensures Grown(before, bs[i := b], freed, myid, starved)
  {
    TouchGood(bs, i, b, myid);
    UpdateKeepsFull(bs, i, b, myid);
  }

  lemma GrownLearnt(before: seq<Bucket>, bs: seq<Bucket>, freed: seq<Node>, id: Id, now: int, myid: Id, starved: bool)
    requires Grown(before, bs, freed, myid, starved)
    ensures Learnt(before, bs, id, now, myid, starved)
  {
    forall x | HasId(bs, x) ensures HasId(before, x) {
      var n :| n in Contents(bs) && n.id == x;
      assert n in Contents(before);
    }
    forall n | n in Contents(before) && !HasId(bs, n.id) ensures starved || FullForeign(bs, n.id, myid) {
      assert n !in Contents(bs);
      assert n in multiset(freed);
    }
  }

  /** Adding `n`, or putting it in the place of `was`, is a way of learning about `id`. */
  lemma LearntStep(before: seq<Bucket>, bs: seq<Bucket>, freed: seq<Node>, c: seq<Bucket>, was: Option<Node>, n: Node, id: Id, now: int, myid: Id, starved: bool)
    requires Grown(before, bs, freed, myid, starved) && |c| > 0 && KeepsFull(bs, c, myid)
    requires InHand(was) <= Contents(bs) && Contents(c) == Contents(bs) - InHand(was) + multiset{n}
    requires n.id == id || (was.Some? && was.value.id == n.id)
    requires was.Some? ==> was.value.id == n.id || Discardable(was.value, now)
    ensures Learnt(before, c, id, now, myid, starved) && n in Contents(c)
  {
    forall x | HasId(c, x) && x != id ensures HasId(before, x) {
      var m :| m in Contents(c) && m.id == x;
      if m == n {
        assert was.value in Contents(bs) && was.value in Contents(before);
      } else {
        assert m in Contents(bs) && m in Contents(before);
      }
    }
    forall m | m in Contents(before) && !HasId(c, m.id) ensures Discardable(m, now) || starved || FullForeign(c, m.id, myid) {
      assert m !in Contents(c) && m.id != n.id;
      if m in Contents(bs) {
        assert was.Some? && m == was.value;
      } else {
        assert m in multiset(freed);
      }
    }
  }

  lemma AddUnique(m: multiset<Node>, n: Node)
    requires UniqueIds(m) && forall x :: x in m ==> x.id != n.id
    ensures UniqueIds(m + multiset{n})
  {
  }

  lemma LearntInsert(before: seq<Bucket>, bs: seq<Bucket>, freed: seq<Node>, i: nat, n: Node, now: int, myid: Id, starved: bool)
    requires Grown(before, bs, freed, myid, starved) && i < |bs| && InBucket(bs, i, n.id)
    requires bs[i].count < bs[i].maxCount && n.id != myid && !HasId(bs, n.id)
    ensures Good(Insert(bs, i, n), myid) && Learnt(before, Insert(bs, i, n), n.id, now, myid, starved)
    ensures n in Contents(Insert(bs, i, n))
  {
    var c := Insert(bs, i, n);
    assert Good(c, myid) by {
      AddUnique(Contents(bs), n);
      InsertGood(bs, i, n, myid);
    }
    UpdateKeepsFull(bs, i, c[i], myid);
    ContentsInsert(bs, i, n);
    LearntStep(before, bs, freed, c, None, n, n.id, now, myid, starved);
  }

  lemma LearntSet(before: seq<Bucket>, bs: seq<Bucket>, freed: seq<Node>, i: nat, k: nat, n: Node, b: Bucket, id: Id, now: int, myid: Id, starved: bool)
    requires Grown(before, bs, freed, myid, starved) && i < |bs| && k < |bs[i].nodes|
    requires InBucket(bs, i, n.id) && n.id != myid
    requires n.id == bs[i].nodes[k].id || (n.id == id && !HasId(bs, id) && Discardable(bs[i].nodes[k], now))
    requires b.nodes == bs[i].nodes[k := n] && b.first == bs[i].first && b.count == bs[i].count && b.maxCount == bs[i].maxCount
    ensures Good(bs[i := b], myid) && Learnt(before, bs[i := b], id, now, myid, starved)
    ensures n in Contents(bs[i := b])
  {
    SetNodeGood(bs, i, k, n, b, myid);
    SetNodeContents(bs, i, k, n, b);
    UpdateKeepsFull(bs, i, b, myid);
    LearntStep(before, bs, freed, bs[i := b], Some(bs[i].nodes[k]), n, id, now, myid, starved);
  }

  /** Pinging a node or caching an address adds and removes nobody. */
  lemma LearntNothing(before: seq<Bucket>, bs: seq<Bucket>, freed: seq<Node>, i: nat, k: nat, c: Bucket, id: Id, now: int, myid: Id, starved: bool)
    requires Grown(before, bs, freed, myid, starved) && i < |bs| && k <= |bs[i].nodes| && !HasId(bs, id)
    requires c.first == bs[i].first && c.count == bs[i].count && c.maxCount == bs[i].maxCount
    requires k == |bs[i].nodes| ==> c.nodes == bs[i].nodes
    requires k < |bs[i].nodes| ==>
               exists n: Node :: n.id == bs[i].nodes[k].id && c.nodes == bs[i].nodes[k := n]
    ensures Good(bs[i := c], myid) && Learnt(before, bs[i := c], id, now, myid, starved) && !HasId(bs[i := c], id)
  {
    if k < |bs[i].nodes| {
      var was := bs[i].nodes[k];
      var n: Node :| n.id == was.id && c.nodes == bs[i].nodes[k := n];
      assert was in bs[i].nodes && GoodBucket(bs, i);
      ContentsMember(bs, was);
      LearntSet(before, bs, freed, i, k, n, c, id, now, myid, starved);
      SetNodeContents(bs, i, k, n, c);
    } else {
      GrownTouch(before, bs, freed, i, c, myid, starved);
      TouchGood(bs, i, c, myid);
      GrownLearnt(before, bs[i := c], freed, id, now, myid, starved);
    }
  }

  // ------------------------------------------------------------------- expiry

  lemma {:induction false} KeepMember(ns: seq<Node>)
    ensures multiset(Keep(ns)) <= multiset(ns) && |Keep(ns)| <= |ns|
    ensures forall n :: n in Keep(ns) <==> n in ns && n.pinged < 4
    decreases |ns|
  {
    if ns != [] {
      var m := |ns| - 1;
      KeepMember(ns[..m]);
      assert ns == ns[..m] + [ns[m]];
    }
  }

  lemma ExpireOne(bs: seq<Bucket>, i: nat, myid: Id)
    requires Good(bs, myid) && i < |bs|
    ensures Good(bs[i := Expired(bs[i])], myid)
    ensures Contents(bs[i := Expired(bs[i])]) == Contents(bs) - multiset(bs[i].nodes) + multiset(Keep(bs[i].nodes)) <= Contents(bs)
  {
    var b := Expired(bs[i]);
    KeepMember(bs[i].nodes);
    ContentsUpdate(bs, i, b);
    assert GoodBucket(bs, i);
    SubUnique(Contents(bs[i := b]), Contents(bs), myid);
    UpdateGood(bs, i, b, myid);
  }

  /** Expiring every bucket leaves exactly the nodes with fewer than four unanswered pings. */
  lemma ExpiredContents(bs: seq<Bucket>, after: seq<Bucket>)
    requires |after| == |bs| && forall j :: 0 <= j < |bs| ==> after[j] == Expired(bs[j])
    ensures forall n :: n in Contents(after) <==> n in Contents(bs) && n.pinged < 4
  {
    forall n ensures n in Contents(after) <==> n in Contents(bs) && n.pinged < 4 {
      ContentsMember(bs, n);
      ContentsMember(after, n);
      forall j | 0 <= j < |bs| ensures n in after[j].nodes <==> n in bs[j].nodes && n.pinged < 4 {
        KeepMember(bs[j].nodes);
      }
    }
  }

  class RoutingTable {
    var buckets: seq<Bucket>
    const myid: Id
    // Whether the n-th allocation succeeds, and how many there have been.
    const memory: nat -> bool
    var allocs: nat

    ghost predicate Valid()
      reads this
    {
      Good(buckets, myid)
    }

    /** An allocation has failed since `from`. */
    ghost predicate Failed(from: nat)
      reads this`allocs
    {
      exists k: nat :: from <= k < allocs && !memory(k)
    }

    /** Models calloc. */
    method Allocate() returns (ok: bool)
      modifies this`allocs
      ensures allocs == old(allocs) + 1 && ok == memory(old(allocs))
    {
      ok := memory(allocs);
      allocs := allocs + 1;
    }

    /** Models dht_init: one bucket for the whole id space, with room for 128 nodes. */
    constructor (id: Id, memory: nat -> bool)
      ensures Valid() && myid == id && this.memory == memory && allocs == 0
      ensures Contents(buckets) == multiset{} && |buckets| == 1 && buckets[0].maxCount == 128
    {
      myid, this.memory, allocs := id, memory, 0;
      buckets := [Bucket(ZERO, 0, 128, 0, [], None)];
      new;
      NumZero(ZERO);
      LastSetUnique(ZERO, -1);
      assert BlockAt(buckets, 0);
      assert buckets[..0] == [];
      assert Contents(buckets) == Contents(buckets[..0]) + multiset(buckets[0].nodes);
      assert GoodBucket(buckets, 0);
    }

    /** Models find_bucket: the one bucket whose range holds the id. */
    method FindBucket(id: Id) returns (i: nat)
      requires Valid()
      ensures i == Find(buckets, id) < |buckets|
      ensures InBucket(buckets, i, id)
    {
      i := 0;
      while i + 1 < |buckets| && Num(id) >= Num(buckets[i + 1].first)
        invariant 0 <= i < |buckets|
        invariant FindFrom(buckets, i, id) == Find(buckets, id)
      {
        i := i + 1;
      }
      FindIsTheBucket(buckets, id, i);
    }

    /** Models bucket_middle: fails only for a bucket that holds a single id. */
    method BucketMiddle(i: nat) returns (r: Option<Id>)
      requires Valid() && i < |buckets|
      ensures r.None? <==> Bound(buckets, i + 1) == Num(buckets[i].first) + 1
      ensures r.None? <==> Depth(buckets, i) == BITS
      ensures r.Some? ==> Depth(buckets, i) < BITS && r.value == Middle(buckets, i)
      ensures r.Some? ==> 2 * Num(r.value) == Num(buckets[i].first) + Bound(buckets, i + 1)
    {
      var bit1 := LastSet(buckets[i].first);
      var bit2 := if i + 1 < |buckets| then LastSet(buckets[i + 1].first) else -1;
      var bit := Max(bit1, bit2) + 1;
      assert BlockAt(buckets, i);
      if bit >= BITS {
        return None;
      }
      Pow2Positive(BITS - bit - 1);
      MiddleIsMidpoint(buckets, i);
      return Some(buckets[i].first[bit := true]);
    }

    /** Models split_bucket_helper: cuts our own bucket and takes its nodes out. */
    method SplitBucketHelper(i: nat) returns (ok: bool, taken: seq<Node>)
      requires Valid() && i < |buckets|
      modifies this
      ensures Valid() && old(allocs) <= allocs
      ensures ok <==> old(InBucket(buckets, i, myid) && Depth(buckets, i) < BITS) && !Failed(old(allocs))
      ensures allocs == old(allocs) + if old(InBucket(buckets, i, myid) && Depth(buckets, i) < BITS) then 1 else 0
      ensures !ok ==> buckets == old(buckets) && taken == []
      ensures ok ==> old(Depth(buckets, i) < BITS) && buckets == Cut(old(buckets), i, myid) && taken == old(buckets[i].nodes)
    {
      taken := [];
      if !InBucket(buckets, i, myid) {
        return false, [];
      }
      var mid := BucketMiddle(i);
      if mid.None? {
        return false, [];
      }
      var room := Allocate();
      if !room {
        return false, [];
      }
      var b := buckets[i];
      taken := b.nodes;
      var upper := Bucket(mid.value, 0, 0, b.time, [], None);
      b := b.(nodes := [], count := 0, cached := None);
      if Num(b.first) <= Num(myid) < Num(upper.first) {
        upper := upper.(maxCount := b.maxCount);
        b := b.(maxCount := Max(b.maxCount / 2, 8));
      } else {
        upper := upper.(maxCount := Max(b.maxCount / 2, 8));
      }
      CutGood(buckets, i, myid);
      buckets := buckets[..i] + [b, upper] + buckets[i + 1..];
      ok := true;
    }

    /** Models insert_node: 1 if the node went in, 0 if its bucket is full. */
    method InsertNode(n: Node) returns (inserted: bool, i: nat)
      requires Valid()
      requires UniqueIds(Contents(buckets) + multiset{n}) && n.id != myid
      modifies this
      ensures Valid() && allocs == old(allocs)
      ensures i == Find(old(buckets), n.id) < old(|buckets|) == |buckets|
      ensures inserted <==> old(buckets)[i].count < old(buckets)[i].maxCount
      ensures inserted ==> buckets == Insert(old(buckets), i, n) && Contents(buckets) == old(Contents(buckets)) + multiset{n}
      ensures !inserted ==> buckets == old(buckets)
    {
      i := FindBucket(n.id);
      if buckets[i].count >= buckets[i].maxCount {
        return false, i;
      }
      InsertGood(buckets, i, n, myid);
      ContentsInsert(buckets, i, n);
      buckets := Insert(buckets, i, n);
      inserted := true;
    }

    /** Models split_bucket: cuts our own bucket, then re-inserts the nodes taken out of it,
        cutting again whenever one of them falls into our own bucket and finds it full.  A node
        is freed only if its bucket is full and not ours, or if memory runs out. */
    method SplitBucket(i: nat) returns (ok: bool, ghost freed: seq<Node>)
      requires Valid() && i < |buckets|
      modifies this
      ensures Valid() && old(allocs) <= allocs
      ensures ok <==> old(InBucket(buckets, i, myid) && Depth(buckets, i) < BITS) && memory(old(allocs))
      ensures !ok ==> buckets == old(buckets)
      ensures Contents(buckets) + multiset(freed) == old(Contents(buckets))
      ensures forall f :: f in freed ==> Failed(old(allocs)) || FullForeign(buckets, f.id, myid)
      ensures ok ==> Depth0(buckets, myid) > old(Depth0(buckets, myid))
      ensures KeepsFull(old(buckets), buckets, myid)
    {
      hide Cut, Depth, FullForeign, KeepsFull, Splitting, Contents, Good, Partition, InBucket;
      freed := [];
      ghost var from, all, was := allocs, Contents(buckets), buckets;
      OwnBucket(buckets, i, myid);
      SplittingStart(buckets, myid);
      if Depth0(buckets, myid) < BITS { SplittingCut(buckets, None, [], [], all, myid, false); }
      var nodes: seq<Node>;
      ok, nodes := SplitBucketHelper(i);
      if ok {
        assert [] + nodes == nodes;
        ghost var cut := buckets;
        SplittingLater(buckets, None, nodes, [], all, myid, false, Failed(from));
        freed := ReinsertAll(nodes, all, from);
        KeepsFullTwice(was, cut, buckets, myid);
      } else {
        KeepsFullTwice(was, was, was, myid);
        assert multiset(freed) == multiset{};
      }
    }

    /** The loop of split_bucket. */
    method ReinsertAll(taken: seq<Node>, ghost all: multiset<Node>, ghost from: nat) returns (ghost freed: seq<Node>)
      requires from <= allocs && Splitting(buckets, None, taken, [], all, myid, Failed(from))
      modifies this
      ensures Valid() && old(allocs) <= allocs && Contents(buckets) + multiset(freed) == all
      ensures forall f :: f in freed ==> Failed(from) || FullForeign(buckets, f.id, myid)
      ensures old(|buckets|) > 0 && Depth0(buckets, myid) >= old(Depth0(buckets, myid))
      ensures KeepsFull(old(buckets), buckets, myid)
    {
      SplittingSome(buckets, None, taken, [], all, myid, Failed(from));
      hide Good, Contents, FullForeign, Depth0, UniqueIds, NoSelf, Failed, KeepsFull, Splitting;
      freed := [];
      var nodes := taken;
      var n: Option<Node> := None;
      ghost var start, depth := buckets, Depth0(buckets, myid);
      KeepsFullTwice(start, start, start, myid);
      while n.Some? || nodes != []
        invariant old(allocs) <= allocs && |buckets| > 0
        invariant Splitting(buckets, n, nodes, freed, all, myid, Failed(from))
        invariant depth <= Depth0(buckets, myid) && KeepsFull(start, buckets, myid)
        decreases BITS - Depth0(buckets, myid), |nodes| + if n.Some? then 1 else 0
      {
        if n.None? {
          SplittingTake(buckets, nodes, freed, all, myid, Failed(from));
          n, nodes := Some(nodes[0]), nodes[1..];
        }
        ghost var was := buckets;
        n, nodes, freed := Reinsert(n.value, nodes, freed, all, from);
        KeepsFullTwice(start, was, buckets, myid);
      }
      SplittingEnd(buckets, freed, all, myid, Failed(from));
    }

    /** One round of that loop. */
    method Reinsert(n: Node, nodes: seq<Node>, ghost freed: seq<Node>, ghost all: multiset<Node>, ghost from: nat)
      returns (left: Option<Node>, nodes': seq<Node>, ghost freed': seq<Node>)
      requires from <= allocs && Splitting(buckets, Some(n), nodes, freed, all, myid, Failed(from))
      modifies this
      ensures old(allocs) <= allocs && Splitting(buckets, left, nodes', freed', all, myid, Failed(from))
      ensures |buckets| > 0 && old(|buckets|) > 0 && KeepsFull(old(buckets), buckets, myid)
      ensures Depth0(buckets, myid) > old(Depth0(buckets, myid))
           || (Depth0(buckets, myid) == old(Depth0(buckets, myid)) && left.None? && nodes' == nodes)
    {
      freed', nodes', left := freed, nodes, None;
      SplittingHead(buckets, n, nodes, freed, all, myid, Failed(from));
      if buckets[Find(buckets, n.id)].count < buckets[Find(buckets, n.id)].maxCount {
        SplittingInsert(buckets, n, nodes, freed, all, myid, Failed(from));
      }
      var inserted, i := InsertNode(n);
      if !inserted {
        FindIsTheBucket(buckets, myid, i);
        if !InBucket(buckets, i, myid) {
          SplittingFree(buckets, n, nodes, freed, all, myid, Failed(from));
          freed' := freed + [n];
        } else {
          OwnBucketCuts(buckets, n, myid);
          ghost var was := Failed(from);
          SplittingCut(buckets, Some(n), nodes, freed, all, myid, was);
          var ok, more := SplitBucketHelper(i);
          if !ok {
            SplittingLater(buckets, Some(n), nodes, freed, all, myid, was, Failed(from));
            SplittingFree(buckets, n, nodes, freed, all, myid, Failed(from));
            freed' := freed + [n];
          } else {
            SplittingLater(buckets, Some(n), nodes + more, freed, all, myid, was, Failed(from));
            left, nodes' := Some(n), nodes + more;
          }
        }
      }
    }

    /** Looks a known node up in bucket i. */
    method LookUp(i: nat, id: Id) returns (k: nat)
      requires Valid() && i == Find(buckets, id)
      ensures k <= |buckets[i].nodes|
      ensures k < |buckets[i].nodes| ==> buckets[i].nodes[k].id == id
      ensures k == |buckets[i].nodes| <==> !HasId(buckets, id)
    {
      k := 0;
      var nodes := buckets[i].nodes;
      while k < |nodes| && nodes[k].id != id
        invariant k <= |nodes|
        invariant forall j :: 0 <= j < k ==> nodes[j].id != id
      {
        k := k + 1;
      }
      HasIdBucket(buckets, myid, id);
      if k < |nodes| { assert nodes[k] in nodes; }
    }

    /** Pings the first dubious node of a full bucket, if one has not been pinged lately. */
    method PingDubious(nodes: seq<Node>, now: int) returns (dubious: bool, k: nat)
      ensures dubious <==> exists n :: n in nodes && !NodeGood(n, now)
      ensures FirstStale(nodes, k, now)
    {
      dubious, k := false, 0;
      while k < |nodes|
        invariant k <= |nodes| && forall j :: 0 <= j < k ==> !Stale(nodes[j], now)
        invariant dubious <==> exists n :: n in nodes[..k] && !NodeGood(n, now)
      {
        assert nodes[..k + 1] == nodes[..k] + [nodes[k]];
        if !NodeGood(nodes[k], now) {
          dubious := true;
          if nodes[k].pingedTime < now - 15 {
            assert nodes[k] in nodes;
            return;
          }
        }
        k := k + 1;
      }
      assert nodes[..k] == nodes;
    }

    /** The first node that may be overwritten. */
    method FindBad(nodes: seq<Node>, now: int) returns (k: nat)
      ensures k <= |nodes| && (k < |nodes| ==> Discardable(nodes[k], now))
      ensures forall j :: 0 <= j < k ==> !Discardable(nodes[j], now)
    {
      k := 0;
      while k < |nodes| && !Discardable(nodes[k], now)
        invariant k <= |nodes| && forall j :: 0 <= j < k ==> !Discardable(nodes[j], now)
      {
        k := k + 1;
      }
    }

    /** Models new_node.  `refused` says that the address is martian or blacklisted. */
    method NewNode(id: Id, addr: nat, refused: bool, confirm: int, now: int) returns (found: bool)
      requires Valid()
      modifies this
      ensures Valid() && Learnt(old(buckets), buckets, id, now, myid, Failed(old(allocs)))
      ensures found ==> Recorded(Contents(buckets), id, addr, confirm, now)
      ensures !found && !refused ==> !HasId(buckets, id)
      ensures refused || id == myid ==> !found && buckets == old(buckets)
    {
      ghost var before, freed, from := buckets, [], allocs;
      assert Grown(before, buckets, freed, myid, Failed(from));
      var again := true;
      found := false;
      while again
        invariant from <= allocs
        invariant again ==> Grown(before, buckets, freed, myid, Failed(from))
        invariant again && (refused || id == myid) ==> buckets == before
        invariant !again ==> Valid() && Learnt(before, buckets, id, now, myid, Failed(from))
        invariant !again && found ==> Recorded(Contents(buckets), id, addr, confirm, now)
        invariant !again && !found && !refused ==> !HasId(buckets, id)
        invariant !again && (refused || id == myid) ==> !found && buckets == before
        decreases again, if again then BITS - Depth0(buckets, myid) else 0
      {
        GrownLearnt(before, buckets, freed, id, now, myid, Failed(from));
        if id == myid || refused {
          found, again := false, false;
        } else {
          found, again, freed := TryNewNode(id, addr, confirm, now, before, freed, from);
        }
      }
    }

    /** One pass of new_node; `again` after our own bucket was full of good nodes and has been split. */
    method TryNewNode(id: Id, addr: nat, confirm: int, now: int, ghost before: seq<Bucket>, ghost freed: seq<Node>, ghost from: nat)
      returns (found: bool, again: bool, ghost freed': seq<Node>)
      requires from <= allocs && Grown(before, buckets, freed, myid, Failed(from)) && id != myid
      modifies this
      ensures old(allocs) <= allocs
      ensures again ==> Grown(before, buckets, freed', myid, Failed(from)) && |buckets| > 0 && old(|buckets|) > 0
      ensures again ==> Depth0(buckets, myid) > old(Depth0(buckets, myid))
      ensures !again ==> Valid() && Learnt(before, buckets, id, now, myid, Failed(from))
      ensures !again ==> (found <==> HasId(buckets, id))
      ensures !again && found ==> Recorded(Contents(buckets), id, addr, confirm, now)
    {
      hide Good, Contents, Grown, Learnt, HasId, Depth0, Find, InBucket, Recorded, Discardable, Failed;
      found, again, freed' := false, false, freed;
      GrownGood(before, buckets, freed, myid, Failed(from));
      var i := FindBucket(id);
      Touch(i, id, confirm, now, before, freed, from);
      GrownGood(before, buckets, freed, myid, Failed(from));
      var k := LookUp(i, id);
      if k < |buckets[i].nodes| {
        Refresh(i, k, addr, confirm, now, before, freed, from);
        found := true;
        return;
      }
      k := FindBad(buckets[i].nodes, now);
      if k < |buckets[i].nodes| {
        Overwrite(i, k, id, addr, confirm, now, before, freed, from);
        found := true;
        return;
      }
      if buckets[i].count >= buckets[i].maxCount {
        var pinged;
        again, pinged, freed' := Full(i, id, addr, confirm, now, before, freed, from);
        return;
      }
      found := AddNode(i, id, addr, confirm, now, before, freed, from);
    }

    /** A reply renews the bucket's time. */
    method Touch(i: nat, id: Id, confirm: int, now: int, ghost before: seq<Bucket>, ghost freed: seq<Node>, ghost from: nat)
      requires Grown(before, buckets, freed, myid, Failed(from)) && |buckets| > 0 && i == Find(buckets, id)
      modifies this`buckets
      ensures Grown(before, buckets, freed, myid, Failed(from)) && |buckets| == old(|buckets|)
      ensures i == Find(buckets, id) && Depth0(buckets, myid) == old(Depth0(buckets, myid))
      ensures buckets == old(buckets)[i := old(buckets)[i].(time := if confirm == 2 then now else old(buckets)[i].time)]
    {
      hide Good, Contents, Grown, Depth0, Find;
      var b := buckets[i];
      if confirm == 2 {
        b := b.(time := now);
      }
      GrownTouch(before, buckets, freed, i, b, myid, Failed(from));
      UpdateDepth(buckets, i, b, myid);
      UpdateDepth(buckets, i, b, id);
      buckets := buckets[i := b];
    }

    /** new_node on a node it already knows. */
    method Refresh(i: nat, k: nat, addr: nat, confirm: int, now: int, ghost before: seq<Bucket>, ghost freed: seq<Node>, ghost from: nat)
      requires from <= allocs && Grown(before, buckets, freed, myid, Failed(from)) && i < |buckets| && k < |buckets[i].nodes|
      modifies this`buckets
      ensures var id := old(buckets)[i].nodes[k].id;
              && Valid() && Learnt(before, buckets, id, now, myid, Failed(from)) && HasId(buckets, id)
              && Recorded(Contents(buckets), id, addr, confirm, now)
    {
      hide Good, Contents, Grown, Learnt, HasId, Recorded, InBucket, Failed;
      GrownGood(before, buckets, freed, myid, Failed(from));
      GoodNode(buckets, i, k, myid);
      var b := buckets[i];
      var n := b.nodes[k];
      if confirm != 0 || n.time < now - 15 * 60 {
        n := n.(addr := addr);
        if confirm != 0 { n := n.(time := now); }
        if confirm >= 2 { n := n.(replyTime := now, pinged := 0, pingedTime := 0); }
      }
      LearntSet(before, buckets, freed, i, k, n, b.(nodes := b.nodes[k := n]), n.id, now, myid, Failed(from));
      buckets := buckets[i := b.(nodes := b.nodes[k := n])];
      RecordedIn(buckets, n, addr, confirm, now);
    }

    /** new_node in the place of a bad node. */
    method Overwrite(i: nat, k: nat, id: Id, addr: nat, confirm: int, now: int, ghost before: seq<Bucket>, ghost freed: seq<Node>, ghost from: nat)
      requires from <= allocs && Grown(before, buckets, freed, myid, Failed(from)) && |buckets| > 0 && i == Find(buckets, id)
      requires k < |buckets[i].nodes| && Discardable(buckets[i].nodes[k], now) && !HasId(buckets, id) && id != myid
      modifies this`buckets
      ensures Valid() && Learnt(before, buckets, id, now, myid, Failed(from)) && HasId(buckets, id)
      ensures Recorded(Contents(buckets), id, addr, confirm, now)
    {
      hide Good, Contents, Grown, Learnt, HasId, Recorded, InBucket, Failed, Find;
      GrownGood(before, buckets, freed, myid, Failed(from));
      var b := buckets[i];
      var n := b.nodes[k].(id := id, addr := addr, time := if confirm != 0 then now else 0,
                           replyTime := if confirm >= 2 then now else 0, pingedTime := 0, pinged := 0);
      FoundIn(buckets, id, myid);
      LearntSet(before, buckets, freed, i, k, n, b.(nodes := b.nodes[k := n]), id, now, myid, Failed(from));
      buckets := buckets[i := b.(nodes := b.nodes[k := n])];
      RecordedIn(buckets, n, addr, confirm, now);
    }

    /** new_node in a bucket with room, if there is memory. */
    method AddNode(i: nat, id: Id, addr: nat, confirm: int, now: int, ghost before: seq<Bucket>, ghost freed: seq<Node>, ghost from: nat)
      returns (found: bool)
      requires from <= allocs && Grown(before, buckets, freed, myid, Failed(from)) && |buckets| > 0 && i == Find(buckets, id)
      requires buckets[i].count < buckets[i].maxCount && !HasId(buckets, id) && id != myid
      modifies this
      ensures Valid() && allocs == old(allocs) + 1 && found == memory(old(allocs))
      ensures Learnt(before, buckets, id, now, myid, Failed(from)) && (found <==> HasId(buckets, id))
      ensures found ==> Recorded(Contents(buckets), id, addr, confirm, now)
    {
      hide Good, Contents, Grown, Learnt, HasId, Recorded, InBucket, Find;
      GrownGood(before, buckets, freed, myid, Failed(from));
      ghost var was := Failed(from);
      found := Allocate();
      GrownLater(before, buckets, freed, myid, was, Failed(from));
      if !found {
        GrownLearnt(before, buckets, freed, id, now, myid, Failed(from));
        return;
      }
      var n := Node(id, addr, if confirm != 0 then now else 0, if confirm >= 2 then now else 0, 0, 0);
      FoundIn(buckets, id, myid);
      LearntInsert(before, buckets, freed, i, n, now, myid, Failed(from));
      buckets := Insert(buckets, i, n);
      RecordedIn(buckets, n, addr, confirm, now);
    }

    /** new_node when there is no room: splits our own bucket if all its nodes are good, and
        otherwise pings the first stale node and caches the address. */
    method Full(i: nat, id: Id, addr: nat, confirm: int, now: int, ghost before: seq<Bucket>, ghost freed: seq<Node>, ghost from: nat)
      returns (again: bool, pinged: nat, ghost freed': seq<Node>)
      requires from <= allocs && Grown(before, buckets, freed, myid, Failed(from))
      requires i == Find(buckets, id) && id != myid && !HasId(buckets, id) && buckets[i].count >= buckets[i].maxCount
      modifies this
      ensures old(allocs) <= allocs
      ensures again ==> Grown(before, buckets, freed', myid, Failed(from)) && |buckets| > 0 && old(|buckets|) > 0
      ensures again ==> Depth0(buckets, myid) > old(Depth0(buckets, myid))
      ensures !again ==> Valid() && Learnt(before, buckets, id, now, myid, Failed(from)) && !HasId(buckets, id)
      ensures FirstStale(old(buckets)[i].nodes, pinged, now)
      ensures again <==> old(InBucket(buckets, i, myid)) && memory(old(allocs)) && forall n :: n in old(buckets)[i].nodes ==> NodeGood(n, now)
      ensures !old(InBucket(buckets, i, myid)) || (exists n :: n in old(buckets)[i].nodes && !NodeGood(n, now)) ==>
                buckets == old(buckets)[i := Waiting(old(buckets)[i], pinged, addr, confirm, now)]
    {
      hide Good, Contents, Grown, Learnt, HasId, Depth0, Find, NodeGood, Failed, Waiting;
      freed' := freed;
      GrownGood(before, buckets, freed, myid, Failed(from));
      var b := buckets[i];
      var dubious;
      dubious, pinged := PingDubious(b.nodes, now);
      OwnBucket(buckets, i, myid);
      if InBucket(buckets, i, myid) && !dubious {
        again, freed' := Widen(i, id, before, freed, from);
        return;
      }
      again := false;
      var c := Waiting(b, pinged, addr, confirm, now);
      WaitingNodes(b, pinged, addr, confirm, now);
      LearntNothing(before, buckets, freed, i, pinged, c, id, now, myid, Failed(from));
      buckets := buckets[i := c];
    }

    /** new_node when our own bucket is full of good nodes. */
    method Widen(i: nat, id: Id, ghost before: seq<Bucket>, ghost freed: seq<Node>, ghost from: nat) returns (again: bool, ghost freed': seq<Node>)
      requires from <= allocs && Grown(before, buckets, freed, myid, Failed(from))
      requires i == Find(buckets, id) == Find(buckets, myid) && id != myid && !HasId(buckets, id)
      modifies this
      ensures old(allocs) <= allocs && (again <==> memory(old(allocs))) && Valid() && |buckets| > 0
      ensures Grown(before, buckets, freed', myid, Failed(from)) && !HasId(buckets, id)
      ensures forall now :: Learnt(before, buckets, id, now, myid, Failed(from))
      ensures again ==> old(|buckets|) > 0 && Depth0(buckets, myid) > old(Depth0(buckets, myid))
    {
      FindIsTheBucket(buckets, myid, i);
      OwnBucketCuts(buckets, Node(id, 0, 0, 0, 0, 0), myid);
      ghost var was := Failed(from);
      ghost var more;
      again, more := SplitBucket(i);
      GrownLater(before, old(buckets), freed, myid, was, Failed(from));
      GrownSplit(before, old(buckets), freed, buckets, more, myid, Failed(from));
      freed' := freed + more;
      forall now { GrownLearnt(before, buckets, freed', id, now, myid, Failed(from)); }
    }

    /** Models expire_buckets: drops every node with four unanswered pings. */
    method ExpireBuckets()
      requires Valid()
      modifies this`buckets
      ensures Valid()
      ensures |buckets| == old(|buckets|) && forall j :: 0 <= j < |buckets| ==> buckets[j] == Expired(old(buckets)[j])
      ensures forall n :: n in Contents(buckets) <==> n in old(Contents(buckets)) && n.pinged < 4
    {
      hide Expired, Good, Contents;
      var i := 0;
      ghost var before := buckets;
      while i < |buckets|
        invariant 0 <= i <= |buckets| == |before| && Valid()
        invariant forall j :: 0 <= j < i ==> buckets[j] == Expired(before[j])
        invariant forall j :: i <= j < |buckets| ==> buckets[j] == before[j]
      {
        ExpireOne(buckets, i, myid);
        var b := PurgeBucket(buckets[i]);
        buckets := buckets[i := b];
        i := i + 1;
      }
      ExpiredContents(before, buckets);
    }

    method PurgeBucket(b: Bucket) returns (b': Bucket)
      ensures b' == Expired(b)
    {
      var kept := [];
      var k := 0;
      while k < |b.nodes|
        invariant k <= |b.nodes| && kept == Keep(b.nodes[..k])
      {
        assert b.nodes[..k + 1][..k] == b.nodes[..k];
        if b.nodes[k].pinged < 4 {
          kept := kept + [b.nodes[k]];
        }
        k := k + 1;
      }
      assert b.nodes[..k] == b.nodes;
      KeepMember(b.nodes);
      b' := b.(nodes := kept, count := b.count - (|b.nodes| - |kept|), cached := if |kept| < |b.nodes| then None else b.cached);
    }
  }
}
