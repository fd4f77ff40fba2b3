/** The routing table: inserting, splitting and expiring nodes.

One `RoutingTable` is the bucket list of one address family.  The source's linked lists
are sequences here, head first; a bucket's `count` is kept as a field of its own, as in the
source, so that its agreement with the list is something to prove. */
module DhtTable {
  import opened Ids
  import opened DhtPartition

  // ------------------------------------------------------------------ contents

  /** All nodes of the table, with multiplicity. */
  ghost function Contents(bs: seq<Bucket>): multiset<Node>
  {
    if bs == [] then multiset{} else Contents(bs[..|bs| - 1]) + multiset(bs[|bs| - 1].nodes)
  }

  ghost predicate HasId(bs: seq<Bucket>, id: Id)
  {
    exists n :: n in Contents(bs) && n.id == id
  }

  ghost predicate UniqueIds(m: multiset<Node>)
  {
    && (forall n :: n in m ==> m[n] == 1)
    && (forall a, b :: a in m && b in m && a.id == b.id ==> a == b)
  }

  ghost predicate NoSelf(m: multiset<Node>, myid: Id)
  {
    forall n :: n in m ==> n.id != myid
  }

  ghost predicate GoodBucket(bs: seq<Bucket>, i: nat)
    requires i < |bs|
  {
    && bs[i].count == |bs[i].nodes| <= bs[i].maxCount
    && 8 <= bs[i].maxCount
    && forall n :: n in bs[i].nodes ==> InBucket(bs, i, n.id)
  }

  /** What every reachable table satisfies. */
  ghost predicate Good(bs: seq<Bucket>, myid: Id)
  {
    && Partition(bs)
    && (forall i :: 0 <= i < |bs| ==> GoodBucket(bs, i))
    && UniqueIds(Contents(bs))
    && NoSelf(Contents(bs), myid)
  }

  /** The bucket of `id` has no room and is not ours. */
  ghost predicate FullForeign(bs: seq<Bucket>, id: Id, myid: Id)
    requires |bs| > 0
  {
    var j := Find(bs, id);
    j != Find(bs, myid) && bs[j].count >= bs[j].maxCount
  }

  lemma {:induction false} ContentsConcat(a: seq<Bucket>, b: seq<Bucket>)
    ensures Contents(a + b) == Contents(a) + Contents(b)
    decreases |b|
  {
    if b == [] {
      assert a + b == a;
    } else {
      var n := |b| - 1;
      ContentsConcat(a, b[..n]);
      assert (a + b)[..|a + b| - 1] == a + b[..n] && (a + b)[|a + b| - 1] == b[n];
    }
  }

  lemma ContentsAt(bs: seq<Bucket>, i: nat)
    requires i < |bs|
    ensures Contents(bs) == Contents(bs[..i]) + multiset(bs[i].nodes) + Contents(bs[i + 1..])
  {
    var head := bs[..i + 1];
    assert bs == head + bs[i + 1..];
    ContentsConcat(head, bs[i + 1..]);
    assert head[..i] == bs[..i] && head[i] == bs[i];
    assert Contents(head) == Contents(head[..i]) + multiset(head[i].nodes);
    hide Contents;
  }

  lemma ContentsUpdate(bs: seq<Bucket>, i: nat, b: Bucket)
    requires i < |bs|
    ensures multiset(bs[i].nodes) <= Contents(bs)
    ensures Contents(bs[i := b]) == Contents(bs) - multiset(bs[i].nodes) + multiset(b.nodes)
  {
    var c := bs[i := b];
    ContentsAt(bs, i);
    ContentsAt(c, i);
    assert c[..i] == bs[..i] && c[i + 1..] == bs[i + 1..];
  }

  lemma {:induction false} ContentsMember(bs: seq<Bucket>, n: Node)
    ensures n in Contents(bs) <==> exists i :: 0 <= i < |bs| && n in bs[i].nodes
    decreases |bs|
  {
    if bs != [] {
      var m := |bs| - 1;
      ContentsMember(bs[..m], n);
      if i :| 0 <= i < m && n in bs[..m][i].nodes { assert bs[..m][i] == bs[i]; }
      if i :| 0 <= i < |bs| && n in bs[i].nodes && i != m { assert bs[..m][i] == bs[i]; }
    }
  }

  /** In a good table a node can only be in the bucket find_bucket names. */
  lemma HasIdBucket(bs: seq<Bucket>, myid: Id, id: Id)
    requires Good(bs, myid)
    ensures HasId(bs, id) <==> exists n :: n in bs[Find(bs, id)].nodes && n.id == id
  {
    if HasId(bs, id) {
      var n :| n in Contents(bs) && n.id == id;
      ContentsMember(bs, n);
      var i :| 0 <= i < |bs| && n in bs[i].nodes;
      assert GoodBucket(bs, i);
      FindIsTheBucket(bs, id, i);
    }
    if n :| n in bs[Find(bs, id)].nodes && n.id == id {
      ContentsMember(bs, n);
    }
  }

  // ------------------------------------------------------ replacing a bucket

  lemma UpdateShape(bs: seq<Bucket>, i: nat, b: Bucket)
    requires i < |bs| && b.first == bs[i].first
    ensures forall j, id :: 0 <= j < |bs| ==> InBucket(bs[i := b], j, id) == InBucket(bs, j, id)
    ensures Partition(bs) ==> Partition(bs[i := b])
    ensures forall j :: 0 <= j < |bs| ==> Depth(bs[i := b], j) == Depth(bs, j)
  {
    var c := bs[i := b];
    assert forall j :: 0 <= j < |bs| ==> c[j].first == bs[j].first;
    if Partition(bs) {
      forall j | 0 <= j < |c| ensures BlockAt(c, j) { assert BlockAt(bs, j); }
    }
  }

  lemma {:induction false} UpdateFindFrom(bs: seq<Bucket>, i: nat, b: Bucket, k: nat, id: Id)
    requires i < |bs| && b.first == bs[i].first && k < |bs|
    ensures FindFrom(bs[i := b], k, id) == FindFrom(bs, k, id)
    decreases |bs| - k
  {
    if k + 1 < |bs| { UpdateFindFrom(bs, i, b, k + 1, id); }
  }

  /** Putting a well-filled bucket in place of bucket i keeps the table good. */
  lemma UpdateGood(bs: seq<Bucket>, i: nat, b: Bucket, myid: Id)
    requires i < |bs| && b.first == bs[i].first && Partition(bs)
    requires forall j :: 0 <= j < |bs| ==> GoodBucket(bs, j)
    requires b.count == |b.nodes| <= b.maxCount && 8 <= b.maxCount
    requires forall n :: n in b.nodes ==> InBucket(bs, i, n.id)
    requires UniqueIds(Contents(bs[i := b])) && NoSelf(Contents(bs[i := b]), myid)
    ensures Good(bs[i := b], myid)
  {
    var c := bs[i := b];
    UpdateShape(bs, i, b);
    forall j | 0 <= j < |c| ensures GoodBucket(c, j) { assert GoodBucket(bs, j); }
  }

  // ------------------------------------------------------------------- cutting

  lemma CutContents(bs: seq<Bucket>, i: nat, myid: Id)
    requires i < |bs| && Depth(bs, i) < BITS
    ensures Contents(bs) == Contents(Cut(bs, i, myid)) + multiset(bs[i].nodes)
  {
    var c := Cut(bs, i, myid);
    ContentsAt(bs, i);
    var pair := c[i..i + 2];
    assert c == bs[..i] + pair + bs[i + 1..];
    ContentsConcat(bs[..i] + pair, bs[i + 1..]);
    ContentsConcat(bs[..i], pair);
    assert pair[..1][..0] == [] && pair[1].nodes == [] && pair[0].nodes == [];
    assert Contents(pair) == Contents(pair[..1]) + multiset(pair[1].nodes);
    assert Contents(pair[..1]) == Contents(pair[..1][..0]) + multiset(pair[0].nodes);
  }

  lemma CutGood(bs: seq<Bucket>, i: nat, myid: Id)
    requires Good(bs, myid) && i < |bs| && Depth(bs, i) < BITS
    ensures Good(Cut(bs, i, myid), myid)
  {
    hide Cut, Contents, Partition, GoodBucket, UniqueIds, NoSelf, Depth;
    var c := Cut(bs, i, myid);
    CutPartition(bs, i, myid);
    CutContents(bs, i, myid);
    SubUnique(Contents(c), Contents(bs), myid);
    forall j | 0 <= j < |c| ensures GoodBucket(c, j) { CutGoodBucket(bs, i, myid, j); }
  }

  lemma CutGoodBucket(bs: seq<Bucket>, i: nat, myid: Id, j: nat)
    requires Partition(bs) && i < |bs| && Depth(bs, i) < BITS && j <= |bs| && |Cut(bs, i, myid)| == |bs| + 1
    requires GoodBucket(bs, if j <= i then j else j - 1)
    ensures GoodBucket(Cut(bs, i, myid), j)
  {
    hide InBucket, Depth, Partition, Middle;
    var c := Cut(bs, i, myid);
    CutBounds(bs, i, myid, j);
    forall n | n in c[j].nodes ensures InBucket(c, j, n.id) { CutMembership(bs, i, myid, j, n.id); }
  }

  lemma SubUnique(m: multiset<Node>, whole: multiset<Node>, myid: Id)
    requires m <= whole && UniqueIds(whole) && NoSelf(whole, myid)
    ensures UniqueIds(m) && NoSelf(m, myid)
  {
    forall n | n in m ensures m[n] == 1 && n in whole { assert m[n] <= whole[n]; }
  }

  /** Cutting bucket i moves only ids of bucket i; any other id keeps its bucket. */
  lemma CutFind(bs: seq<Bucket>, i: nat, myid: Id, id: Id)
    requires Good(bs, myid) && i < |bs| && Depth(bs, i) < BITS
    requires |Cut(bs, i, myid)| == |bs| + 1
    ensures Find(bs, id) == i ==> i <= Find(Cut(bs, i, myid), id) <= i + 1
    ensures Find(bs, id) != i ==> Cut(bs, i, myid)[Find(Cut(bs, i, myid), id)] == bs[Find(bs, id)]
    ensures Find(bs, id) != i ==> Find(Cut(bs, i, myid), id) < i || Find(Cut(bs, i, myid), id) > i + 1
  {
    var c, j := Cut(bs, i, myid), Find(bs, id);
    CutPartition(bs, i, myid);
    FindIsTheBucket(bs, id, j);
    FindIsTheBucket(c, id, Find(c, id));
    if j == i {
      var k := Find(c, id);
      CutMembership(bs, i, myid, k, id);
      if k < i { FindIsTheBucket(bs, id, k); }
      if k > i + 1 { FindIsTheBucket(bs, id, k - 1); }
    } else {
      var k := if j < i then j else j + 1;
      CutMembership(bs, i, myid, k, id);
      CutBounds(bs, i, myid, k);
      FindIsTheBucket(c, id, k);
    }
  }

  /** A bucket of full depth has room for one id only. */
  lemma DeepestBucket(bs: seq<Bucket>, i: nat, a: Id, b: Id)
    requires Partition(bs) && i < |bs| && Depth(bs, i) == BITS
    requires InBucket(bs, i, a) && InBucket(bs, i, b)
    ensures a == b
  {
    BucketIsPrefix(bs, i, a);
    BucketIsPrefix(bs, i, b);
    assert a[..BITS] == a && b[..BITS] == b;
  }

  /** The list after insert_node has put `n` in front of bucket i. */
  function Insert(bs: seq<Bucket>, i: nat, n: Node): seq<Bucket>
    requires i < |bs|
  {
    bs[i := bs[i].(nodes := [n] + bs[i].nodes, count := bs[i].count + 1)]
  }

  lemma ContentsInsert(bs: seq<Bucket>, i: nat, n: Node)
    requires i < |bs|
    ensures Contents(Insert(bs, i, n)) == Contents(bs) + multiset{n}
  {
    ContentsUpdate(bs, i, Insert(bs, i, n)[i]);
    assert multiset([n] + bs[i].nodes) == multiset{n} + multiset(bs[i].nodes);
  }

  /** Inserting where there is room. */
  lemma InsertGood(bs: seq<Bucket>, i: nat, n: Node, myid: Id)
    requires Good(bs, myid) && i < |bs| && InBucket(bs, i, n.id)
    requires bs[i].count < bs[i].maxCount
    requires UniqueIds(Contents(bs) + multiset{n}) && n.id != myid
    ensures Good(Insert(bs, i, n), myid)
  {
    var b := bs[i].(nodes := [n] + bs[i].nodes, count := bs[i].count + 1);
    ContentsInsert(bs, i, n);
    assert GoodBucket(bs, i);
    forall m | m in b.nodes ensures InBucket(bs, i, m.id) {
      assert m == n || m in bs[i].nodes;
    }
    UpdateGood(bs, i, b, myid);
  }
}
