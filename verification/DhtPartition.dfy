/** The bucket list of the routing table as a partition of the id space.

Buckets are kept sorted; bucket `i` ranges from its own `first` up to the next bucket's
`first`.  Nothing records how deep a bucket is: `Depth` is what bucket_middle recovers from
the lowest set bits of the two bounds.  `Partition` says that, read this way, the buckets
are aligned power-of-two blocks that tile the whole id space. */
module DhtPartition {
  import opened Arith
  import opened Ids
  import opened Options

  datatype Node = Node(id: Id, addr: nat, time: int, replyTime: int, pingedTime: int, pinged: int)

  datatype Bucket = Bucket(first: Id, count: int, maxCount: int, time: int, nodes: seq<Node>, cached: Option<nat>)

  function Max(a: int, b: int): int { if a >= b then a else b }

  /** Models in_bucket. */
  predicate InBucket(bs: seq<Bucket>, i: nat, id: Id)
    requires i < |bs|
  {
    Num(bs[i].first) <= Num(id) && (i + 1 == |bs| || Num(id) < Num(bs[i + 1].first))
  }

  /** The upper bound of bucket i - 1: where bucket i starts, or the end of the id space. */
  function Bound(bs: seq<Bucket>, i: nat): nat
    requires i <= |bs|
  {
    if i == |bs| then Pow2(BITS) else Num(bs[i].first)
  }

  /** The bit bucket_middle would set. */
  function Depth(bs: seq<Bucket>, i: nat): (d: nat)
    requires i < |bs|
    ensures d <= BITS
  {
    Max(LastSet(bs[i].first), if i + 1 < |bs| then LastSet(bs[i + 1].first) else -1) + 1
  }

  /** `id` starts an aligned block of 2^(160 - d) ids ending at `end`. */
  ghost predicate Block(id: Id, end: nat, d: nat)
  {
    d <= BITS && Num(id) + Pow2(BITS - d) == end && ClearFrom(id, d)
  }

  ghost predicate BlockAt(bs: seq<Bucket>, i: nat)
    requires i < |bs|
  {
    Block(bs[i].first, Bound(bs, i + 1), Depth(bs, i))
  }

  ghost predicate Partition(bs: seq<Bucket>)
  {
    |bs| > 0 && Num(bs[0].first) == 0 && forall i :: 0 <= i < |bs| ==> BlockAt(bs, i)
  }

  // ------------------------------------------------- the depth of a bucket

  /** The last bit of a string is the parity of its value. */
  lemma Parity(s: seq<bool>)
    requires s != []
    ensures Num(s) % 2 == B(s[|s| - 1])
  {
  }

  lemma NextMultiple(p: nat, q: nat, m: nat, x: nat)
    requires x == p * m + m && q * m <= x < (q + 1) * m
    ensures q == p + 1 && x == q * m
  {
    assert (p + 1) * m == p * m + m;
    assert (p + 2) * m == (p + 1) * m + m;
    QuotientUnique(x, m, p + 1, q);
  }

  /** A block ends at a multiple of its size, and of the two bounds exactly one has bit
      d - 1 set. */
  lemma AdjacentPrefix(a: Id, b: Id, d: nat)
    requires Block(a, Num(b), d)
    ensures d <= BITS && ClearFrom(b, d) && Num(b[..d]) == Num(a[..d]) + 1
  {
    var m := Pow2(BITS - d);
    Pow2Positive(BITS - d);
    ClearTail(a, d);
    NumBounds(b, d);
    ClearTail(b, d);
    var p, q, x := Num(a[..d]), Num(b[..d]), Num(b);
    assert x == p * m + m && q * m <= x < (q + 1) * m;
    hide *;
    NextMultiple(p, q, m, x);
  }

  lemma AdjacentBlocks(a: Id, b: Id, d: nat)
    requires Block(a, Num(b), d)
    ensures ClearFrom(b, d) && (d > 0 ==> a[d - 1] != b[d - 1])
  {
    AdjacentPrefix(a, b, d);
    hide Num, Pow2, ClearFrom, Block;
    if d > 0 {
      Parity(a[..d]);
      Parity(b[..d]);
    }
  }

  lemma {:induction false} AllOnes(s: seq<bool>)
    requires Num(s) + 1 == Pow2(|s|)
    ensures forall k :: 0 <= k < |s| ==> s[k]
    decreases |s|
  {
    if s != [] {
      NumBelow(s[..|s| - 1]);
      AllOnes(s[..|s| - 1]);
    }
  }

  lemma {:induction false} Pow2Add(a: nat, b: nat)
    ensures Pow2(a + b) == Pow2(a) * Pow2(b)
  {
    if b > 0 {
      Pow2Add(a, b - 1);
      MulDouble(Pow2(a), Pow2(b - 1));
    }
  }

  lemma MulDouble(x: nat, y: nat)
    ensures x * (2 * y) == 2 * (x * y)
  {
  }

  lemma LastMultiple(p: nat, q: nat, m: nat)
    requires p * m + m == q * m && m > 0
    ensures q == p + 1
  {
    assert (q + 1) * m == q * m + m;
    NextMultiple(p, q, m, q * m);
  }

  /** The last block of the id space has only ones above its depth. */
  lemma LastBlock(a: Id, d: nat)
    requires Block(a, Pow2(BITS), d) && d > 0
    ensures a[d - 1]
  {
    var m := Pow2(BITS - d);
    Pow2Positive(BITS - d);
    ClearTail(a, d);
    Pow2Add(d, BITS - d);
    LastMultiple(Num(a[..d]), Pow2(d), m);
    AllOnes(a[..d]);
    assert a[..d][d - 1];
  }

  lemma LastSetBelow(a: Id, d: nat)
    requires d <= BITS && ClearFrom(a, d)
    ensures -1 <= LastSet(a) < d
    ensures d > 0 && a[d - 1] ==> LastSet(a) == d - 1
  {
    LastSetUnique(a, LastSet(a));
    if d > 0 && a[d - 1] { LastSetUnique(a, d - 1); }
  }

  /** The two bounds of a block determine its depth: the heart of bucket_middle. */
  lemma DepthFromBounds(bs: seq<Bucket>, i: nat, d: nat)
    requires i < |bs| && Block(bs[i].first, Bound(bs, i + 1), d)
    ensures Depth(bs, i) == d
  {
    var a := bs[i].first;
    LastSetBelow(a, d);
    if i + 1 < |bs| {
      AdjacentBlocks(a, bs[i + 1].first, d);
      LastSetBelow(bs[i + 1].first, d);
    } else if d > 0 {
      LastBlock(a, d);
    }
  }

  // ------------------------------------------------------ finding a bucket

  lemma BoundStep(bs: seq<Bucket>, i: nat)
    requires Partition(bs) && i < |bs|
    ensures Num(bs[i].first) == Bound(bs, i) < Bound(bs, i + 1)
  {
    assert BlockAt(bs, i);
    Pow2Positive(BITS - Depth(bs, i));
  }

  lemma {:induction false} Increasing(bs: seq<Bucket>, i: nat, j: nat)
    requires Partition(bs) && i < j <= |bs|
    ensures Bound(bs, i + 1) <= Bound(bs, j)
    decreases j
  {
    BoundStep(bs, i);
    if i + 1 < j {
      Increasing(bs, i, j - 1);
      BoundStep(bs, j - 1);
    }
  }

  /** The index find_bucket stops at when started at bucket i. */
  function FindFrom(bs: seq<Bucket>, i: nat, id: Id): (r: nat)
    requires i < |bs|
    ensures i <= r < |bs|
    decreases |bs| - i
  {
    if i + 1 == |bs| || Num(id) < Num(bs[i + 1].first) then i else FindFrom(bs, i + 1, id)
  }

  function Find(bs: seq<Bucket>, id: Id): (r: nat)
    requires |bs| > 0
    ensures r < |bs|
  {
    FindFrom(bs, 0, id)
  }

  lemma {:induction false} FindFromIn(bs: seq<Bucket>, i: nat, id: Id)
    requires Partition(bs) && i < |bs| && Num(bs[i].first) <= Num(id)
    ensures InBucket(bs, FindFrom(bs, i, id), id)
    decreases |bs| - i
  {
    if i + 1 < |bs| && Num(id) >= Num(bs[i + 1].first) { FindFromIn(bs, i + 1, id); }
  }

  /** Every id is in exactly one bucket, the one find_bucket returns. */
  lemma FindIsTheBucket(bs: seq<Bucket>, id: Id, j: nat)
    requires Partition(bs) && j < |bs|
    ensures InBucket(bs, j, id) <==> j == Find(bs, id)
  {
    FindFromIn(bs, 0, id);
    var r := Find(bs, id);
    if j < r { Increasing(bs, j, r); }
    if r < j { Increasing(bs, r, j); }
  }

  lemma SameBlock(p: nat, q: nat, m: nat, x: nat)
    requires q * m <= x < (q + 1) * m
    ensures p * m <= x < p * m + m <==> p == q
  {
    assert (p + 1) * m == p * m + m && (q + 1) * m == q * m + m;
    if p * m <= x < p * m + m { QuotientUnique(x, m, p, q); }
  }

  lemma BlockIsPrefix(a: Id, end: nat, d: nat, id: Id)
    requires Block(a, end, d)
    ensures Num(a) <= Num(id) < end <==> id[..d] == a[..d]
  {
    ClearTail(a, d);
    NumBounds(id, d);
    SameBlock(Num(a[..d]), Num(id[..d]), Pow2(BITS - d), Num(id));
    if Num(a) <= Num(id) < end { NumInjective(id[..d], a[..d]); }
  }

  /** A bucket of depth d holds exactly the ids that share its first d bits. */
  lemma BucketIsPrefix(bs: seq<Bucket>, i: nat, id: Id)
    requires Partition(bs) && i < |bs|
    ensures InBucket(bs, i, id) <==> id[..Depth(bs, i)] == bs[i].first[..Depth(bs, i)]
  {
    assert BlockAt(bs, i);
    NumBelow(id);
    BlockIsPrefix(bs[i].first, Bound(bs, i + 1), Depth(bs, i), id);
  }

  // ---------------------------------------------------------------- splitting

  /** The middle of bucket i. */
  function Middle(bs: seq<Bucket>, i: nat): Id
    requires i < |bs| && Depth(bs, i) < BITS
  {
    bs[i].first[Depth(bs, i) := true]
  }

  /** bucket_middle yields the exact midpoint of the bucket's range. */
  lemma MiddleIsMidpoint(bs: seq<Bucket>, i: nat)
    requires Partition(bs) && i < |bs| && Depth(bs, i) < BITS
    ensures 2 * Num(Middle(bs, i)) == Num(bs[i].first) + Bound(bs, i + 1)
  {
    assert BlockAt(bs, i);
    SetBitValue(bs[i].first, Depth(bs, i));
  }

  /** The list after split_bucket_helper has cut bucket i and taken its nodes out. */
  function Cut(bs: seq<Bucket>, i: nat, myid: Id): seq<Bucket>
    requires i < |bs| && Depth(bs, i) < BITS
  {
    var b := bs[i];
    var mid := Middle(bs, i);
    var half := Max(b.maxCount / 2, 8);
    var low := Num(b.first) <= Num(myid) < Num(mid);
    var b' := b.(nodes := [], count := 0, maxCount := if low then half else b.maxCount, cached := None);
    var new' := Bucket(mid, 0, if low then b.maxCount else half, b.time, [], None);
    bs[..i] + [b', new'] + bs[i + 1..]
  }

  /** The bounds of a cut list. */
  lemma CutBounds(bs: seq<Bucket>, i: nat, myid: Id, j: nat)
    requires i < |bs| && Depth(bs, i) < BITS && j <= |bs| + 1
    ensures |Cut(bs, i, myid)| == |bs| + 1
    ensures Bound(Cut(bs, i, myid), j) ==
            if j <= i then Bound(bs, j) else if j == i + 1 then Num(Middle(bs, i)) else Bound(bs, j - 1)
    ensures j <= i ==> Cut(bs, i, myid)[j].first == bs[j].first
    ensures j == i + 1 ==> Cut(bs, i, myid)[j].first == Middle(bs, i)
    ensures i + 1 < j <= |bs| ==> Cut(bs, i, myid)[j] == bs[j - 1]
    ensures j < i ==> Cut(bs, i, myid)[j] == bs[j]
  {
    var c := Cut(bs, i, myid);
    assert |c| == |bs| + 1;
    if i + 1 < j <= |bs| { assert c[j] == bs[i + 1..][j - i - 2]; }
  }

  lemma CutHalf(bs: seq<Bucket>, i: nat, myid: Id, j: nat)
    requires Partition(bs) && i < |bs| && Depth(bs, i) < BITS && i <= j <= i + 1 && |Cut(bs, i, myid)| == |bs| + 1
    ensures BlockAt(Cut(bs, i, myid), j) && Depth(Cut(bs, i, myid), j) == Depth(bs, i) + 1
  {
    var c := Cut(bs, i, myid);
    assert BlockAt(bs, i);
    CutBounds(bs, i, myid, j);
    CutBounds(bs, i, myid, j + 1);
    SetBitValue(bs[i].first, Depth(bs, i));
    hide Cut, Bound, Depth, Partition;
    DepthFromBounds(c, j, Depth(bs, i) + 1);
  }

  lemma CutOther(bs: seq<Bucket>, i: nat, myid: Id, j: nat, k: nat)
    requires Partition(bs) && i < |bs| && Depth(bs, i) < BITS && j <= |bs| && |Cut(bs, i, myid)| == |bs| + 1
    requires (j < i && k == j) || (j > i + 1 && k == j - 1)
    ensures BlockAt(Cut(bs, i, myid), j) && Depth(Cut(bs, i, myid), j) == Depth(bs, k)
  {
    var c := Cut(bs, i, myid);
    assert BlockAt(bs, k);
    CutBounds(bs, i, myid, j);
    CutBounds(bs, i, myid, j + 1);
    hide Cut, Bound, Depth, Partition;
    DepthFromBounds(c, j, Depth(bs, k));
  }

  lemma CutBlock(bs: seq<Bucket>, i: nat, myid: Id, j: nat)
    requires Partition(bs) && i < |bs| && Depth(bs, i) < BITS && j <= |bs| && |Cut(bs, i, myid)| == |bs| + 1
    ensures BlockAt(Cut(bs, i, myid), j)
    ensures i <= j <= i + 1 ==> Depth(Cut(bs, i, myid), j) == Depth(bs, i) + 1
    ensures j < i ==> Depth(Cut(bs, i, myid), j) == Depth(bs, j)
    ensures j > i + 1 ==> Depth(Cut(bs, i, myid), j) == Depth(bs, j - 1)
  {
    hide Cut, Depth, Partition, BlockAt;
    if i <= j <= i + 1 { CutHalf(bs, i, myid, j); } else { CutOther(bs, i, myid, j, if j < i then j else j - 1); }
  }

  /** Cutting a bucket at its middle keeps the partition and adds one level of depth. */
  lemma CutPartition(bs: seq<Bucket>, i: nat, myid: Id)
    requires Partition(bs) && i < |bs| && Depth(bs, i) < BITS
    ensures |Cut(bs, i, myid)| == |bs| + 1 && Partition(Cut(bs, i, myid))
    ensures Depth(Cut(bs, i, myid), i) == Depth(bs, i) + 1 == Depth(Cut(bs, i, myid), i + 1)
  {
    var c := Cut(bs, i, myid);
    CutBounds(bs, i, myid, 0);
    forall j | 0 <= j < |c| ensures BlockAt(c, j) { CutBlock(bs, i, myid, j); }
    CutBlock(bs, i, myid, i);
    CutBlock(bs, i, myid, i + 1);
  }

  /** Only the bucket that was cut changes its range; its two halves share it out. */
  lemma CutMembership(bs: seq<Bucket>, i: nat, myid: Id, j: nat, id: Id)
    requires Partition(bs) && i < |bs| && Depth(bs, i) < BITS && j <= |bs| && |Cut(bs, i, myid)| == |bs| + 1
    ensures j < i ==> (InBucket(Cut(bs, i, myid), j, id) <==> InBucket(bs, j, id))
    ensures j > i + 1 ==> (InBucket(Cut(bs, i, myid), j, id) <==> InBucket(bs, j - 1, id))
    ensures i <= j <= i + 1 && InBucket(Cut(bs, i, myid), j, id) ==> InBucket(bs, i, id)
  {
    hide InBucket, Bound, Cut, Num, Depth, Partition, Middle;
    var c := Cut(bs, i, myid);
    CutBounds(bs, i, myid, j);
    CutBounds(bs, i, myid, j + 1);
    InBucketBounds(c, j, id);
    InBucketBounds(bs, if j <= i then j else j - 1, id);
    MiddleIsMidpoint(bs, i);
    BoundStep(bs, i);
  }

  lemma InBucketBounds(bs: seq<Bucket>, i: nat, id: Id)
    requires i < |bs|
    ensures InBucket(bs, i, id) <==> Bound(bs, i) <= Num(id) < Bound(bs, i + 1)
  {
    NumBelow(id);
  }
}
