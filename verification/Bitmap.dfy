/** Bitmaps that keep their length in bytes, as a refinement of sets of naturals. */
module Bitmap {
  import opened ByteBits

  /** Models Get: bits beyond the last byte read as clear. */
  predicate Get(b: seq<bv8>, i: nat)
  {
    i / 8 < |b| && BitOf(b[i / 8], i % 8)
  }

  /** The set a bitmap denotes. */
  ghost function Members(b: seq<bv8>): set<nat>
  {
    set i: nat | i < 8 * |b| && Get(b, i)
  }

  lemma MembersGet(b: seq<bv8>, i: nat)
    ensures i in Members(b) <==> Get(b, i)
  {
  }

  lemma EmptyMembers()
    ensures Members([]) == {}
  {
  }

  // ------------------------------------------------------------ single updates

  function Extended(b: seq<bv8>, i: nat): (r: seq<bv8>)
    ensures |r| > i / 8
  {
    if i / 8 >= |b| then b + seq(i / 8 + 1 - |b|, k => 0) else b
  }

  function WithBit(b: seq<bv8>, i: nat): seq<bv8>
  {
    var e := Extended(b, i);
    e[i / 8 := e[i / 8] | Mask(i % 8)]
  }

  function WithoutBit(b: seq<bv8>, i: nat): seq<bv8>
  {
    if i / 8 >= |b| then b else b[i / 8 := b[i / 8] & !Mask(i % 8)]
  }

  lemma ZeroBit(j: nat)
    requires j < 8
    ensures !BitOf(0, j)
  {
  }

  lemma ExtendedGet(b: seq<bv8>, i: nat, k: nat)
    ensures Get(Extended(b, i), k) == Get(b, k)
  {
    ZeroBit(k % 8);
  }

  lemma WithBitGet(b: seq<bv8>, i: nat, k: nat)
    ensures Get(WithBit(b, i), k) == (k == i || Get(b, k))
  {
    ExtendedGet(b, i, k);
    if k / 8 == i / 8 { OrBit(Extended(b, i)[i / 8], i % 8, k % 8); }
  }

  lemma WithoutBitGet(b: seq<bv8>, i: nat, k: nat)
    ensures Get(WithoutBit(b, i), k) == (k != i && Get(b, k))
  {
    if k / 8 == i / 8 < |b| { AndNotBit(b[i / 8], i % 8, k % 8); }
  }

  /** Set adds exactly one member. */
  lemma SetAdds(b: seq<bv8>, i: nat)
    ensures Members(WithBit(b, i)) == Members(b) + {i}
  {
    forall k: nat ensures k in Members(WithBit(b, i)) <==> k in Members(b) + {i} { WithBitGet(b, i, k); }
  }

  /** Reset removes exactly one member. */
  lemma ResetRemoves(b: seq<bv8>, i: nat)
    ensures Members(WithoutBit(b, i)) == Members(b) - {i}
  {
    forall k: nat ensures k in Members(WithoutBit(b, i)) <==> k in Members(b) - {i} { WithoutBitGet(b, i, k); }
  }

  class Bitmap {
    var b: seq<bv8>

    constructor ()
      ensures b == [] && Members(b) == {}
    {
      b := [];
    }

    /** Models Set. */
    method Set(i: nat)
      modifies this
      ensures b == WithBit(old(b), i) && Members(b) == old(Members(b)) + {i}
    {
      SetAdds(b, i);
      b := Extended(b, i);
      b := b[i / 8 := b[i / 8] | Mask(i % 8)];
    }

    /** Models Reset. */
    method Reset(i: nat)
      modifies this
      ensures b == WithoutBit(old(b), i) && Members(b) == old(Members(b)) - {i}
    {
      ResetRemoves(b, i);
      if i / 8 >= |b| {
        return;
      }
      b := b[i / 8 := b[i / 8] & !Mask(i % 8)];
    }

    /** Models SetMultiple: all bits below n, a byte at a time and then bit by bit. */
    method SetMultiple(n: nat)
      modifies this
      ensures Members(b) == old(Members(b)) + Below(n)
    {
      ghost var was := b;
      b := Extended(b, n);
      forall k: nat ensures Get(b, k) == Get(was, k) { ExtendedGet(was, n, k); }
      var i := 0;
      while i < n / 8
        invariant 0 <= i <= n / 8 < |b|
        invariant forall k: nat :: Get(b, k) == (k < 8 * i || Get(was, k))
      {
        ghost var prev := b;
        b := b[i := 0xFF];
        forall k: nat ensures Get(b, k) == (k < 8 * (i + 1) || Get(was, k)) {
          FullByte(k % 8);
          assert Get(prev, k) == (k < 8 * i || Get(was, k));
        }
        i := i + 1;
      }
      i := n / 8 * 8;
      while i < n
        invariant n / 8 * 8 <= i <= n
        invariant forall k: nat :: Get(b, k) == (k < i || Get(was, k))
      {
        forall k: nat ensures Get(WithBit(b, i), k) == (k < i + 1 || Get(was, k)) { WithBitGet(b, i, k); }
        Set(i);
        i := i + 1;
      }
      forall k: nat ensures k in Members(b) <==> k in Members(was) + Below(n) {
        MembersGet(b, k);
        MembersGet(was, k);
        BelowMember(n, k);
      }
    }
  }

  lemma FullByte(j: nat)
    requires j < 8
    ensures BitOf(0xFF, j)
  {
  }

  // ------------------------------------------------------------ whole-map tests

  /** `0xFF << (8 - m)`: the first m bits. */
  function HighBits(m: nat): bv8
    requires 0 < m < 8
  {
    if m == 1 then 0x80 else if m == 2 then 0xC0 else if m == 3 then 0xE0 else if m == 4 then 0xF0
    else if m == 5 then 0xF8 else if m == 6 then 0xFC else 0xFE
  }

  lemma HighBitsBits(m: nat, j: nat)
    requires 0 < m < 8 && j < 8
    ensures BitOf(HighBits(m), j) <==> j < m
  {
  }

  /** What All tests: the first n bits are set, and the rest of the last byte is clear. */
  ghost predicate ExactlyFirst(b: seq<bv8>, n: nat)
  {
    && (forall i: nat :: i < n ==> Get(b, i))
    && (n % 8 != 0 ==> forall i: nat :: n <= i < n / 8 * 8 + 8 ==> !Get(b, i))
  }

  lemma FullByteIff(b: seq<bv8>, i: nat)
    requires i < |b|
    ensures b[i] == 0xFF <==> forall k: nat :: 8 * i <= k < 8 * i + 8 ==> Get(b, k)
  {
    if b[i] == 0xFF {
      forall k: nat | 8 * i <= k < 8 * i + 8 ensures Get(b, k) { FullByte(k % 8); }
    }
    if forall k: nat :: 8 * i <= k < 8 * i + 8 ==> Get(b, k) {
      forall j: nat | j < 8 ensures BitOf(b[i], j) == BitOf(0xFF, j) {
        FullByte(j);
        assert Get(b, 8 * i + j);
      }
      BitsDetermine(b[i], 0xFF);
    }
  }

  lemma HighByteIff(b: seq<bv8>, n: nat)
    requires n % 8 != 0 && n / 8 < |b|
    ensures b[n / 8] == HighBits(n % 8) <==>
            forall k: nat :: n / 8 * 8 <= k < n / 8 * 8 + 8 ==> (Get(b, k) <==> k < n)
  {
    var i, m := n / 8, n % 8;
    if b[i] == HighBits(m) {
      forall k: nat | 8 * i <= k < 8 * i + 8 ensures Get(b, k) <==> k < n { HighBitsBits(m, k % 8); }
    }
    if forall k: nat :: 8 * i <= k < 8 * i + 8 ==> (Get(b, k) <==> k < n) {
      forall j: nat | j < 8 ensures BitOf(b[i], j) == BitOf(HighBits(m), j) {
        HighBitsBits(m, j);
        assert Get(b, 8 * i + j) <==> 8 * i + j < n;
      }
      BitsDetermine(b[i], HighBits(m));
    }
  }

  /** Models All. */
  method All(b: seq<bv8>, n: nat) returns (r: bool)
    ensures r <==> ExactlyFirst(b, n)
  {
    if n == 0 {
      return true;
    }
    if |b| < n / 8 {
      assert !Get(b, n - 1 - n % 8);
      return false;
    }
    var i := 0;
    while i < n / 8
      invariant 0 <= i <= n / 8
      invariant forall k: nat :: k < 8 * i ==> Get(b, k)
    {
      FullByteIff(b, i);
      if b[i] != 0xFF {
        return false;
      }
      i := i + 1;
    }
    if n % 8 == 0 {
      return true;
    }
    if |b| < n / 8 + 1 {
      assert !Get(b, n - 1);
      return false;
    }
    HighByteIff(b, n);
    return b[n / 8] == HighBits(n % 8);
  }

  /** The number of set bits among the first n. */
  ghost function CountTo(b: seq<bv8>, n: nat): nat
  {
    if n == 0 then 0 else CountTo(b, n - 1) + if Get(b, n - 1) then 1 else 0
  }

  ghost function MembersTo(b: seq<bv8>, n: nat): set<nat>
  {
    if n == 0 then {} else MembersTo(b, n - 1) + if Get(b, n - 1) then {n - 1} else {}
  }

  lemma {:induction false} CountToIsSize(b: seq<bv8>, n: nat)
    ensures CountTo(b, n) == |MembersTo(b, n)|
    ensures forall i: nat :: i in MembersTo(b, n) <==> i < n && Get(b, i)
  {
    hide Get;
    if n > 0 {
      CountToIsSize(b, n - 1);
      var s := MembersTo(b, n - 1);
      assert n - 1 !in s;
      if Get(b, n - 1) { assert |s + {n - 1}| == |s| + 1; }
    }
  }

  /** The number of set bits among the first j of a byte. */
  function Ones(v: bv8, j: nat): nat
    requires j <= 8
  {
    if j == 0 then 0 else Ones(v, j - 1) + if BitOf(v, j - 1) then 1 else 0
  }

  lemma {:induction false} CountByte(b: seq<bv8>, i: nat, j: nat)
    requires i < |b| && j <= 8
    ensures CountTo(b, 8 * i + j) == CountTo(b, 8 * i) + Ones(b[i], j)
  {
    if j > 0 {
      CountByte(b, i, j - 1);
      var k := 8 * i + j - 1;
      assert k / 8 == i && k % 8 == j - 1;
    }
  }

  /** Models Count. */
  method Count(b: seq<bv8>) returns (count: nat)
    ensures count == |Members(b)|
  {
    count := 0;
    var i := 0;
    while i < |b|
      invariant i <= |b| && count == CountTo(b, 8 * i)
    {
      CountByte(b, i, 8);
      count := count + Ones(b[i], 8);
      i := i + 1;
    }
    CountToIsSize(b, 8 * |b|);
    assert Members(b) == MembersTo(b, 8 * |b|);
  }

  /** If all members lie below n, the All test and the Count test agree. */
  lemma AllAgreesWithCount(b: seq<bv8>, n: nat)
    requires Members(b) <= Below(n)
    ensures ExactlyFirst(b, n) <==> |Members(b)| == n
    ensures ExactlyFirst(b, n) <==> Members(b) == Below(n)
  {
    BelowSize(n);
    if |Members(b)| == n {
      SubsetEqual(Members(b), Below(n));
      forall i: nat ensures Get(b, i) <==> i < n {
        MembersGet(b, i);
        BelowMember(n, i);
      }
    }
    if ExactlyFirst(b, n) {
      forall i | i in Below(n) ensures i in Members(b) {
        BelowMember(n, i);
        assert Get(b, i);
      }
    }
  }

  /** The numbers below n. */
  function Below(n: nat): set<nat>
  {
    if n == 0 then {} else Below(n - 1) + {n - 1}
  }

  lemma {:induction false} BelowMember(n: nat, i: nat)
    ensures i in Below(n) <==> i < n
  {
    if n > 0 { BelowMember(n - 1, i); }
  }

  lemma {:induction false} BelowSize(n: nat)
    ensures |Below(n)| == n
  {
    if n > 0 {
      BelowSize(n - 1);
      BelowMember(n - 1, n - 1);
    }
  }

  lemma {:induction false} SubsetEqual<T>(a: set<T>, b: set<T>)
    requires a <= b && |a| == |b|
    ensures a == b
    decreases a
  {
    if a == {} {
      assert b == {};
    } else {
      var x :| x in a;
      SubsetEqual(a - {x}, b - {x});
    }
  }

  // ------------------------------------------------------------- length and equality

  /** No bit of the bytes from k on is set. */
  ghost predicate ClearFrom(b: seq<bv8>, k: nat) { forall i: nat :: i >= 8 * k ==> !Get(b, i) }

  lemma ClearMore(b: seq<bv8>, k: nat)
    requires k < |b| && b[k] == 0 && ClearFrom(b, k + 1)
    ensures ClearFrom(b, k)
  {
    forall i: nat | i >= 8 * k ensures !Get(b, i) {
      if i < 8 * (k + 1) {
        assert i / 8 == k;
        ZeroBit(i % 8);
      }
    }
  }

  /** The highest bit of byte k, when it is the last that is not zero. */
  lemma Highest(b: seq<bv8>, k: nat)
    requires k < |b| && b[k] != 0 && ClearFrom(b, k + 1)
    ensures var n := k * 8 + 8 - Trailing(b[k]); Get(b, n - 1) && forall i: nat :: i >= n ==> !Get(b, i)
  {
    var j := 7 - Trailing(b[k]);
    TrailingBit(b[k]);
    assert (k * 8 + j) / 8 == k && (k * 8 + j) % 8 == j;
    forall i: nat | i >= k * 8 + j + 1 ensures !Get(b, i) {
      if i < 8 * (k + 1) {
        assert i / 8 == k;
        TrailingClear(b[k], i % 8);
      }
    }
  }

  /** Models Len: one more than the highest member. */
  method Len(b: seq<bv8>) returns (n: nat)
    ensures forall i :: i in Members(b) ==> i < n
    ensures n > 0 ==> n - 1 in Members(b)
  {
    var k := |b|;
    while k > 0
      invariant 0 <= k <= |b| && ClearFrom(b, k)
    {
      k := k - 1;
      if b[k] != 0 {
        Highest(b, k);
        return k * 8 + 8 - Trailing(b[k]);
      }
      ClearMore(b, k);
    }
    n := 0;
  }

  lemma ByteDecides(x: seq<bv8>, y: seq<bv8>, k: nat)
    requires k < |x| && Members(x) == Members(y)
    ensures x[k] == if k < |y| then y[k] else 0
  {
    var v: bv8 := if k < |y| then y[k] else 0;
    forall j: nat | j < 8 ensures BitOf(x[k], j) == BitOf(v, j) {
      var i := 8 * k + j;
      assert i / 8 == k && i % 8 == j;
      MembersGet(x, i);
      MembersGet(y, i);
      ZeroBit(j);
    }
    BitsDetermine(x[k], v);
  }

  function ByteAt(b: seq<bv8>, k: nat): bv8 { if k < |b| then b[k] else 0 }

  lemma BytesDecide(x: seq<bv8>, y: seq<bv8>)
    requires forall k: nat :: ByteAt(x, k) == ByteAt(y, k)
    ensures Members(x) == Members(y)
  {
    forall i: nat ensures i in Members(x) <==> i in Members(y) {
      assert ByteAt(x, i / 8) == ByteAt(y, i / 8);
      ZeroBit(i % 8);
    }
  }

  /** Models EqualValue. */
  method EqualValue(x: seq<bv8>, y: seq<bv8>) returns (r: bool)
    ensures r <==> Members(x) == Members(y)
  {
    hide Members;
    var n := if |x| > |y| then |y| else |x|;
    var i := 0;
    while i < n
      invariant 0 <= i <= n && forall k: nat :: k < i ==> ByteAt(x, k) == ByteAt(y, k)
    {
      if x[i] != y[i] {
        if Members(x) == Members(y) { ByteDecides(x, y, i); }
        return false;
      }
      i := i + 1;
    }
    i := n;
    while i < |x|
      invariant n <= i <= |x| && forall k: nat :: k < i ==> ByteAt(x, k) == ByteAt(y, k)
    {
      if x[i] != 0 {
        if Members(x) == Members(y) { ByteDecides(x, y, i); }
        return false;
      }
      i := i + 1;
    }
    i := n;
    while i < |y|
      invariant n <= i <= |y| && (forall k: nat :: k < i ==> ByteAt(x, k) == ByteAt(y, k))
      invariant forall k: nat :: k < |x| ==> ByteAt(x, k) == ByteAt(y, k)
    {
      if y[i] != 0 {
        if Members(x) == Members(y) { ByteDecides(y, x, i); }
        return false;
      }
      i := i + 1;
    }
    BytesDecide(x, y);
    r := true;
  }
}
