/** The byte-level view of node identifiers.

dht/dht.c stores an id as twenty bytes and compares, scans and patches it byte by byte.
Each method here is one of those loops, proved to compute the bit-level notion of `Ids`. */
module IdBytes {
  import opened Ids
  import opened ByteBits

  type Bytes = s: seq<bv8> | |s| == 20 witness seq(20, i => 0)

  /** The path an id denotes. */
  function Bits(id: Bytes): (s: Id)
    ensures forall k :: 0 <= k < BITS ==> s[k] == BitOf(id[k / 8], k % 8)
  {
    seq(BITS, k requires 0 <= k < BITS => BitOf(id[k / 8], k % 8))
  }

  // --------------------------------------------------------------- orderings

  lemma BytesAgree(a: Bytes, b: Bytes, i: nat)
    requires i <= 20 && a[..i] == b[..i]
    ensures Bits(a)[..8 * i] == Bits(b)[..8 * i]
  {
    forall k | 0 <= k < 8 * i ensures Bits(a)[k] == Bits(b)[k] {
      assert a[k / 8] == a[..i][k / 8] && b[k / 8] == b[..i][k / 8];
    }
  }

  /** The first differing byte decides the numeric order of the paths. */
  lemma ByteDecides(a: Bytes, b: Bytes, i: nat)
    requires i < 20 && a[..i] == b[..i] && a[i] < b[i]
    ensures Num(Bits(a)) < Num(Bits(b))
  {
    LeadDecides(a[i], b[i]);
    var j := Lead(a[i], b[i]);
    var k := 8 * i + j;
    assert k / 8 == i && k % 8 == j;
    BytesAgree(a, b, i);
    forall m | 0 <= m < k ensures Bits(a)[m] == Bits(b)[m] {
      if m < 8 * i {
        assert Bits(a)[..8 * i][m] == Bits(b)[..8 * i][m];
      } else {
        assert m / 8 == i && m % 8 < j;
        LeadAgrees(a[i], b[i], m % 8);
      }
    }
    BitDecides(Bits(a), Bits(b), k);
  }

  /** Models id_cmp (memcmp over twenty bytes): its sign is the order of the paths' values. */
  method IdCmp(id1: Bytes, id2: Bytes) returns (r: int)
    ensures r < 0 <==> Num(Bits(id1)) < Num(Bits(id2))
    ensures r > 0 <==> Num(Bits(id1)) > Num(Bits(id2))
    ensures r == 0 <==> id1 == id2
  {
    var i := 0;
    while i < 20
      invariant 0 <= i <= 20 && id1[..i] == id2[..i]
    {
      if id1[i] < id2[i] {
        ByteDecides(id1, id2, i);
        return -1;
      } else if id1[i] > id2[i] {
        ByteDecides(id2, id1, i);
        return 1;
      }
      i := i + 1;
    }
    assert id1 == id1[..20] && id2 == id2[..20];
    return 0;
  }

  function XorBytes(a: Bytes, ref: Bytes): Bytes
  {
    seq(20, i requires 0 <= i < 20 => a[i] ^ ref[i])
  }

  lemma XorBytesBits(a: Bytes, ref: Bytes)
    ensures Bits(XorBytes(a, ref)) == Xor(Bits(a), Bits(ref))
  {
    forall k | 0 <= k < BITS ensures Bits(XorBytes(a, ref))[k] == Xor(Bits(a), Bits(ref))[k] {
      XorBit(a[k / 8], ref[k / 8], k % 8);
    }
  }

  lemma XorDecides(a: Bytes, b: Bytes, ref: Bytes, i: nat)
    requires i < 20 && a[..i] == b[..i] && a[i] ^ ref[i] < b[i] ^ ref[i]
    ensures Dist(Bits(a), Bits(ref)) < Dist(Bits(b), Bits(ref))
  {
    var x, y := XorBytes(a, ref), XorBytes(b, ref);
    forall j | 0 <= j < i ensures x[..i][j] == y[..i][j] {
      assert a[j] == a[..i][j] && b[j] == b[..i][j];
    }
    assert x[..i] == y[..i];
    ByteDecides(x, y, i);
    XorBytesBits(a, ref);
    XorBytesBits(b, ref);
  }

  /** Models xorcmp: its sign is the order of the XOR distances to `ref`. */
  method XorCmp(id1: Bytes, id2: Bytes, ref: Bytes) returns (r: int)
    ensures r < 0 <==> Dist(Bits(id1), Bits(ref)) < Dist(Bits(id2), Bits(ref))
    ensures r > 0 <==> Dist(Bits(id1), Bits(ref)) > Dist(Bits(id2), Bits(ref))
    ensures r == 0 <==> id1 == id2
  {
    var i := 0;
    while i < 20
      invariant 0 <= i <= 20 && id1[..i] == id2[..i]
    {
      if id1[i] != id2[i] {
        var xor1 := id1[i] ^ ref[i];
        var xor2 := id2[i] ^ ref[i];
        XorDiffers(id1[i], id2[i], ref[i]);
        if xor1 < xor2 {
          XorDecides(id1, id2, ref, i);
          return -1;
        } else {
          XorDecides(id2, id1, ref, i);
          return 1;
        }
      }
      i := i + 1;
    }
    assert id1 == id1[..20] && id2 == id2[..20];
    return 0;
  }

  // ------------------------------------------------------------ bit patching

  /** Models lowbit: the index of the last set bit of the path, or -1. */
  method LowBit(id: Bytes) returns (r: int)
    ensures r == LastSet(Bits(id))
  {
    var i := 19;
    while i >= 0 && id[i] == 0
      invariant -1 <= i <= 19
      invariant forall k :: i < k < 20 ==> id[k] == 0
    {
      i := i - 1;
    }
    if i < 0 {
      LastSetUnique(Bits(id), -1);
      return -1;
    }
    var j := 7;
    SomeBit(id[i]);
    while !BitOf(id[i], j)
      invariant 0 <= j <= 7
      invariant exists m: nat :: m <= j && BitOf(id[i], m)
      invariant forall m: nat :: j < m < 8 ==> !BitOf(id[i], m)
      decreases j
    {
      assert j > 0;
      j := j - 1;
    }
    r := 8 * i + j;
    assert r / 8 == i && r % 8 == j;
    forall k | r < k < BITS ensures !Bits(id)[k] {
      if k < 8 * (i + 1) { assert k / 8 == i && k % 8 > j; }
    }
    LastSetUnique(Bits(id), r);
  }

  /** Models `id[bit / 8] |= 0x80 >> (bit % 8)` in bucket_middle. */
  method SetBit(id: Bytes, bit: nat) returns (r: Bytes)
    requires bit < BITS
    ensures Bits(r) == Bits(id)[bit := true]
  {
    r := id[bit / 8 := id[bit / 8] | Mask(bit % 8)];
    forall k | 0 <= k < BITS ensures Bits(r)[k] == Bits(id)[bit := true][k] {
      SetBitAt(id, bit, k);
    }
  }

  lemma SetBitAt(id: Bytes, bit: nat, k: nat)
    requires bit < BITS && k < BITS
    ensures BitOf(id[bit / 8 := id[bit / 8] | Mask(bit % 8)][k / 8], k % 8) == (k == bit || BitOf(id[k / 8], k % 8))
  {
    if k / 8 == bit / 8 { OrBit(id[k / 8], bit % 8, k % 8); }
  }
}
