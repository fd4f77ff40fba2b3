/** The bits of a byte, numbered from the most significant one. */
module ByteBits {

  /** The mask `0x80 >> j`. */
  function Mask(j: nat): bv8
    requires j < 8
  {
    if j == 0 then 0x80 else if j == 1 then 0x40 else if j == 2 then 0x20 else if j == 3 then 0x10
    else if j == 4 then 0x08 else if j == 5 then 0x04 else if j == 6 then 0x02 else 0x01
  }

  predicate BitOf(b: bv8, j: nat)
    requires j < 8
  {
    b & Mask(j) != 0
  }

  /** The first bit in which two bytes differ. */
  function Lead(x: bv8, y: bv8): nat
  {
    if BitOf(x, 0) != BitOf(y, 0) then 0 else if BitOf(x, 1) != BitOf(y, 1) then 1
    else if BitOf(x, 2) != BitOf(y, 2) then 2 else if BitOf(x, 3) != BitOf(y, 3) then 3
    else if BitOf(x, 4) != BitOf(y, 4) then 4 else if BitOf(x, 5) != BitOf(y, 5) then 5
    else if BitOf(x, 6) != BitOf(y, 6) then 6 else 7
  }

  lemma LeadDecides(x: bv8, y: bv8)
    requires x < y
    ensures Lead(x, y) < 8
    ensures !BitOf(x, Lead(x, y)) && BitOf(y, Lead(x, y))
  {
  }

  lemma LeadAgrees(x: bv8, y: bv8, j: nat)
    requires j < 8 && j < Lead(x, y)
    ensures BitOf(x, j) == BitOf(y, j)
  {
    var l := Lead(x, y);
    if j == 0 { } else if j == 1 { } else if j == 2 { } else if j == 3 { }
    else if j == 4 { } else if j == 5 { } else { }
  }

  predicate Single(m: bv8) { m != 0 && m & (m - 1) == 0 }

  lemma MaskSingle(j: nat, k: nat)
    requires j < 8 && k < 8
    ensures Single(Mask(j)) && (j != k ==> Mask(j) & Mask(k) == 0)
  {
  }

  lemma XorSingle(x: bv8, r: bv8, m: bv8)
    requires Single(m)
    ensures ((x ^ r) & m != 0) == ((x & m != 0) != (r & m != 0))
  {
  }

  lemma XorBit(x: bv8, r: bv8, j: nat)
    requires j < 8
    ensures BitOf(x ^ r, j) == (BitOf(x, j) != BitOf(r, j))
  {
    MaskSingle(j, j);
    XorSingle(x, r, Mask(j));
  }

  lemma XorDiffers(x: bv8, y: bv8, r: bv8)
    requires x != y
    ensures x ^ r != y ^ r
  {
  }

  lemma OrBit(b: bv8, j: nat, m: nat)
    requires j < 8 && m < 8
    ensures BitOf(b | Mask(j), m) == (m == j || BitOf(b, m))
  {
    MaskSingle(j, m);
    MasksDiffer(j, m);
    OrSingle(b, Mask(j), Mask(m));
    hide Mask, Single;
  }

  lemma MasksDiffer(j: nat, m: nat)
    requires j < 8 && m < 8
    ensures Mask(j) == Mask(m) <==> j == m
  {
  }

  lemma OrSingle(b: bv8, m: bv8, n: bv8)
    requires Single(m) && (m == n || m & n == 0)
    ensures ((b | m) & n != 0) == (m == n || b & n != 0)
  {
  }

  lemma SomeBit(b: bv8)
    requires b != 0
    ensures exists j: nat :: j < 8 && BitOf(b, j)
  {
    assert BitOf(b, 0) || BitOf(b, 1) || BitOf(b, 2) || BitOf(b, 3)
        || BitOf(b, 4) || BitOf(b, 5) || BitOf(b, 6) || BitOf(b, 7);
  }

  /** Clearing one bit leaves the others. */
  lemma AndNotBit(b: bv8, j: nat, m: nat)
    requires j < 8 && m < 8
    ensures BitOf(b & !Mask(j), m) == (m != j && BitOf(b, m))
  {
    MaskSingle(j, m);
    AndNotSingle(b, Mask(j), Mask(m));
    assert m != j ==> Mask(j) != Mask(m);
  }

  lemma AndNotSingle(b: bv8, m: bv8, n: bv8)
    requires Single(n) && (m == n || m & n == 0)
    ensures (b & !m & n != 0) == (m != n && b & n != 0)
  {
  }

  /** A byte is determined by its bits. */
  lemma BitsDetermine(x: bv8, y: bv8)
    requires forall j: nat :: j < 8 ==> BitOf(x, j) == BitOf(y, j)
    ensures x == y
  {
    assert BitOf(x, 0) == BitOf(y, 0) && BitOf(x, 1) == BitOf(y, 1) && BitOf(x, 2) == BitOf(y, 2)
        && BitOf(x, 3) == BitOf(y, 3) && BitOf(x, 4) == BitOf(y, 4) && BitOf(x, 5) == BitOf(y, 5)
        && BitOf(x, 6) == BitOf(y, 6) && BitOf(x, 7) == BitOf(y, 7);
  }

  /** Models bits.TrailingZeros8 for a byte that is not zero. */
  function Trailing(b: bv8): (n: nat)
    ensures n < 8
  {
    if BitOf(b, 7) then 0 else if BitOf(b, 6) then 1 else if BitOf(b, 5) then 2 else if BitOf(b, 4) then 3
    else if BitOf(b, 3) then 4 else if BitOf(b, 2) then 5 else if BitOf(b, 1) then 6 else 7
  }

  lemma TrailingBit(b: bv8)
    requires b != 0
    ensures BitOf(b, 7 - Trailing(b))
  {
    assert BitOf(b, 0) || BitOf(b, 1) || BitOf(b, 2) || BitOf(b, 3)
        || BitOf(b, 4) || BitOf(b, 5) || BitOf(b, 6) || BitOf(b, 7);
  }

  lemma TrailingClear(b: bv8, j: nat)
    requires 7 - Trailing(b) < j < 8
    ensures !BitOf(b, j)
  {
    hide BitOf;
    if j == 7 { } else if j == 6 { } else if j == 5 { } else if j == 4 { }
    else if j == 3 { } else if j == 2 { } else { }
  }
}
