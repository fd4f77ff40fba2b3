/** 160-bit node identifiers as paths from the root of the id tree.

Bits are numbered from the most significant end, as in dht/dht.c.  Two numeric readings
of an id carry the whole theory: `Num`, its big-endian value, and `Dist`, the XOR
distance to a reference id.  `IdBytes` refines the comparisons to twenty-byte arrays. */
module Ids {
  import opened Arith

  const BITS: nat := 160

  type Id = s: seq<bool> | |s| == BITS witness seq(BITS, i => false)

  function B(b: bool): nat { if b then 1 else 0 }

  function Pow2(n: nat): nat
  {
    if n == 0 then 1 else 2 * Pow2(n - 1)
  }

  /** The value of a bit string, most significant bit first. */
  function Num(s: seq<bool>): nat
  {
    if s == [] then 0 else 2 * Num(s[..|s| - 1]) + B(s[|s| - 1])
  }

  function Xor(a: seq<bool>, ref: seq<bool>): (x: seq<bool>)
    requires |a| == |ref|
    ensures |x| == |a|
    ensures forall i :: 0 <= i < |a| ==> x[i] == (a[i] != ref[i])
  {
    seq(|a|, i requires 0 <= i < |a| => a[i] != ref[i])
  }

  /** XOR distance (BEP 5, section "Overview"). */
  function Dist(a: Id, ref: Id): nat { Num(Xor(a, ref)) }

  const ZERO: Id := seq(BITS, i => false)

  // ------------------------------------------------------------- arithmetic

  lemma {:induction false} Pow2Positive(n: nat)
    ensures Pow2(n) >= 1
  {
    if n > 0 { Pow2Positive(n - 1); }
  }

  lemma Doubled(p: nat, q: nat, t: nat, b: nat)
    requires p * q <= t < (p + 1) * q && b <= 1
    ensures p * (2 * q) <= 2 * t + b < (p + 1) * (2 * q)
    ensures 2 * t + b == p * (2 * q) <==> t == p * q && b == 0
  {
    assert p * (2 * q) == 2 * (p * q) && (p + 1) * (2 * q) == 2 * ((p + 1) * q);
  }

  // --------------------------------------------------------------- prefixes

  /** A bit string lies in the dyadic interval its first `k` bits denote. */
  lemma {:induction false} NumBounds(s: seq<bool>, k: nat)
    requires k <= |s|
    ensures Num(s[..k]) * Pow2(|s| - k) <= Num(s) < (Num(s[..k]) + 1) * Pow2(|s| - k)
    decreases |s|
  {
    if k == |s| {
      assert s[..k] == s;
    } else {
      var t := s[..|s| - 1];
      NumBounds(t, k);
      assert t[..k] == s[..k];
      Doubled(Num(s[..k]), Pow2(|t| - k), Num(t), B(s[|s| - 1]));
    }
  }

  lemma NumBelow(s: seq<bool>)
    ensures Num(s) < Pow2(|s|)
  {
    NumBounds(s, 0);
    assert s[..0] == [];
  }

  /** Strings of equal length and equal value are equal. */
  lemma {:induction false} NumInjective(a: seq<bool>, b: seq<bool>)
    requires |a| == |b| && Num(a) == Num(b)
    ensures a == b
    decreases |a|
  {
    if a != [] {
      var n := |a| - 1;
      assert B(a[n]) == B(b[n]);
      NumInjective(a[..n], b[..n]);
      assert a == a[..n] + [a[n]] && b == b[..n] + [b[n]];
    }
  }

  /** The first differing bit decides the numeric order. */
  lemma BitDecides(a: seq<bool>, b: seq<bool>, k: nat)
    requires |a| == |b| && k < |a| && a[..k] == b[..k] && !a[k] && b[k]
    ensures Num(a) < Num(b)
  {
    assert a[..k + 1][..k] == a[..k] && b[..k + 1][..k] == b[..k];
    NumBounds(a, k + 1);
    NumBounds(b, k + 1);
    MulLe(Num(a[..k + 1]) + 1, Num(b[..k + 1]), Pow2(|a| - k - 1));
  }

  ghost predicate ClearFrom(s: seq<bool>, d: int)
  {
    forall i :: 0 <= i < |s| && d <= i ==> !s[i]
  }

  /** All bits from `d` on are clear exactly when the value is a multiple of the block size. */
  lemma {:induction false} ClearTail(s: seq<bool>, d: nat)
    requires d <= |s|
    ensures Num(s) == Num(s[..d]) * Pow2(|s| - d) <==> ClearFrom(s, d)
    decreases |s|
  {
    if d == |s| {
      assert s[..d] == s;
    } else {
      var t := s[..|s| - 1];
      ClearTail(t, d);
      NumBounds(t, d);
      assert t[..d] == s[..d];
      Doubled(Num(s[..d]), Pow2(|t| - d), Num(t), B(s[|s| - 1]));
      assert forall i :: d <= i < |s| - 1 ==> s[i] == t[i];
    }
  }

  /** Setting the first bit of a clear tail adds half the block. */
  lemma SetBitValue(id: seq<bool>, d: nat)
    requires d < |id| && ClearFrom(id, d)
    ensures ClearFrom(id[d := true], d + 1)
    ensures Num(id[d := true]) == Num(id) + Pow2(|id| - d - 1)
  {
    var m := id[d := true];
    var q := Pow2(|id| - d - 1);
    ClearTail(m, d + 1);
    ClearTail(id, d + 1);
    assert m[..d + 1][..d] == id[..d + 1][..d];
    assert Num(m[..d + 1]) == Num(id[..d + 1]) + 1;
    assert (Num(id[..d + 1]) + 1) * q == Num(id[..d + 1]) * q + q;
  }

  // ------------------------------------------------------------ XOR distance

  lemma DistInjective(a: Id, b: Id, ref: Id)
    requires Dist(a, ref) == Dist(b, ref)
    ensures a == b
  {
    var x, y := Xor(a, ref), Xor(b, ref);
    NumInjective(x, y);
    assert forall i :: 0 <= i < BITS ==> x[i] == y[i] ==> a[i] == b[i];
  }

  lemma {:induction false} NumZero(s: seq<bool>)
    ensures Num(s) == 0 <==> forall i :: 0 <= i < |s| ==> !s[i]
    decreases |s|
  {
    if s != [] { NumZero(s[..|s| - 1]); }
  }

  /** Sharing a k-bit prefix with `ref` is the same as being within 2^(160-k) of it. */
  lemma PrefixIsDistance(a: Id, ref: Id, k: nat)
    requires k <= BITS
    ensures a[..k] == ref[..k] <==> Dist(a, ref) < Pow2(BITS - k)
  {
    var x := Xor(a, ref);
    NumZero(x[..k]);
    NumBounds(x, k);
    if Num(x[..k]) > 0 { MulLe(1, Num(x[..k]), Pow2(BITS - k)); }
    if a[..k] == ref[..k] {
      forall i | 0 <= i < k ensures !x[..k][i] { assert a[..k][i] == ref[..k][i]; }
    } else {
      var i :| 0 <= i < k && a[..k][i] != ref[..k][i];
      assert x[..k][i];
    }
  }

  // --------------------------------------------------------------- lowest bit

  /** The index of the last set bit, or -1. */
  function LastSet(s: seq<bool>): (r: int)
    ensures -1 <= r < |s|
  {
    if s == [] then -1 else if s[|s| - 1] then |s| - 1 else LastSet(s[..|s| - 1])
  }

  /** LastSet is characterised by the bit it names and the clear tail behind it. */
  lemma {:induction false} LastSetUnique(s: seq<bool>, r: int)
    requires -1 <= r < |s|
    ensures r == LastSet(s) <==> (r >= 0 ==> s[r]) && ClearFrom(s, r + 1)
    decreases |s|
  {
    if s != [] {
      var n := |s| - 1;
      if !s[n] && r < n {
        LastSetUnique(s[..n], r);
        assert forall i :: r < i < n ==> s[..n][i] == s[i];
      }
    }
  }
}
