/** Facts about multiplication and division that the solver does not find by itself. */
module Arith {

  function One(b: bool): nat { if b then 1 else 0 }

  lemma MulLe(a: nat, b: nat, m: nat)
    requires a <= b
    ensures a * m <= b * m
  {
    assert b * m - a * m == (b - a) * m;
  }

  /** A number determines its quotient. */
  lemma QuotientUnique(x: nat, m: nat, p: nat, q: nat)
    requires p * m <= x < (p + 1) * m
    requires q * m <= x < (q + 1) * m
    ensures p == q
  {
    if p + 1 <= q { MulLe(p + 1, q, m); }
    if q + 1 <= p { MulLe(q + 1, p, m); }
  }

  lemma Distribute(a: nat, b: nat, m: nat)
    ensures (a + b) * m == a * m + b * m
  {
  }

  lemma MulAssoc(a: nat, b: nat, c: nat)
    ensures a * b * c == a * (b * c)
  {
  }

  lemma Euclid(x: nat, m: nat)
    requires m > 0
    ensures x == x / m * m + x % m && 0 <= x % m < m && 0 <= x / m
  {
  }

  /** Quotient and remainder are determined by the equation they satisfy. */
  lemma DivMod(x: nat, m: nat, q: nat, r: nat)
    requires m > 0 && x == q * m + r && r < m
    ensures x / m == q && x % m == r
  {
    Euclid(x, m);
    Distribute(q, 1, m);
    Distribute(x / m, 1, m);
    QuotientUnique(x, m, q, x / m);
  }

  lemma BelowNext(q: nat, d: nat, m: nat, x: nat)
    requires q * m <= x < (d + 1) * m
    ensures q <= d
  {
    if d + 1 <= q { MulLe(d + 1, q, m); }
  }

  lemma QuotientBound(x: nat, m: nat, q: nat)
    requires m > 0 && q * m <= x
    ensures q <= x / m
  {
    Euclid(x, m);
    Distribute(x / m, 1, m);
    BelowNext(q, x / m, m, x);
  }

  lemma DivAntitone(x: nat, a: nat, b: nat)
    requires 0 < a <= b
    ensures x / b <= x / a
  {
    Euclid(x, b);
    MulLe(a, b, x / b);
    QuotientBound(x, a, x / b);
  }

  /** Rounding up. */
  lemma CeilDiv(x: nat, m: nat)
    requires m > 0
    ensures (x + m - 1) / m == if x % m == 0 then x / m else x / m + 1
  {
    Euclid(x, m);
    Distribute(x / m, 1, m);
    if x % m == 0 {
      DivMod(x + m - 1, m, x / m, m - 1);
    } else {
      DivMod(x + m - 1, m, x / m + 1, x % m - 1);
    }
  }

  lemma ModSum(a: nat, p: nat, b: nat, q: nat, m: nat)
    requires p < m && q < m
    ensures (a * m + p + (b * m + q)) % m == if p + q < m then p + q else p + q - m
  {
    var x := a * m + p + (b * m + q);
    Distribute(a, b, m);
    Distribute(a + b, 1, m);
    if p + q < m {
      DivMod(x, m, a + b, p + q);
    } else {
      DivMod(x, m, a + b + 1, p + q - m);
    }
  }

  /** Reducing modulo w first does not matter exactly when m divides what was cut off. */
  lemma ModMod(x: nat, w: nat, m: nat)
    requires w > 0 && m > 0
    ensures x % w % m == x % m <==> (x / w * w) % m == 0
  {
    var cut, low := x / w * w, x % w;
    Euclid(x, w);
    Euclid(cut, m);
    Euclid(low, m);
    ModSum(cut / m, cut % m, low / m, low % m, m);
  }

  lemma ScaledMod(c: nat, n: nat, k: nat)
    requires n > 0 && k > 0
    ensures n * k > 0 && c * k % (n * k) == c % n * k
  {
    var q, r := c / n, c % n;
    Euclid(c, n);
    MulLe(1, n, k);
    Distribute(q * n, r, k);
    MulAssoc(q, n, k);
    MulLe(r + 1, n, k);
    Distribute(r, 1, k);
    DivMod(c * k, n * k, q, r * k);
  }
}
