/** Facts about numbers and finite sets that several of the models use. */
module Basics {

  function Min(a: int, b: int): int { if a < b then a else b }
  function Max(a: int, b: int): int { if a < b then b else a }
  function Abs(n: int): nat { if n < 0 then -n else n }

  function Pow(base: nat, n: nat): (p: nat)
    ensures base > 0 ==> p > 0
  {
    if n == 0 then 1 else base * Pow(base, n - 1)
  }

  function Pow2(n: nat): (p: nat)
    ensures p > n
  {
    if n == 0 then 1 else 2 * Pow2(n - 1)
  }

  lemma MulMonotone(x: int, y: int, d: int)
    requires x <= y && d >= 0
    ensures x * d <= y * d
  {}

  lemma MulUp(x: nat, y: nat, u: nat)
    requires u > 0
    ensures x < y ==> x * u + u <= y * u
  {
    if x < y {
      var d := y - x - 1;
      assert d * u >= 0;
      assert (d + (x + 1)) * u == d * u + (x + 1) * u;
    }
  }

  lemma MulLess(x: nat, y: nat, u: nat)
    requires u > 0
    ensures x < y <==> x * u < y * u
    ensures x <= y ==> x * u <= y * u
  {
    MulUp(x, y, u);
    MulUp(y, x, u);
  }

  lemma Quotient(m: nat, u: nat)
    requires u > 0
    ensures m / u * u <= m < m / u * u + u
  {
    assert m == u * (m / u) + m % u;
  }

  lemma QuotientIs(m: nat, u: nat, q: nat)
    requires u > 0 && q * u <= m < q * u + u
    ensures m / u == q
  {
    Quotient(m, u);
    MulUp(q, m / u, u);
    MulUp(m / u, q, u);
  }

  lemma QuotientGrows(m: nat, n: nat, u: nat)
    requires u > 0 && m <= n
    ensures m / u <= n / u
  {
    Quotient(m, u);
    Quotient(n, u);
    MulUp(n / u, m / u, u);
  }

  lemma QuotientLess(m: nat, w: nat, u: nat)
    requires u > 0
    ensures m / u < w <==> m < w * u
  {
    Quotient(m, u);
    if m / u < w { MulUp(m / u, w, u); } else { MulLess(w, m / u, u); }
  }

  lemma QuotientNotNegative(m: nat, u: nat)
    requires u > 0
    ensures m / u >= 0
  {}

  lemma {:induction false} SubsetSize<T>(a: set<T>, b: set<T>)
    requires a <= b
    ensures |a| <= |b|
  {
    if a != {} {
      var x :| x in a;
      SubsetSize(a - {x}, b - {x});
    }
  }

  // The numbers below n.
  function Upto(n: nat): (s: set<int>)
    ensures |s| == n && forall i :: i in s <==> 0 <= i < n
  {
    if n == 0 then {} else Upto(n - 1) + {n - 1}
  }

  // ---------- bits ----------

  // 1 << k
  function Mask(k: nat): bv8
    requires k < 8
  {
    if k == 0 then 1 else if k == 1 then 2 else if k == 2 then 4 else if k == 3 then 8
    else if k == 4 then 16 else if k == 5 then 32 else if k == 6 then 64 else 128
  }

  lemma OrMask(b: bv8, k: nat, j: nat)
    requires k < 8 && j < 8
    ensures (b | Mask(k)) & Mask(j) != 0 <==> j == k || b & Mask(j) != 0
  {}

  lemma OrNothing(b: bv8)
    ensures b | 0 == b
  {}
}
