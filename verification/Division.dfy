/** Rounded division and the inequalities the fund's accounting rests on.

    The lemmas below the first group mention no quotient: each takes the defining inequalities of
    the rounded values as hypotheses, so that the nonlinear steps stay small. */
module Division {
  /** The quotient rounded up, computed as Rust's div_ceil does. */
  function CeilDiv(n: nat, d: nat): (q: nat)
    requires d > 0
    ensures n <= q * d < n + d
  {
    var q := n / d;
    FloorBounds(n, d);
    if n % d > 0 then q + 1 else q
  }

  /** Division rounding toward zero, as Rust and JavaScript divide. */
  function TruncDiv(n: int, d: nat): (q: int)
    requires d > 0
    ensures n >= 0 ==> q == n / d
    ensures n <= 0 ==> q == -((-n) / d)
  {
    if n >= 0 then n / d else -((-n) / d)
  }

  lemma FloorBounds(n: nat, d: nat)
    requires d > 0
    ensures 0 <= n / d <= n
    ensures n / d * d <= n < n / d * d + d
    ensures n / d * d + n % d == n
  {
    var q, r := n / d, n % d;
    assert n == d * q + r;
    assert d * q == q * d;
    QuotientRange(n, d, q, r);
  }

  lemma QuotientRange(n: nat, d: nat, q: int, r: nat)
    requires r < d && n == q * d + r
    ensures 0 <= q <= n
  {
    assert q < 0 ==> (q + 1) * d <= 0;
    assert q >= 0 ==> q * (d - 1) >= 0;
  }

  lemma FloorAtLeast(q: int, n: nat, d: nat)
    requires d > 0
    requires q * d <= n
    ensures q <= n / d
  {
    FloorBounds(n, d);
    var f := n / d;
    assert q > f ==> q * d >= (f + 1) * d;
  }

  lemma FloorBelow(q: int, n: nat, d: nat)
    requires d > 0
    requires n < q * d
    ensures n / d < q
  {
    FloorBounds(n, d);
    var f := n / d;
    assert q <= f ==> q * d <= f * d;
  }

  lemma CeilAtMost(q: int, n: nat, d: nat)
    requires d > 0
    requires n <= q * d
    ensures CeilDiv(n, d) <= q
  {
    var c := CeilDiv(n, d);
    assert c > q ==> c * d >= (q + 1) * d;
  }

  lemma CeilWithin(n: nat, d: nat)
    requires d > 0
    ensures 0 <= CeilDiv(n, d) <= n
  {
    assert n <= n * d by {
      assert n * (d - 1) >= 0;
    }
    CeilAtMost(n, n, d);
  }

  lemma CeilAbove(q: int, n: nat, d: nat)
    requires d > 0
    requires q * d < n
    ensures q < CeilDiv(n, d)
  {
    var c := CeilDiv(n, d);
    assert c <= q ==> c * d <= q * d;
  }

  lemma FloorMonotone(n: nat, m: nat, d: nat)
    requires d > 0 && n <= m
    ensures n / d <= m / d
  {
    FloorBounds(n, d);
    FloorAtLeast(n / d, m, d);
  }

  lemma CeilMonotone(n: nat, m: nat, d: nat)
    requires d > 0 && n <= m
    ensures CeilDiv(n, d) <= CeilDiv(m, d)
  {
    CeilAtMost(CeilDiv(m, d), n, d);
  }

  /** A larger divisor gives a smaller quotient. */
  lemma FloorAntitone(n: nat, d: nat, e: nat)
    requires 0 < d <= e
    ensures n / e <= n / d
  {
    FloorBounds(n, e);
    assert n / e * d <= n / e * e;
    FloorAtLeast(n / e, n, d);
  }

  lemma CeilSubadditive(n: nat, m: nat, d: nat)
    requires d > 0
    ensures CeilDiv(n + m, d) <= CeilDiv(n, d) + CeilDiv(m, d)
  {
    var p, q := CeilDiv(n, d), CeilDiv(m, d);
    assert (p + q) * d == p * d + q * d;
    CeilAtMost(p + q, n + m, d);
  }

  lemma MulMonotone(a: int, b: int, c: int)
    requires a <= b && c >= 0
    ensures a * c <= b * c
    ensures c * a <= c * b
  {
  }

  lemma CancelMul(a: int, b: int, c: int)
    requires c > 0
    requires a * c <= b * c
    ensures a <= b
  {
    assert a > b ==> a * c >= (b + 1) * c;
  }

  lemma MulStrict(a: int, b: int, c: int)
    requires a < b && c > 0
    ensures a * c < b * c
  {
  }

  lemma CancelStrict(a: int, b: int, c: int)
    requires c > 0
    requires a * c < b * c
    ensures a < b
  {
    assert a >= b ==> a * c >= b * c;
  }
}
