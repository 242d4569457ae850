/** Arithmetic over the reals behind the loss bound. */
module LossArithmetic {

  lemma {:induction false} MulLeft(a: real, b: real, c: real)
    requires a >= 0.0 && b <= c
    ensures a * b <= a * c
  {
    assert a * (c - b) >= 0.0;
  }

  lemma {:induction false} RatioSign(rho: real, price: real, d: real)
    requires price > 0.0 && rho * price == d
    ensures (rho < 0.0 <==> d < 0.0) && (rho > 0.0 <==> d > 0.0)
  {
    assert rho > 0.0 ==> rho * price > 0.0;
    assert rho < 0.0 ==> rho * price < 0.0;
  }

  lemma {:induction false} Quotient(a: real, rho: real, c: real)
    requires rho > 0.0
    ensures rho * c <= a <==> c <= a / rho
  {
    var q := a / rho;
    assert rho * q == a;
    assert c <= q ==> rho * (q - c) >= 0.0;
    assert c > q ==> rho * (c - q) > 0.0;
  }

  lemma {:induction false} QuotientIsFraction(k: real, m: real, n: real)
    requires m > 0.0 && 0.0 <= n <= m && k * m == n
    ensures 0.0 <= k <= 1.0
  {
    assert k > 1.0 ==> (k - 1.0) * m > 0.0;
    assert k < 0.0 ==> k * m < 0.0;
  }

  /** The stop price as a fraction of the entry price. */
  lemma {:induction false} StopFraction(price: real, sl: real)
    requires price > 0.0
    ensures sl / price == 1.0 - (price - sl) / price
  {
    assert (price - sl) / price == price / price - sl / price;
  }

  lemma {:induction false} Fractions(f: real, s: real, m: real, cap: real, price: real, sl: real)
    requires m > 0.0 && price > 0.0
    ensures m * price > 0.0
    ensures f * ((cap / (m * price)) * (s * sl)) == ((f * s) / m) * ((sl / price) * cap)
  {
    var u, v, w := cap / (m * price), (f * s) / m, sl / price;
    assert u * (m * price) == cap && v * m == f * s && w * price == sl;
    calc {
      f * (u * (s * sl));
      (f * s) * (u * sl);
      (v * m) * (u * (w * price));
      v * (w * (u * (m * price)));
      v * (w * cap);
    }
  }

  lemma {:induction false} SumsBounded(f: real, a: real, b: real, c: real, d: real, lost: real, bound: real)
    requires f >= 0.0 && a <= c && b <= d && lost == f * (a + b) && bound == f * (c + d)
    ensures lost <= bound
  {
    MulLeft(f, a + b, c + d);
  }

  lemma {:induction false} LostExactly(f: real, k: real, cap: real, rho: real, paid: real, w: real, a: real, b: real)
    requires paid == f * cap && w == 1.0 - rho && a == (1.0 - k) * cap && b == k * (rho * cap)
    ensures paid - k * (w * paid) == f * (a + b)
  {
    assert f * a == f * ((1.0 - k) * cap) && f * b == f * (k * (rho * cap));
    assert k * (w * paid) == k * ((1.0 - rho) * (f * cap));
  }

  lemma {:induction false} BoundExactly(f: real, k: real, r: real, l: real, e: real, q: real, c: real, d: real)
    requires q == f * (k * r + (1.0 - k) * l) && c == (1.0 - k) * (l * e) && d == k * (r * e)
    ensures e * q == f * (c + d)
  {
    assert f * c == f * ((1.0 - k) * (l * e)) && f * d == f * (k * (r * e));
    assert e * q == e * (f * (k * r + (1.0 - k) * l));
  }

  lemma {:induction false} ReachesExactly(f: real, k: real, r: real, l: real, e: real, cap: real, rho: real, paid: real,
                                          w: real, q: real)
    requires cap == e * l && rho * cap == r * e && paid == f * cap && w == 1.0 - rho && q == f * (k * r + (1.0 - k) * l)
    ensures paid - k * (w * paid) == e * q
  {
    LostExactly(f, k, cap, rho, paid, w, (1.0 - k) * cap, k * (rho * cap));
    BoundExactly(f, k, r, l, e, q, (1.0 - k) * (l * e), k * (r * e));
  }

  lemma {:induction false} PartsBounded(f: real, k: real, r: real, l: real, e: real, cap: real, rho: real, paid: real,
                                        w: real, q: real,
                     a: real, b: real, c: real, d: real)
    requires 0.0 < f && paid == f * cap && w == 1.0 - rho && q == f * (k * r + (1.0 - k) * l)
    requires a == (1.0 - k) * cap && b == k * (rho * cap) && c == (1.0 - k) * (l * e) && d == k * (r * e)
    requires a <= c && b <= d
    ensures paid - k * (w * paid) <= e * q
  {
    LostExactly(f, k, cap, rho, paid, w, a, b);
    BoundExactly(f, k, r, l, e, q, c, d);
    SumsBounded(f, a, b, c, d, paid - k * (w * paid), e * q);
  }

  /** Equity left after a stop-out, as a share of the equity before. */
  lemma {:induction false} LossIsBounded(f: real, k: real, r: real, l: real, e: real, cap: real, rho: real, paid: real,
                                         w: real, q: real)
    requires 0.0 < f <= 1.0 && 0.0 <= k <= 1.0 && cap <= l * e && rho * cap <= r * e
    requires paid == f * cap && w == 1.0 - rho && q == f * (k * r + (1.0 - k) * l)
    ensures paid - k * (w * paid) <= e * q
  {
    MulLeft(1.0 - k, cap, l * e);
    MulLeft(k, rho * cap, r * e);
    PartsBounded(f, k, r, l, e, cap, rho, paid, w, q, (1.0 - k) * cap, k * (rho * cap), (1.0 - k) * (l * e),
        k * (r * e));
  }

  lemma {:induction false} Shrinks(e: real, q: real)
    requires e > 0.0 && 0.0 <= q < 1.0
    ensures e * (1.0 - q) == e - e * q && 0.0 < e * (1.0 - q) <= e
  {
    MulLeft(e, 0.0, q);
    assert e * (1.0 - q) > 0.0;
  }

  lemma {:induction false} KeepsShare(e: real, y: real, q: real)
    requires e > 0.0 && 0.0 <= q < 1.0 && e - y <= e * q
    ensures y >= e * (1.0 - q) && y > 0.0
  {
    Shrinks(e, q);
  }

  lemma {:induction false} Chain(e: real, after: real, paid: real, back: real, bound: real)
    requires after >= e - paid + back && paid - back <= bound
    ensures e - after <= bound
  {
  }
}
