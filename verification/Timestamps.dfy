/** Timestamps in rational time bases: comparison and rescaling. */
module Timestamps {

  datatype Rational = Rational(num: int, den: int)

  const INT_MAX := 0x7fff_ffff

  predicate IsTimeBase(tb: Rational) {
    tb.num > 0 && tb.den > 0
  }

  type TimeBase = tb: Rational | IsTimeBase(tb) witness Rational(1, 1)

  /** A timestamp in its time base; Unknown stands for AV_NOPTS_VALUE. */
  datatype Timestamp = Unknown | At(ts: int, tb: TimeBase)

  /** The time a timestamp stands for. */
  function Seconds(ts: int, tb: Rational): real
    requires IsTimeBase(tb)
  {
    (ts * tb.num) as real / tb.den as real
  }

  function Sign(x: int): int {
    if x < 0 then -1 else if x > 0 then 1 else 0
  }

  function Abs(x: int): nat {
    if x < 0 then -x else x
  }

  /** av_rescale_rnd with AV_ROUND_DOWN: ts * b / c rounded down. */
  function RescaleDown(ts: int, b: int, c: int): int
    requires b > 0 && c > 0
  {
    ts * b / c
  }

  /** av_compare_ts: products that fit are compared directly, others after rescaling. */
  function CompareTs(ts: int, tb: Rational, ts': int, tb': Rational): int
    requires IsTimeBase(tb) && IsTimeBase(tb')
  {
    Positive(tb.num, tb'.den);
    Positive(tb'.num, tb.den);
    var a := tb.num * tb'.den;
    var b := tb'.num * tb.den;
    if Abs(ts) <= INT_MAX && a <= INT_MAX && Abs(ts') <= INT_MAX && b <= INT_MAX then
      Sign(ts * a - ts' * b)
    else if RescaleDown(ts, a, b) < ts' then -1
    else if RescaleDown(ts', b, a) < ts then 1
    else 0
  }

  lemma Positive(a: int, b: int)
    requires a > 0 && b > 0
    ensures a * b > 0
  {
  }

  lemma FloorLess(n: int, c: int, t: int)
    requires c > 0
    ensures n / c < t <==> n < t * c
  {
    assert n == c * (n / c) + n % c;
    if n / c < t {
      MulMonotone(n / c + 1, t, c);
    } else {
      MulMonotone(t, n / c, c);
    }
  }

  lemma MulMonotone(x: int, y: int, c: int)
    requires x <= y && c >= 0
    ensures x * c <= y * c
  {
  }

  /** Both ways of comparing give the sign of the exact difference. */
  lemma CompareTsIsExact(ts: int, tb: Rational, ts': int, tb': Rational)
    requires IsTimeBase(tb) && IsTimeBase(tb')
    ensures CompareTs(ts, tb, ts', tb') == Sign(ts * (tb.num * tb'.den) - ts' * (tb'.num * tb.den))
  {
    Positive(tb.num, tb'.den);
    Positive(tb'.num, tb.den);
    var a := tb.num * tb'.den;
    var b := tb'.num * tb.den;
    FloorLess(ts * a, b, ts');
    FloorLess(ts' * b, a, ts);
  }

  lemma CrossMultiply(x: int, p: int, y: int, q: int)
    requires p > 0 && q > 0
    ensures x as real / p as real < y as real / q as real <==> x * q < y * p
    ensures x as real / p as real == y as real / q as real <==> x * q == y * p
  {
    var u, v := x as real / p as real, y as real / q as real;
    var pr, qr := p as real, q as real;
    assert u * pr == x as real && v * qr == y as real;
    assert (x * q) as real == u * pr * qr && (y * p) as real == v * qr * pr;
    ScaleCompare(u, v, pr * qr);
    assert u * pr * qr == u * (pr * qr) && v * qr * pr == v * (pr * qr);
  }

  lemma ScaleCompare(u: real, v: real, k: real)
    requires k > 0.0
    ensures u < v <==> u * k < v * k
    ensures u == v <==> u * k == v * k
  {
  }

  /** Comparing timestamps compares the times they stand for. */
  lemma CompareTsIsTime(ts: int, tb: Rational, ts': int, tb': Rational)
    requires IsTimeBase(tb) && IsTimeBase(tb')
    ensures CompareTs(ts, tb, ts', tb') < 0 <==> Seconds(ts, tb) < Seconds(ts', tb')
    ensures CompareTs(ts, tb, ts', tb') > 0 <==> Seconds(ts, tb) > Seconds(ts', tb')
  {
    CompareTsIsExact(ts, tb, ts', tb');
    CrossMultiply(ts * tb.num, tb.den, ts' * tb'.num, tb'.den);
    assert ts * tb.num * tb'.den == ts * (tb.num * tb'.den);
    assert ts' * tb'.num * tb.den == ts' * (tb'.num * tb.den);
  }

  predicate Before(a: Timestamp, b: Timestamp)
    requires a.At? && b.At?
  {
    CompareTs(a.ts, a.tb, b.ts, b.tb) < 0
  }

  /** The time a known timestamp stands for. */
  function Time(a: Timestamp): real
    requires a.At?
  {
    Seconds(a.ts, a.tb)
  }

  lemma BeforeIsTime(a: Timestamp, b: Timestamp)
    requires a.At? && b.At?
    ensures Before(a, b) <==> Time(a) < Time(b)
  {
    CompareTsIsTime(a.ts, a.tb, b.ts, b.tb);
  }

  /** The running maximum: max, unless it is not known or ts comes after it. */
  function Later(max: Timestamp, ts: Timestamp): Timestamp {
    if max == Unknown || (ts.At? && Before(max, ts)) then ts else max
  }

  // ---- Rescaling ----

  /** av_rescale: a * b / c rounded to the nearest, halves away from zero. */
  function Rescale(a: int, b: nat, c: nat): int
    requires c > 0
  {
    if a < 0 then -((-a * b + c / 2) / c) else (a * b + c / 2) / c
  }

  /** av_rescale_q: a timestamp moved from one time base to another. */
  function RescaleQ(a: int, bq: Rational, cq: Rational): int
    requires IsTimeBase(bq) && IsTimeBase(cq)
  {
    Positive(bq.num, cq.den);
    Positive(cq.num, bq.den);
    Rescale(a, bq.num * cq.den, cq.num * bq.den)
  }

  /** Rescaling is off by at most half a unit. */
  lemma RescaleError(a: int, b: nat, c: nat)
    requires c > 0
    ensures Abs(2 * (Rescale(a, b, c) * c - a * b)) <= c
  {
    if a < 0 {
      NegMul(a, b);
      RescaleErrorNat(-a * b, c);
      NegMul((-a * b + c / 2) / c, c);
    } else {
      RescaleErrorNat(a * b, c);
    }
  }

  lemma NegMul(x: int, y: int)
    ensures -x * y == -(x * y)
  {
  }

  lemma RescaleErrorNat(n: int, c: nat)
    requires c > 0
    ensures Abs(2 * ((n + c / 2) / c * c - n)) <= c
  {
    var m := n + c / 2;
    assert m == c * (m / c) + m % c;
    assert m / c * c == c * (m / c);
  }

  /** Halves are rounded away from zero, on either side of it. */
  lemma RescaleHalves(a: int, b: nat, c: nat, k: nat)
    requires a >= 0 && c > 0 && 2 * (a * b) == (2 * k + 1) * c
    ensures Rescale(a, b, c) == k + 1 && Rescale(-a, b, c) == -(k + 1)
  {
    var n := a * b;
    var h := c / 2;
    EvenFactor(c, k, n);
    assert n + h == (k + 1) * c by {
      assert (k + 1) * c == k * c + c && (2 * k + 1) * c == 2 * (k * c) + c;
    }
    Exactly(n + h, c, k + 1);
    NegMul(-a, b);
    assert a == 0 ==> n == 0;
  }

  lemma EvenFactor(c: nat, k: nat, n: int)
    requires 2 * n == (2 * k + 1) * c
    ensures c == 2 * (c / 2)
  {
    assert (2 * k + 1) * c == 2 * (k * c) + c;
  }

  lemma Exactly(n: int, c: nat, q: nat)
    requires c > 0 && n == q * c
    ensures n / c == q
  {
    FloorLess(n, c, q);
    FloorLess(n, c, q + 1);
    assert (q + 1) * c == q * c + c;
  }

  /** Rescaling between commensurable units is exact. */
  lemma RescaleExact(a: int, b: nat, c: nat, k: int)
    requires c > 0 && a * b == k * c
    ensures Rescale(a, b, c) == k
  {
    RescaleError(a, b, c);
    var r := Rescale(a, b, c);
    assert r * c - k * c == (r - k) * c;
    if r - k >= 1 {
      MulMonotone(1, r - k, c);
    } else if r - k <= -1 {
      MulMonotone(r - k, -1, c);
    }
  }

  /** Rescaling to the same time base changes nothing. */
  lemma RescaleSame(a: int, tb: Rational)
    requires IsTimeBase(tb)
    ensures RescaleQ(a, tb, tb) == a
  {
    Positive(tb.num, tb.den);
    RescaleExact(a, tb.num * tb.den, tb.num * tb.den, a);
  }

  /** The length of one unit of a time base. */
  function Tick(tb: Rational): real
    requires IsTimeBase(tb)
  {
    tb.num as real / tb.den as real
  }

  /** Moving a timestamp to another time base moves it in time by at most half a unit. */
  lemma RescaleQError(a: int, bq: Rational, cq: Rational)
    requires IsTimeBase(bq) && IsTimeBase(cq)
    ensures -Tick(cq) / 2.0 <= Seconds(RescaleQ(a, bq, cq), cq) - Seconds(a, bq) <= Tick(cq) / 2.0
  {
    var r := RescaleQ(a, bq, cq);
    RescaleQErrorInt(a, bq, cq);
    FractionError(r * cq.num, cq.den, a * bq.num, bq.den, cq.num);
  }

  lemma RescaleQErrorInt(a: int, bq: Rational, cq: Rational)
    requires IsTimeBase(bq) && IsTimeBase(cq)
    ensures Abs(2 * (RescaleQ(a, bq, cq) * cq.num * bq.den - a * bq.num * cq.den)) <= cq.num * bq.den
  {
    Positive(bq.num, cq.den);
    Positive(cq.num, bq.den);
    var r := RescaleQ(a, bq, cq);
    RescaleError(a, bq.num * cq.den, cq.num * bq.den);
    Associate(r, cq.num, bq.den);
    Associate(a, bq.num, cq.den);
  }

  lemma Associate(x: int, y: int, z: int)
    ensures x * y * z == x * (y * z)
  {
  }

  lemma FractionError(x: int, p: int, y: int, q: int, n: int)
    requires p > 0 && q > 0 && n > 0
    requires Abs(2 * (x * q - y * p)) <= n * q
    ensures var u, v, w := x as real / p as real, y as real / q as real, n as real / p as real;
            -w / 2.0 <= u - v <= w / 2.0
  {
    var u, v, w := x as real / p as real, y as real / q as real, n as real / p as real;
    var k := p as real * q as real;
    assert u * k == (x * q) as real && v * k == (y * p) as real && w * k == (n * q) as real by {
      CrossTerms(x, p, q);
      CrossTerms(y, q, p);
      CrossTerms(n, p, q);
    }
    assert (2.0 * (u - v)) * k == 2.0 * (u * k - v * k);
    assert (2.0 * (v - u)) * k == 2.0 * (v * k - u * k);
    ScaleCompare(w, 2.0 * (u - v), k);
    ScaleCompare(w, 2.0 * (v - u), k);
  }

  lemma CrossTerms(x: int, p: int, q: int)
    requires p > 0 && q > 0
    ensures x as real / p as real * (p as real * q as real) == (x * q) as real
  {
    var u := x as real / p as real;
    assert u * p as real == x as real;
    assert u * (p as real * q as real) == u * p as real * q as real;
  }
}
