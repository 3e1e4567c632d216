/** Greatest common divisors and least common multiples, and the binary algorithm that
    computes the former. */
module Divisors {
  import opened Timestamps

  predicate Divides(d: nat, n: int)
    requires d > 0
  {
    n % d == 0
  }

  lemma DividesFrom(d: nat, n: int, k: int)
    requires d > 0 && n == d * k
    ensures Divides(d, n) && n / d == k
  {
    var q := n / d;
    assert n == d * q + n % d;
    assert d * (k - q) == n % d;
    SmallMultiple(d, k - q);
  }

  lemma SmallMultiple(d: nat, m: int)
    requires 0 <= d * m < d
    ensures m == 0
  {
    if m >= 1 {
      MulAtLeast(d, m);
    } else if m <= -1 {
      MulAtLeast(d, -m);
    }
  }

  lemma MulAtLeast(d: nat, k: int)
    requires k >= 1
    ensures d * k >= d
  {
  }

  lemma Quotient(d: nat, n: int)
    requires d > 0 && Divides(d, n)
    ensures n == d * (n / d)
  {
  }

  lemma DividesSum(d: nat, x: int, y: int, s: int, t: int)
    requires d > 0 && Divides(d, x) && Divides(d, y)
    ensures Divides(d, s * x + t * y)
  {
    var a, b := x / d, y / d;
    Quotient(d, x);
    Quotient(d, y);
    Pull(s, d, a);
    Pull(t, d, b);
    assert d * (s * a + t * b) == d * (s * a) + d * (t * b);
    DividesFrom(d, s * x + t * y, s * a + t * b);
  }

  lemma Pull(s: int, d: int, a: int)
    ensures s * (d * a) == d * (s * a)
  {
  }

  lemma DividesMultiple(d: nat, x: int, k: int)
    requires d > 0 && Divides(d, x)
    ensures Divides(d, k * x)
  {
    DividesSum(d, x, x, k, 0);
    assert k * x + 0 * x == k * x;
  }

  lemma DividesTransitive(a: nat, b: nat, c: int)
    requires a > 0 && b > 0 && Divides(a, b) && Divides(b, c)
    ensures Divides(a, c)
  {
    Quotient(b, c);
    DividesMultiple(a, b, c / b);
    assert c == c / b * b;
  }

  lemma DividesEachOther(a: nat, b: nat)
    requires a > 0 && b > 0 && Divides(a, b) && Divides(b, a)
    ensures a == b
  {
    AtMost(a, b);
    AtMost(b, a);
  }

  lemma AtMost(d: nat, n: nat)
    requires d > 0 && n > 0 && Divides(d, n)
    ensures d <= n
  {
    Quotient(d, n);
    if n / d >= 1 {
      MulAtLeast(d, n / d);
    }
  }

  // ---- Greatest common divisor ----

  function Gcd(a: nat, b: nat): (g: nat)
    requires a > 0 && b > 0
    ensures g > 0
    decreases a + b
  {
    if a == b then a else if a > b then Gcd(a - b, b) else Gcd(a, b - a)
  }

  lemma {:induction false} GcdDivides(a: nat, b: nat)
    requires a > 0 && b > 0
    ensures Divides(Gcd(a, b), a) && Divides(Gcd(a, b), b)
    decreases a + b
  {
    var g := Gcd(a, b);
    if a == b {
      DividesFrom(a, a, 1);
    } else if a > b {
      GcdDivides(a - b, b);
      DividesSum(g, a - b, b, 1, 1);
    } else {
      GcdDivides(a, b - a);
      DividesSum(g, b - a, a, 1, 1);
    }
  }

  /** The coefficients of Bezout's identity. */
  lemma {:induction false} Bezout(a: nat, b: nat) returns (s: int, t: int)
    requires a > 0 && b > 0
    ensures Gcd(a, b) == s * a + t * b
    decreases a + b
  {
    if a == b {
      s, t := 1, 0;
    } else if a > b {
      s, t := Bezout(a - b, b);
      assert s * (a - b) + t * b == s * a + (t - s) * b;
      t := t - s;
    } else {
      s, t := Bezout(a, b - a);
      assert s * a + t * (b - a) == (s - t) * a + t * b;
      s := s - t;
    }
  }

  /** Every common divisor divides the greatest. */
  lemma GcdIsGreatest(a: nat, b: nat, d: nat)
    requires a > 0 && b > 0 && d > 0 && Divides(d, a) && Divides(d, b)
    ensures Divides(d, Gcd(a, b))
  {
    var s, t := Bezout(a, b);
    DividesSum(d, a, b, s, t);
  }

  /** A common divisor that is a combination of the two numbers is the greatest. */
  lemma GcdFromBezout(a: nat, b: nat, g: nat, s: int, t: int)
    requires a > 0 && b > 0 && g > 0 && Divides(g, a) && Divides(g, b) && g == s * a + t * b
    ensures Gcd(a, b) == g
  {
    GcdIsGreatest(a, b, g);
    GcdDivides(a, b);
    DividesSum(Gcd(a, b), a, b, s, t);
    DividesEachOther(g, Gcd(a, b));
  }

  lemma {:induction false} GcdDouble(a: nat, b: nat)
    requires a > 0 && b > 0
    ensures Gcd(2 * a, 2 * b) == 2 * Gcd(a, b)
    decreases a + b
  {
    if a > b {
      GcdDouble(a - b, b);
    } else if a < b {
      GcdDouble(a, b - a);
    }
  }

  lemma {:induction false} GcdCommutes(a: nat, b: nat)
    requires a > 0 && b > 0
    ensures Gcd(a, b) == Gcd(b, a)
    decreases a + b
  {
    if a > b {
      GcdCommutes(a - b, b);
    } else if a < b {
      GcdCommutes(a, b - a);
    }
  }

  lemma OddDivisor(d: nat, a: nat, b: nat)
    requires d > 0 && b % 2 == 1 && Divides(d, b) && Divides(d, 2 * a)
    ensures Divides(d, a)
  {
    Quotient(d, b);
    Quotient(d, 2 * a);
    var k := 2 * a / d;
    OddFactors(d, b / d);
    if k % 2 == 1 {
      OddTimesOdd(d, k);
    }
    Pull(d, 2, k / 2);
    assert 2 * a == 2 * (d * (k / 2));
    DividesFrom(d, a, k / 2);
  }

  lemma OddFactors(x: int, y: int)
    requires x * y % 2 == 1
    ensures x % 2 == 1
  {
    if x % 2 == 0 {
      EvenTimes(x, y);
    }
  }

  lemma EvenTimes(x: int, y: int)
    requires x % 2 == 0
    ensures x * y % 2 == 0
  {
    assert x * y == 2 * (x / 2 * y);
  }

  lemma OddTimesOdd(x: int, y: int)
    requires x % 2 == 1 && y % 2 == 1
    ensures x * y % 2 == 1
  {
    OddTimes(x, x / 2, y, y / 2);
  }

  lemma OddTimes(x: int, i: int, y: int, j: int)
    requires x == 2 * i + 1 && y == 2 * j + 1
    ensures x * y == 2 * (i * y + j) + 1
  {
  }

  /** A factor two of one number alone does not matter. */
  lemma GcdHalve(a: nat, b: nat)
    requires a > 0 && b % 2 == 1
    ensures Gcd(b, 2 * a) == Gcd(b, a)
  {
    var g, h := Gcd(b, 2 * a), Gcd(b, a);
    GcdDivides(b, 2 * a);
    GcdDivides(b, a);
    OddDivisor(g, a, b);
    GcdIsGreatest(b, a, g);
    DividesMultiple(h, a, 2);
    GcdIsGreatest(b, 2 * a, h);
    DividesEachOther(g, h);
  }

  // ---- The binary algorithm ----

  /** The number of trailing zero bits, and the number without them. */
  function Ctz(n: nat): nat
    requires n > 0
  {
    if n % 2 == 1 then 0 else 1 + Ctz(n / 2)
  }

  function OddPart(n: nat): (m: nat)
    requires n > 0
    ensures m % 2 == 1 && m <= n
  {
    if n % 2 == 1 then n else OddPart(n / 2)
  }

  function Pow2(k: nat): (p: nat)
    ensures p > 0
  {
    if k == 0 then 1 else 2 * Pow2(k - 1)
  }

  function ShiftLeft(n: nat, k: nat): nat {
    Pow2(k) * n
  }

  lemma {:induction false} GcdOddPart(u: nat, v: nat)
    requires u % 2 == 1 && v > 0
    ensures Gcd(u, OddPart(v)) == Gcd(u, v)
    decreases v
  {
    if v % 2 == 0 {
      GcdHalve(v / 2, u);
      GcdOddPart(u, v / 2);
    }
  }

  function Least(a: nat, b: nat): nat {
    if a < b then a else b
  }

  lemma GcdOneOdd(a: nat, b: nat)
    requires a > 0 && b > 0 && (a % 2 == 1 || b % 2 == 1)
    ensures Gcd(a, b) == Gcd(OddPart(a), OddPart(b)) && Least(Ctz(a), Ctz(b)) == 0
  {
    if a % 2 == 1 {
      GcdOddPart(a, b);
    } else {
      GcdCommutes(a, b);
      GcdOddPart(b, a);
      GcdCommutes(b, OddPart(a));
    }
  }

  /** Common factors two come out in front. */
  lemma {:induction false} GcdTwos(a: nat, b: nat)
    requires a > 0 && b > 0
    ensures Gcd(a, b) == ShiftLeft(Gcd(OddPart(a), OddPart(b)), Least(Ctz(a), Ctz(b)))
    decreases a + b
  {
    if a % 2 == 0 && b % 2 == 0 {
      var x, y := a / 2, b / 2;
      GcdDouble(x, y);
      GcdTwos(x, y);
      assert Least(Ctz(a), Ctz(b)) == 1 + Least(Ctz(x), Ctz(y));
      Regroup(2, Pow2(Least(Ctz(x), Ctz(y))), Gcd(OddPart(x), OddPart(y)));
    } else {
      GcdOneOdd(a, b);
    }
  }

  lemma Regroup(x: int, y: int, z: int)
    ensures x * (y * z) == x * y * z
  {
  }

  lemma BinaryStep(u: nat, v: nat)
    requires 0 < u < v && u % 2 == 1
    ensures Gcd(u, OddPart(v - u)) == Gcd(u, v) == Gcd(v, u)
  {
    GcdCommutes(u, v);
    GcdOddPart(u, v - u);
  }

  /** The loop of av_gcd on odd numbers. */
  method OddGcd(a: nat, b: nat) returns (g: nat)
    requires a % 2 == 1 && b % 2 == 1
    ensures g == Gcd(a, b)
  {
    var u, v := a, b;
    while u != v
      invariant u % 2 == 1 && v % 2 == 1 && Gcd(u, v) == Gcd(a, b)
      decreases u + v
    {
      var x, y := if u > v then v else u, if u > v then u else v;
      BinaryStep(x, y);
      u, v := x, OddPart(y - x);
    }
    g := u;
  }

  /** av_gcd; the bits below the lowest one set are those of the absolute value. */
  method AvGcd(a: int, b: int) returns (g: int)
    ensures g == if a == 0 then b else if b == 0 then a else Gcd(Abs(a), Abs(b))
  {
    if a == 0 {
      return b;
    }
    if b == 0 {
      return a;
    }
    var u := OddGcd(OddPart(Abs(a)), OddPart(Abs(b)));
    g := ShiftLeft(u, Least(Ctz(Abs(a)), Ctz(Abs(b))));
    GcdTwos(Abs(a), Abs(b));
  }

  // ---- Least common multiple ----

  function Lcm(a: nat, b: nat): nat
    requires a > 0 && b > 0
  {
    a / Gcd(a, b) * b
  }

  lemma LcmIsMultiple(a: nat, b: nat)
    requires a > 0 && b > 0
    ensures Lcm(a, b) > 0 && Divides(a, Lcm(a, b)) && Divides(b, Lcm(a, b))
    ensures Lcm(a, b) * Gcd(a, b) == a * b
  {
    var g := Gcd(a, b);
    GcdDivides(a, b);
    Quotient(g, a);
    Quotient(g, b);
    var x, y := a / g, b / g;
    DividesFrom(b, x * b, x);
    assert x * b == a * y by { Pull(x, g, y); Pull(y, g, x); }
    DividesFrom(a, x * b, y);
    assert x * b * g == g * x * b;
    AtMost(g, a);
    MulAtLeast(b, x);
  }

  /** Every common multiple is a multiple of the least. */
  lemma LcmIsLeast(a: nat, b: nat, c: nat)
    requires a > 0 && b > 0 && Divides(a, c) && Divides(b, c)
    ensures Lcm(a, b) > 0 && Divides(Lcm(a, b), c)
  {
    var g, m := Gcd(a, b), Lcm(a, b);
    LcmIsMultiple(a, b);
    var s, t := Bezout(a, b);
    Quotient(a, c);
    Quotient(b, c);
    var x, y := c / a, c / b;
    CommonMultiple(a, b, c, x, y, s, t);
    var k := s * y + t * x;
    Regroup(m, g, k);
    Pull(m, g, k);
    assert c * g == m * k * g by { assert m * g * k == m * k * g; }
    CancelRight(c, m * k, g);
    DividesFrom(m, c, k);
  }

  lemma CommonMultiple(a: int, b: int, c: int, x: int, y: int, s: int, t: int)
    requires c == a * x && c == b * y
    ensures c * (s * a + t * b) == a * b * (s * y + t * x)
  {
    assert c * (s * a) == b * y * (s * a) == a * b * (s * y);
    assert c * (t * b) == a * x * (t * b) == a * b * (t * x);
    Distribute(c, s * a, t * b);
    Distribute(a * b, s * y, t * x);
  }

  lemma Distribute(k: int, x: int, y: int)
    ensures k * (x + y) == k * x + k * y
  {
  }

  lemma CancelRight(x: int, y: int, g: nat)
    requires g > 0 && x * g == y * g
    ensures x == y
  {
    assert (x - y) * g == 0;
    if x > y {
      MulAtLeast(g, x - y);
    } else if x < y {
      MulAtLeast(g, y - x);
    }
  }
}
