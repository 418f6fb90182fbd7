/** The gcd loop of the payload compiler and the least common multiple it yields. */
module Multiples {
  import opened Bits

  function Gcd(x: nat, y: nat): (g: nat)
    ensures x > 0 || y > 0 ==> g > 0
    decreases y
  {
    if y == 0 then x else Gcd(y, x % y)
  }

  /** The gcd divides both numbers and is an integer combination of them. */
  lemma {:induction false} GcdCombines(x: nat, y: nat) returns (p: nat, q: nat, a: int, b: int)
    requires x > 0 || y > 0
    ensures x == p * Gcd(x, y) && y == q * Gcd(x, y)
    ensures Gcd(x, y) == a * x + b * y
    decreases y
  {
    if y == 0 {
      p, q, a, b := 1, 0, 1, 0;
    } else {
      var k, r := WithRemainder(x, y);
      var p', q', a', b' := GcdCombines(y, r);
      p, q, a, b := k * p' + q', p', b', a' - b' * k;
      Fold(x, y, k, r, p', q', Gcd(x, y), a', b');
    }
  }

  lemma WithRemainder(x: nat, y: nat) returns (k: nat, r: nat)
    requires y > 0
    ensures x == k * y + r && r == x % y < y
  {
    k, r := x / y, x % y;
  }

  lemma Fold(x: nat, y: nat, k: nat, r: nat, p: nat, q: nat, g: nat, a: int, b: int)
    requires x == k * y + r && y == p * g && r == q * g
    ensures x == (k * p + q) * g
    ensures a * y + b * r == b * x + (a - b * k) * y
  {
    assert k * (p * g) == (k * p) * g;
    assert b * r == b * x - b * (k * y) == b * x - (b * k) * y;
  }

  function Lcm(x: nat, y: nat): nat
    requires x > 0 || y > 0
  {
    x * y / Gcd(x, y)
  }

  lemma ExactQuotient(n: nat, g: nat)
    requires g > 0
    ensures n * g / g == n
  {
    SplitAt(0, n, g);
  }

  lemma LcmValue(x: nat, y: nat, p: nat, q: nat)
    requires x > 0 && y > 0 && x == p * Gcd(x, y) && y == q * Gcd(x, y)
    ensures Lcm(x, y) == p * y && Lcm(x, y) == q * x
  {
    var g := Gcd(x, y);
    assert x * y == (p * y) * g && x * y == (q * x) * g;
    ExactQuotient(p * y, g);
    ExactQuotient(q * x, g);
  }

  lemma Combine(x: nat, y: nat, g: int, a: int, b: int, m: nat, u: nat, v: nat)
    requires g == a * x + b * y && m == u * x && m == v * y
    ensures m * g == (a * v + b * u) * (x * y)
  {
    assert m * (a * x) == (v * y) * (a * x) == (a * v) * (x * y);
    assert m * (b * y) == (u * x) * (b * y) == (b * u) * (x * y);
  }

  lemma NonPositive(t: int, l: nat)
    requires t <= 0
    ensures t * l <= 0
  {
  }

  lemma CancelAtLeast(m: nat, l: nat, t: int, g: nat)
    requires g > 0 && m > 0 && m * g == t * (l * g)
    ensures m >= l
  {
    assert (m - t * l) * g == 0;
    assert m == t * l;
    if t <= 0 {
      NonPositive(t, l);
      assert false;
    }
    assert (t - 1) * l >= 0;
  }

  /** It is a common multiple, and no positive common multiple is smaller. */
  lemma LcmIsLeast(x: nat, y: nat, m: nat, u: nat, v: nat)
    requires x > 0 && y > 0 && m > 0 && m == u * x && m == v * y
    ensures exists p: nat, q: nat :: Lcm(x, y) == p * y && Lcm(x, y) == q * x
    ensures 0 < Lcm(x, y) <= m
  {
    var g := Gcd(x, y);
    var p, q, a, b := GcdCombines(x, y);
    LcmValue(x, y, p, q);
    Combine(x, y, g, a, b, m, u, v);
    assert x * y == Lcm(x, y) * g;
    CancelAtLeast(m, Lcm(x, y), a * v + b * u, g);
    assert p > 0;
  }

  // ------------------------------------------------------- A negative first argument

  lemma MutualDivisors(g: nat, h: nat, s: int, t: int)
    requires g > 0 && h > 0 && g == s * h && h == t * g
    ensures g == h
  {
    if s <= 0 {
      NonPositive(s, h);
    }
    if t <= 0 {
      NonPositive(t, g);
    }
    assert (s - 1) * h >= 0 && (t - 1) * g >= 0;
  }

  /** Multiples of `g` combine to one. */
  lemma CombineMultiples(a: int, b: int, p: int, q: int, g: int)
    ensures a * (p * g) + b * (q * g) == (a * p + b * q) * g
  {
    assert a * (p * g) == (a * p) * g && b * (q * g) == (b * q) * g;
  }

  /** The first step of the loop on a negative number still has the gcd of its absolute value. */
  lemma GcdOfNegative(x: nat, y: nat, k: int, r: nat)
    requires x > 0 && y > 0 && x + k * y + r == 0
    ensures Gcd(y, r) == Gcd(x, y)
  {
    var p, q, a, b := GcdCombines(x, y);
    var p', q', a', b' := GcdCombines(y, r);
    SameDivisors(x, y, k, r, Gcd(x, y), p, q, a, b, Gcd(y, r), p', q', a', b');
  }

  lemma SameDivisors(x: int, y: int, k: int, r: int, g: nat, p: int, q: int, a: int, b: int,
                     h: nat, p': int, q': int, a': int, b': int)
    requires -x == k * y + r && g > 0 && h > 0
    requires x == p * g && y == q * g && g == a * x + b * y
    requires y == p' * h && r == q' * h && h == a' * y + b' * r
    ensures g == h
  {
    CombineMultiples(-k, -1, q, p, g);
    assert r == (-k) * y + (-1) * x;
    CombineMultiples(a', b', q, -k * q - p, g);
    CombineMultiples(-k, -1, p', q', h);
    assert x == (-k) * y + (-1) * r;
    CombineMultiples(a, b, -k * p' - q', p', h);
    MutualDivisors(g, h, a * (-k * p' - q') + b * p', a' * q + b' * (-k * q - p));
  }

  lemma LargeMultiple(d: int, g: nat)
    requires d >= 1
    ensures d * g >= g
  {
    assert (d - 1) * g >= 0;
  }

  lemma OneQuotient(n: int, k: int, r: nat, g: nat)
    requires n * g == k * g + r && r < g
    ensures n == k
  {
    assert (n - k) * g == r && (k - n) * g == 0 - r;
    if n < k {
      LargeMultiple(k - n, g);
    } else if n > k {
      LargeMultiple(n - k, g);
    }
  }

  lemma ExactInt(m: int, n: int, g: nat)
    requires g > 0 && m == n * g
    ensures m / g == n
  {
    OneQuotient(n, m / g, m % g, g);
  }

  lemma Shuffle(x: int, y: int, p: int, g: int, l: int)
    requires x == p * g && l == p * y
    ensures (-x) * y == (-l) * g
  {
    assert (p * g) * y == (p * y) * g;
  }

  /** The division behind the loop. */
  lemma SignedQuotient(x: nat, y: nat)
    requires x > 0 && y > 0
    ensures (0 - x) * y / Gcd(x, y) == 0 - Lcm(x, y)
  {
    var p, q, a, b := GcdCombines(x, y);
    LcmValue(x, y, p, q);
    Shuffle(x, y, p, Gcd(x, y), Lcm(x, y));
    ExactInt((0 - x) * y, 0 - Lcm(x, y), Gcd(x, y));
  }

  datatype Quotient = ZeroDivision | Value(value: int)

  function Magnitude(x: int): nat { if x < 0 then -x else x }

  /** Still the arguments, or a pair with the same gcd. */
  predicate OnTheWay(x: int, y: nat, gcd: int, rem: nat) {
    (gcd == x && rem == y) || (y > 0 && gcd > 0 && Gcd(gcd, rem) == Gcd(Magnitude(x), y))
  }

  lemma StepOn(x: int, y: nat, gcd: int, rem: nat, k: int, next: nat)
    requires rem > 0 && OnTheWay(x, y, gcd, rem) && gcd == k * rem + next && next == gcd % rem
    ensures OnTheWay(x, y, rem, next)
  {
    if gcd < 0 {
      GcdOfNegative(-x, y, k, next);
    }
  }

  lemma QuotientMeans(x: int, y: nat, gcd: int)
    requires gcd != 0 && OnTheWay(x, y, gcd, 0)
    ensures x > 0 && y > 0 ==> x * y / gcd == Lcm(x, y)
    ensures x < 0 && y > 0 ==> x * y / gcd == 0 - Lcm(-x, y)
    ensures x == 0 || y == 0 ==> x * y / gcd == 0
  {
    if x < 0 && y > 0 {
      SignedQuotient(-x, y);
    } else if x == 0 || y == 0 {
      assert x * y == 0;
    }
  }

  /** `least_common_multiple`; the first argument may be negative, and gives its sign to the result. */
  method LeastCommonMultiple(x: int, y: nat) returns (r: Quotient)
    ensures r.ZeroDivision? <==> x == 0 && y == 0
    ensures x > 0 && y > 0 ==> r == Value(Lcm(x, y))
    ensures x < 0 && y > 0 ==> r == Value(0 - Lcm(-x, y))
    ensures (x == 0 || y == 0) && r.Value? ==> r.value == 0
  {
    var gcd, rem := x, y;
    while rem != 0
      invariant rem >= 0 && OnTheWay(x, y, gcd, rem)
      decreases rem
    {
      StepOn(x, y, gcd, rem, gcd / rem, gcd % rem);
      gcd, rem := rem, gcd % rem;
    }
    if gcd == 0 {
      return ZeroDivision;
    }
    r := Value(x * y / gcd);
    QuotientMeans(x, y, gcd);
  }
}
