/** Unsigned binary numbers as the source manipulates them: masks, shifts, `|` and `&`. */
module Bits {

  function Pow2(n: nat): (p: nat)
    ensures p >= 1
  {
    if n == 0 then 1 else 2 * Pow2(n - 1)
  }

  function Times(m: nat, n: nat): nat { m * n }

  /** Bitwise `a | b`. */
  function BitOr(a: nat, b: nat): nat {
    if a == 0 && b == 0 then 0
    else (if a % 2 == 1 || b % 2 == 1 then 1 else 0) + 2 * BitOr(a / 2, b / 2)
  }

  /** Bitwise `a & b`. */
  function BitAnd(a: nat, b: nat): nat {
    if a == 0 || b == 0 then 0
    else (if a % 2 == 1 && b % 2 == 1 then 1 else 0) + 2 * BitAnd(a / 2, b / 2)
  }

  /** The slice `w[lo : lo + width]` of a signal. */
  function Field(w: nat, lo: nat, width: nat): nat {
    w / Pow2(lo) % Pow2(width)
  }

  lemma {:induction false} Pow2Add(m: nat, n: nat)
    ensures Pow2(m + n) == Pow2(m) * Pow2(n)
  {
    if m > 0 {
      Pow2Add(m - 1, n);
      TwiceProduct(Pow2(m - 1), Pow2(n));
    }
  }

  lemma TwiceProduct(a: nat, b: nat)
    ensures 2 * (a * b) == (2 * a) * b
  {
  }

  lemma {:induction false} Pow2Monotone(m: nat, n: nat)
    requires m <= n
    ensures Pow2(m) <= Pow2(n)
  {
    if m < n {
      Pow2Monotone(m, n - 1);
    }
  }

  lemma {:induction false} BitOrZero(b: nat)
    ensures BitOr(0, b) == b
  {
    if b > 0 {
      BitOrZero(b / 2);
    }
  }

  /** Or-ing a number below 2^n with one shifted up by n places adds them. */
  lemma {:induction false} OrDisjoint(a: nat, b: nat, n: nat)
    requires a < Pow2(n)
    ensures BitOr(a, b * Pow2(n)) == a + b * Pow2(n)
  {
    if n == 0 {
      BitOrZero(b);
    } else {
      var high := b * Pow2(n - 1);
      assert b * Pow2(n) == 2 * high;
      OrDisjoint(a / 2, b, n - 1);
      assert (2 * high) % 2 == 0 && (2 * high) / 2 == high;
    }
  }

  lemma {:induction false} BitAndBound(a: nat, mask: nat)
    ensures BitAnd(a, mask) <= mask
  {
    if a != 0 && mask != 0 {
      BitAndBound(a / 2, mask / 2);
    }
  }

  lemma {:induction false} MulMonotone(a: nat, b: nat, unit: nat)
    requires a <= b
    ensures a * unit <= b * unit
  {
    assert (b - a) * unit >= 0;
  }

  /** Splitting `low + high * unit` at `unit` gives the two parts back. */
  lemma {:induction false} SplitAt(low: nat, high: nat, unit: nat)
    requires low < unit
    ensures (low + high * unit) / unit == high
    ensures (low + high * unit) % unit == low
  {
    var sum := low + high * unit;
    Quotient(sum / unit, sum % unit, high, low, unit);
  }

  lemma {:induction false} Quotient(q: nat, r: nat, q': nat, r': nat, unit: nat)
    requires r < unit && r' < unit
    requires q * unit + r == q' * unit + r'
    ensures q == q' && r == r'
  {
    if q < q' {
      MulMonotone(q + 1, q', unit);
    } else if q' < q {
      MulMonotone(q' + 1, q, unit);
    }
  }

  /** The slice of a word packed as `low | middle << lo | high << (lo + width)` is `middle`. */
  lemma {:induction false} FieldOfPacked(low: nat, middle: nat, high: nat, lo: nat, width: nat)
    requires low < Pow2(lo) && middle < Pow2(width)
    ensures Field(low + (middle + high * Pow2(width)) * Pow2(lo), lo, width) == middle
  {
    SplitAt(low, middle + high * Pow2(width), Pow2(lo));
    SplitAt(middle, high, Pow2(width));
  }

  /** Dividing twice. */
  lemma QuotientOfQuotient(a: nat, m: nat, n: nat)
    requires m > 0 && n > 0
    ensures a / (m * n) == a / n / m
  {
    var b, unit := a / n, m * n;
    DivMod(a, n);
    DivMod(b, m);
    DivMod(a, unit);
    QuotientParts(a, m, n, b / m, b % m, a % n, a / unit, a % unit);
  }

  lemma Divide(a: nat, unit: nat) returns (q: nat, r: nat)
    requires unit > 0
    ensures a == q * unit + r && r < unit
  {
    q, r := a / unit, a % unit;
  }

  lemma DivMod(a: nat, unit: nat)
    requires unit > 0
    ensures a == a / unit * unit + a % unit && a % unit < unit
  {
  }

  lemma QuotientParts(a: nat, m: nat, n: nat, q: nat, r: nat, s: nat, q': nat, r': nat)
    requires n > 0 && a == (q * m + r) * n + s && r < m && s < n && a == q' * (m * n) + r' && r' < m * n
    ensures q == q'
  {
    assert (q * m + r) * n + s == q * (m * n) + (r * n + s);
    MulMonotone(r + 1, m, n);
    Quotient(q', r', q, r * n + s, m * n);
  }

  /** Halving a number halves its remainder by an even unit. */
  lemma LowParts(a: nat, half: nat, q: nat, r: nat, q': nat, r': nat)
    requires a == q * (2 * half) + r && r < 2 * half && a / 2 == q' * half + r' && r' < half
    ensures r / 2 == r' && r % 2 == a % 2
  {
    assert q * (2 * half) == 2 * (q * half);
    Quotient(q, r / 2, q', r', half);
  }

  lemma {:induction false} OrCommutes(a: nat, b: nat)
    ensures BitOr(a, b) == BitOr(b, a)
  {
    if a != 0 || b != 0 {
      OrCommutes(a / 2, b / 2);
    }
  }

  lemma SmallRemainder(a: nat, unit: nat)
    requires a < unit
    ensures a % unit == a
  {
  }

  function Over(a: nat, unit: nat): nat
    requires unit > 0
  {
    a / unit
  }

  /** Masking with ones below bit `width` is the remainder. */
  lemma {:induction false} MaskIsRemainder(a: nat, width: nat, q: nat, r: nat)
    requires a == q * Pow2(width) + r && r < Pow2(width)
    ensures BitAnd(a, Pow2(width) - 1) == r
  {
    if width > 0 {
      var half := Pow2(width - 1);
      TwiceQuotient(q, half);
      MaskIsRemainder(a / 2, width - 1, q, r / 2);
      OnesMask(a, half);
    }
  }

  lemma TwiceQuotient(q: nat, half: nat)
    ensures q * (2 * half) == 2 * (q * half)
  {
  }

  lemma OnesMask(a: nat, half: nat)
    requires half > 0
    ensures BitAnd(a, 2 * half - 1) == a % 2 + 2 * BitAnd(a / 2, half - 1)
  {
    assert (2 * half - 1) / 2 == half - 1 && (2 * half - 1) % 2 == 1;
  }

  // ------------------------------------------------------- Single bits

  /** Bit `k` of a number. */
  function Bit(a: nat, k: nat): nat { if k == 0 then a % 2 else Bit(a / 2, k - 1) }

  lemma {:induction false} BitIsDigit(a: nat, k: nat)
    ensures Bit(a, k) == a / Pow2(k) % 2
  {
    if k > 0 {
      BitIsDigit(a / 2, k - 1);
      QuotientOfQuotient(a, Pow2(k - 1), 2);
    }
  }

  lemma {:induction false} AndBit(a: nat, b: nat, k: nat)
    ensures Bit(BitAnd(a, b), k) == if Bit(a, k) == 1 && Bit(b, k) == 1 then 1 else 0
  {
    if a == 0 || b == 0 {
      ZeroBit(k);
    } else if k > 0 {
      AndBit(a / 2, b / 2, k - 1);
    }
  }

  lemma {:induction false} OrBit(a: nat, b: nat, k: nat)
    ensures Bit(BitOr(a, b), k) == if Bit(a, k) == 1 || Bit(b, k) == 1 then 1 else 0
  {
    if a == 0 && b == 0 {
      ZeroBit(k);
    } else if k > 0 {
      OrBit(a / 2, b / 2, k - 1);
    }
  }

  lemma {:induction false} ZeroBit(k: nat)
    ensures Bit(0, k) == 0
  {
    if k > 0 {
      ZeroBit(k - 1);
    }
  }

  /** A number and its complement to all ones differ in every bit. */
  lemma {:induction false} ComplementBit(a: nat, width: nat, k: nat)
    requires a < Pow2(width) && k < width
    ensures Bit(Pow2(width) - 1 - a, k) == 1 - Bit(a, k)
  {
    var half: nat := Pow2(width - 1);
    HalfComplement(a, half);
    if k > 0 {
      ComplementBit(a / 2, width - 1, k - 1);
    }
  }

  lemma HalfComplement(a: nat, half: nat)
    requires a < 2 * half
    ensures (2 * half - 1 - a) / 2 == half - 1 - a / 2 && (2 * half - 1 - a) % 2 == 1 - a % 2
  {
  }
}
