/** Private division (include/core/operators/circuits.h): the non-restoring circuit on double-width words. Division by
    a constant (include/core/containers/a_shared_vector.h, include/core/protocols/beaver_2pc.h): each side divides its
    share, and the remainders decide the correction. */
module Division {
  import opened PrefixNetworks

  /** The signed value of the low `bits` bits of x. */
  function Wrap(x: int, bits: nat): int
    requires bits >= 1
  {
    (x + Exp2(bits - 1)) % Exp2(bits) - Exp2(bits - 1)
  }

  lemma {:induction false} MulAtLeast(g: int, d: int)
    requires g >= 1
    ensures d >= 1 ==> g * d >= g
    ensures d <= -1 ==> g * d <= -g
  {
    if d >= 1 {
      assert g * (d - 1) >= 0;
    } else if d <= -1 {
      assert g * (-1 - d) >= 0;
    }
  }

  lemma {:induction false} DivideIs(x: int, d: int, q: int, r: int)
    requires d >= 1 && 0 <= r < d && x == d * q + r
    ensures x / d == q && x % d == r
  {
    var q', r' := x / d, x % d;
    assert d * (q' - q) == d * q' - d * q == r - r';
    MulAtLeast(d, q' - q);
  }

  /** A value that fits is its own wrap, also one full turn up. */
  lemma {:induction false} WrapFits(x: int, bits: nat)
    requires bits >= 1 && 0 - Exp2(bits - 1) <= x < Exp2(bits - 1)
    ensures Wrap(x, bits) == x && Wrap(x + Exp2(bits), bits) == x
  {
    var m, h := Exp2(bits), Exp2(bits - 1);
    DivideIs(x + h, m, 0, x + h);
    DivideIs(x + m + h, m, 1, x + h);
  }

  /** What a private division yields: the quotient rounded down; division by zero yields all ones or zero. */
  function Quotient(x: int, d: nat): int {
    if d > 0 then x / d else if x >= 0 then -1 else 0
  }

  /** SQLite's integer division: toward zero. */
  function Truncated(x: int, d: int): int
    requires d > 0
  {
    if x >= 0 then x / d else -((-x) / d)
  }

  /** Rounding down and truncating agree exactly on non-negative and on divisible dividends; otherwise truncating
      gives one more. */
  lemma {:induction false} RoundingAgrees(x: int, d: int)
    requires d > 0
    ensures x / d == Truncated(x, d) <==> x >= 0 || x % d == 0
    ensures x < 0 && x % d != 0 ==> Truncated(x, d) == x / d + 1
  {
    if x < 0 {
      var q, r := x / d, x % d;
      assert x == d * q + r;
      assert d * (-q) == -(d * q) && d * (-q - 1) == -(d * q) - d;
      if r == 0 { DivideIs(-x, d, -q, 0); } else { DivideIs(-x, d, -q - 1, d - r); }
    }
  }

  lemma {:induction false} ExpSum(a: nat, b: nat)
    ensures Exp2(a + b) == Exp2(a) * Exp2(b)
  {
    if b > 0 {
      ExpSum(a, b - 1);
      assert Exp2(a) * (2 * Exp2(b - 1)) == 2 * (Exp2(a) * Exp2(b - 1));
    }
  }

  /** After k steps: r is what is left of x * 2^k, and q holds the k quotient digits in its top k bits. */
  ghost predicate AfterSteps(x: int, d: int, w: nat, k: nat, r: int, q: int, digits: int) {
    && k <= w && -d <= r < d && 0 <= digits < Exp2(k)
    && r == x * Exp2(k) - d * Signed(digits, k)
    && q == digits * Exp2(w - k)
  }

  /** Digits 1 and 0 stand for +1 and -1. */
  ghost function Signed(digits: int, k: nat): int { 2 * digits - (Exp2(k) - 1) }

  lemma {:induction false} StepKeeps(x: int, d: int, w: nat, k: nat, r: int, q: int, digits: int)
    requires k < w && AfterSteps(x, d, w, k, r, q, digits)
    ensures r >= 0 ==> AfterSteps(x, d, w, k + 1, 2 * r - d, q + Exp2(w - 1 - k), 2 * digits + 1)
    ensures r < 0 ==> AfterSteps(x, d, w, k + 1, 2 * r + d, q, 2 * digits)
  {
    StepValue(x, d, r, Signed(digits, k), Exp2(k));
    StepDigits(digits, Exp2(w - 1 - k));
  }

  lemma {:induction false} StepValue(x: int, d: int, r: int, s: int, p: int)
    requires r == x * p - d * s
    ensures 2 * r - d == x * (2 * p) - d * (2 * s + 1)
    ensures 2 * r + d == x * (2 * p) - d * (2 * s - 1)
  {
    assert d * (2 * s + 1) == 2 * (d * s) + d;
    assert d * (2 * s - 1) == 2 * (d * s) - d;
    assert x * (2 * p) == 2 * (x * p);
  }

  lemma {:induction false} StepDigits(digits: int, half: int)
    ensures digits * (2 * half) == (2 * digits) * half
    ensures (2 * digits + 1) * half == (2 * digits) * half + half
  {
  }

  /** After all steps the signed-digit quotient, lowered by one under a negative remainder, is the quotient. */
  lemma {:induction false} FinalQuotient(x: int, d: int, s: int, p: int, r: int)
    requires d >= 1 && p >= 1 && r == x * p - d * p * s && -(d * p) <= r < d * p
    ensures x / d == if r < 0 then s - 1 else s
  {
    var rho := x - d * s;
    assert r == p * rho by {
      assert p * (x - d * s) == p * x - p * (d * s);
      assert d * p * s == p * (d * s);
    }
    assert p * (rho + d) == r + d * p && p * (rho - d) == r - d * p;
    MulAtLeast(p, rho);
    MulAtLeast(p, rho + d);
    MulAtLeast(p, rho - d);
    if rho >= 0 {
      DivideIs(x, d, s, rho);
    } else {
      assert d * (s - 1) == d * s - d;
      DivideIs(x, d, s - 1, rho + d);
    }
  }

  lemma {:induction false} DivisorFits(divisor: int, w: nat, x: int)
    requires w >= 2 && 0 < divisor < Exp2(w - 1) && 0 - Exp2(w - 1) <= x < Exp2(w - 1)
    ensures divisor * Exp2(w) < Exp2(2 * w - 1)
    ensures -(divisor * Exp2(w)) <= x < divisor * Exp2(w)
  {
    ExpSum(w - 1, w);
    MulAtLeast(Exp2(w), divisor);
    MulAtLeast(Exp2(w), Exp2(w - 1) - divisor);
    assert Exp2(w) * (Exp2(w - 1) - divisor) == Exp2(w - 1) * Exp2(w) - divisor * Exp2(w);
  }

  lemma {:induction false} MulGrows(d: int, q: int)
    requires d >= 1
    ensures q >= 0 ==> d * q >= q
    ensures q <= 0 ==> d * q <= q
  {
    if q >= 0 {
      assert (d - 1) * q >= 0;
    } else {
      assert (d - 1) * (-q) >= 0;
    }
  }

  lemma {:induction false} QuotientBetween(x: int, d: int, q: int, r: int)
    requires d >= 1 && 0 <= r < d && x == d * q + r
    ensures q >= 0 ==> q <= x
    ensures q < 0 ==> x <= q
  {
    MulGrows(d, q);
    MulGrows(d, q + 1);
    assert d * (q + 1) == d * q + d;
  }

  lemma {:induction false} QuotientFits(x: int, d: int, bound: int)
    requires d > 0 && 0 - bound <= x < bound
    ensures 0 - bound <= x / d < bound
  {
    QuotientBetween(x, d, x / d, x % d);
  }

  /** The corrected digits are the quotient. */
  lemma {:induction false} Corrected(x: int, divisor: int, w: nat, r: int, q: int, digits: int)
    requires w >= 2 && 0 - Exp2(w - 1) <= x < Exp2(w - 1) && divisor > 0
    requires AfterSteps(x, divisor * Exp2(w), w, w, r, q, digits)
    ensures Wrap(q - (-q - 1 + (if r < 0 then 1 else 0)), w) == x / divisor
  {
    var s := Signed(digits, w);
    assert q == digits;
    assert divisor * Exp2(w) * s == divisor * (Exp2(w) * s);
    FinalQuotient(x, divisor, s, Exp2(w), r);
    QuotientFits(x, divisor, Exp2(w - 1));
    WrapFits(x / divisor, w);
  }

  /** With divisor zero the remainder only doubles: every digit repeats the dividend's sign. */
  ghost predicate AfterZeroSteps(x: int, w: nat, k: nat, r: int, q: int, digits: int) {
    k <= w && r == x * Exp2(k) && digits == (if x >= 0 then Exp2(k) - 1 else 0) && q == digits * Exp2(w - k)
  }

  lemma {:induction false} ZeroStepKeeps(x: int, w: nat, k: nat, r: int, q: int, digits: int)
    requires k < w && AfterZeroSteps(x, w, k, r, q, digits)
    ensures r >= 0 <==> x >= 0
    ensures r >= 0 ==> AfterZeroSteps(x, w, k + 1, 2 * r, q + Exp2(w - 1 - k), 2 * digits + 1)
    ensures r < 0 ==> AfterZeroSteps(x, w, k + 1, 2 * r, q, 2 * digits)
  {
    StepValue(x, 0, r, 0, Exp2(k));
    StepDigits(digits, Exp2(w - 1 - k));
    SignOfProduct(x, Exp2(k));
  }

  lemma {:induction false} SignOfProduct(x: int, p: int)
    requires p >= 1
    ensures x * p >= 0 <==> x >= 0
  {
    if x >= 0 { assert x * p >= 0; } else { assert (-x) * p >= 1 by { MulAtLeast(p, -x); } }
  }

  lemma {:induction false} ProductBound(x: int, h: int, p: int)
    requires p >= 1 && 0 - h <= x < h
    ensures 0 - h * p <= x * p < h * p
  {
    MulAtLeast(p, h - x);
    assert p * (h - x) == h * p - x * p;
    assert p * (h + x) >= 0;
    assert p * (h + x) == h * p + x * p;
  }

  lemma {:induction false} ZeroFits(x: int, w: nat, k: nat)
    requires w >= 2 && k <= w && 0 - Exp2(w - 1) <= x < Exp2(w - 1)
    ensures 0 - Exp2(2 * w - 1) <= x * Exp2(k) < Exp2(2 * w - 1)
  {
    ExpSum(w - 1, k);
    ExpSum(w - 1 + k, w - k);
    ProductBound(x, Exp2(w - 1), Exp2(k));
    MulGrows(Exp2(w - k), Exp2(w - 1 + k));
  }

  lemma {:induction false} ZeroCorrected(x: int, w: nat, r: int, q: int, digits: int)
    requires w >= 2 && AfterZeroSteps(x, w, w, r, q, digits)
    ensures Wrap(q - (-q - 1 + (if r < 0 then 1 else 0)), w) == Quotient(x, 0)
  {
    SignOfProduct(x, Exp2(w));
    assert q == digits;
    if x >= 0 {
      DivideIs(2 * q + 1 + Exp2(w - 1), Exp2(w), 2, Exp2(w - 1) - 1);
    } else {
      DivideIs(Exp2(w - 1), Exp2(w), 0, Exp2(w - 1));
    }
  }

  ghost predicate Running(x: int, divisor: int, w: nat, k: nat, r: int, q: int, digits: int) {
    if divisor > 0 then AfterSteps(x, divisor * Exp2(w), w, k, r, q, digits) else AfterZeroSteps(x, w, k, r, q, digits)
  }

  /** One step keeps the account, and what it computes fits in the double-width word. */
  lemma {:induction false} RunningStep(x: int, divisor: int, w: nat, k: nat, r: int, q: int, digits: int)
    requires w >= 2 && 0 - Exp2(w - 1) <= x < Exp2(w - 1) && 0 <= divisor < Exp2(w - 1)
    requires k < w && Running(x, divisor, w, k, r, q, digits)
    ensures var d := divisor * Exp2(w); var next := if r >= 0 then 2 * r - d else 2 * r + d;
            && Wrap(next, 2 * w) == next
            && Running(x, divisor, w, k + 1, next, if r >= 0 then q + Exp2(w - 1 - k) else q,
                       if r >= 0 then 2 * digits + 1 else 2 * digits)
  {
    var d := divisor * Exp2(w);
    if divisor > 0 {
      DivisorFits(divisor, w, x);
      StepKeeps(x, d, w, k, r, q, digits);
    } else {
      ZeroStepKeeps(x, w, k, r, q, digits);
      ZeroFits(x, w, k + 1);
    }
    WrapFits(if r >= 0 then 2 * r - d else 2 * r + d, 2 * w);
  }

  /** The circuit on w-bit operands: double-width r, d, q; one sign test, one shift and one addition per bit,
      then the correction q -= ~q + (r < 0). For every representable dividend and every non-negative representable
      divisor it returns the quotient rounded down; the double-width arithmetic never wraps around. */
  method Divide(x: int, divisor: int, w: nat) returns (res: int)
    requires w >= 2 && 0 - Exp2(w - 1) <= x < Exp2(w - 1)
    requires 0 <= divisor < Exp2(w - 1)
    ensures res == Quotient(x, divisor)
  {
    var d := divisor * Exp2(w);
    var r, q := x, 0;
    ghost var digits := 0;
    if divisor > 0 { DivisorFits(divisor, w, x); }
    for k := 0 to w
      invariant Running(x, divisor, w, k, r, q, digits)
    {
      RunningStep(x, divisor, w, k, r, q, digits);
      if r >= 0 {
        q := q + Exp2(w - 1 - k);
        r := Wrap(2 * r - d, 2 * w);
        digits := 2 * digits + 1;
      } else {
        r := Wrap(2 * r + d, 2 * w);
        digits := 2 * digits;
      }
    }
    if divisor > 0 { Corrected(x, divisor, w, r, q, digits); } else { ZeroCorrected(x, w, r, q, digits); }
    res := Wrap(q - (-q - 1 + (if r < 0 then 1 else 0)), w);
  }

  // ----- Division by a constant -----

  /** One share: the truncated quotient, one less for a negative share, and the remainder that leaves, which is then
      not negative. The quotient of a negative share that divides is one too small, and its remainder the divisor. */
  function ShareQuotient(x: int, c: int): int
    requires c > 0
  {
    Truncated(x, c) - if x < 0 then 1 else 0
  }

  function ShareRemainder(x: int, c: int): int
    requires c > 0
  {
    x - c * Truncated(x, c) + if x < 0 then c else 0
  }

  /** Both shares of a value in words of w bits: the quotients, and one more if the remainders reach the divisor. */
  function SharedQuotient(x0: int, x1: int, c: int, w: nat): int
    requires c > 0 && w >= 1
  {
    var correction := if Wrap(ShareRemainder(x0, c) + ShareRemainder(x1, c) - c, w) >= 0 then 1 else 0;
    Wrap(ShareQuotient(x0, c) + ShareQuotient(x1, c) + correction, w)
  }

  /** A word of w bits. */
  predicate IsWord(x: int, w: nat) { w >= 1 && 0 - Exp2(w - 1) <= x < Exp2(w - 1) }

  /** A negative share that the divisor divides. */
  predicate FullRemainder(x: int, c: int)
    requires c > 0
  {
    x < 0 && x % c == 0
  }

  lemma {:induction false} ShareParts(x: int, c: int)
    requires c > 0
    ensures x == c * ShareQuotient(x, c) + ShareRemainder(x, c)
    ensures 0 <= ShareRemainder(x, c) <= c && (ShareRemainder(x, c) == c <==> FullRemainder(x, c))
  {
    RoundingAgrees(x, c);
    var q := x / c;
    assert x == c * q + x % c;
    assert c * (q + 1) == c * q + c && c * (q - 1) == c * q - c;
  }

  /** Before the last wrap: the quotient of the sum of the shares, one less if both have a full remainder. */
  lemma {:induction false} ExactQuotient(x0: int, x1: int, c: int, w: nat)
    requires w >= 2 && 1 <= c < Exp2(w - 1)
    ensures SharedQuotient(x0, x1, c, w)
         == Wrap((x0 + x1) / c - if FullRemainder(x0, c) && FullRemainder(x1, c) then 1 else 0, w)
  {
    ShareParts(x0, c);
    ShareParts(x1, c);
    var q, r := ShareQuotient(x0, c) + ShareQuotient(x1, c), ShareRemainder(x0, c) + ShareRemainder(x1, c);
    assert c * q == c * ShareQuotient(x0, c) + c * ShareQuotient(x1, c);
    assert x0 + x1 == c * q + r && 0 <= r <= 2 * c;
    assert c * (q + 1) == c * q + c && c * (q + 2) == c * q + 2 * c;
    WrapFits(r - c, w);
    if r < c {
      DivideIs(x0 + x1, c, q, r);
    } else if r < 2 * c {
      DivideIs(x0 + x1, c, q + 1, r - c);
    } else {
      DivideIs(x0 + x1, c, q + 2, 0);
    }
  }

  /** A wrap moves by whole turns only. */
  lemma {:induction false} WrapMoves(x: int, t: int, w: nat, j: int)
    requires w >= 1 && Exp2(w) * j < t - x < Exp2(w) * (j + 1)
    ensures Wrap(x, w) != t
  {
    var m, h := Exp2(w), Exp2(w - 1);
    var k := (x + h) / m;
    assert x + h == m * k + (x + h) % m;
    assert Wrap(x, w) == x - m * k;
    if Wrap(x, w) == t {
      assert m * j < m * (-k) < m * (j + 1) by { assert m * (-k) == -(m * k); }
      TurnsBetween(m, j, -k);
    }
  }

  lemma {:induction false} MulOrder(m: int, a: int, b: int)
    requires m >= 0
    ensures a <= b ==> m * a <= m * b
  {
    if a <= b { assert m * (b - a) == m * b - m * a; }
  }

  lemma {:induction false} TurnsBetween(m: int, j: int, k: int)
    requires m > 0 && m * j < m * k
    ensures !(m * k < m * (j + 1))
  {
    MulOrder(m, k, j);
    MulOrder(m, j + 1, k);
  }

  /** How far apart the quotients of two dividends are that lie a turn apart. */
  lemma {:induction false} TurnApart(x: int, m: int, c: int)
    requires 2 <= c && 2 * c < m
    ensures 1 <= (x + m) / c - x / c <= m - 2
  {
    var q, d := x / c, (x + m) / c - x / c;
    assert x == c * q + x % c && x + m == c * (q + d) + (x + m) % c;
    assert c * (q + d) == c * q + c * d;
    assert c * d == m + x % c - (x + m) % c;
    MulOrder(c, d, 0);
    MulOrder(c, m - 1, d);
    MulOrder(m - 1, 2, c);
  }

  /** Division by a constant rounds the shared value down exactly when the sum of the shares does not wrap (or the
      divisor is one) and not both shares are negative multiples of the divisor. */
  lemma {:induction false} SharedQuotientIff(x0: int, x1: int, c: int, w: nat)
    requires w >= 2 && IsWord(x0, w) && IsWord(x1, w) && 1 <= c < Exp2(w - 1)
    ensures SharedQuotient(x0, x1, c, w) == Wrap(x0 + x1, w) / c
       <==> (IsWord(x0 + x1, w) || c == 1) && !(FullRemainder(x0, c) && FullRemainder(x1, c))
  {
    var s, x, m := x0 + x1, Wrap(x0 + x1, w), Exp2(w);
    var less := if FullRemainder(x0, c) && FullRemainder(x1, c) then 1 else 0;
    ExactQuotient(x0, x1, c, w);
    if IsWord(s, w) {
      WrapFits(s, w);
      QuotientFits(x, c, Exp2(w - 1));
      WrapFits(x / c, w);
      if less == 1 { WrapMoves(x / c - 1, x / c, w, 0); }
    } else if s >= 0 {
      WrapFits(s - m, w);
      assert x == s - m;
      if c > 1 {
        TurnApart(x, m, c);
        WrapMoves(s / c, x / c, w, -1);
      }
    } else {
      WrapFits(s + m, w);
      OneTurnDown(s, w);
      assert x == s + m;
      if c == 1 {
        WrapMoves(s - 1, x, w, 1);
      } else {
        TurnApart(s, m, c);
        WrapMoves(s / c - less, x / c, w, 0);
      }
    }
  }

  lemma {:induction false} OneTurnDown(s: int, w: nat)
    requires w >= 1 && 0 - Exp2(w) <= s < 0 - Exp2(w - 1)
    ensures Wrap(s, w) == s + Exp2(w)
  {
    DivideIs(s + Exp2(w - 1), Exp2(w), -1, s + Exp2(w - 1) + Exp2(w));
  }

  /** Without a wrap the quotient is otherwise one too small. */
  lemma {:induction false} SharedQuotientLess(x0: int, x1: int, c: int, w: nat)
    requires w >= 2 && IsWord(x0 + x1, w) && 1 <= c < Exp2(w - 1)
    requires FullRemainder(x0, c) && FullRemainder(x1, c)
    ensures SharedQuotient(x0, x1, c, w) == Wrap((x0 + x1) / c - 1, w)
  {
    ExactQuotient(x0, x1, c, w);
  }

  /** Two ways to share -300: only one of them gives -3. */
  lemma {:induction false} SharesDecide()
    ensures SharedQuotient(-100, -200, 100, 32) == -4 && SharedQuotient(-101, -199, 100, 32) == -3
  {
    assert Exp2(31) >= 1000 by { ExpSum(10, 21); }
    ExactQuotient(-100, -200, 100, 32);
    ExactQuotient(-101, -199, 100, 32);
    WrapFits(-4, 32);
    WrapFits(-3, 32);
  }
}
