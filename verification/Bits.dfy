/**
 * Bitwise operations on machine words, as functions of non-negative integers, and the arithmetic
 * they stand for when one operand is a mask.
 */
module Bits {
  const WORD: nat := 0x1_0000_0000

  type Word = x: nat | x < WORD

  function Pow2(k: nat): (r: nat)
    ensures r > 0
  {
    if k == 0 then 1 else 2 * Pow2(k - 1)
  }

  predicate Bit(x: nat, k: nat) {
    if k == 0 then x % 2 == 1 else Bit(x / 2, k - 1)
  }

  function And(x: nat, y: nat): (r: nat)
    ensures r <= x && r <= y
  {
    if x == 0 || y == 0 then 0
    else 2 * And(x / 2, y / 2) + (if x % 2 == 1 && y % 2 == 1 then 1 else 0)
  }

  function Or(x: nat, y: nat): (r: nat)
    ensures x <= r && y <= r <= x + y
  {
    if x == 0 then y else if y == 0 then x
    else 2 * Or(x / 2, y / 2) + (if x % 2 == 1 || y % 2 == 1 then 1 else 0)
  }

  /** All 32 bits inverted. */
  function Not(x: Word): Word {
    WORD - 1 - x
  }

  /** Position of the lowest bit set: the count of leading zeros of the reversed word. */
  function LsbPos(x: nat): nat
    requires x > 0
  {
    if x % 2 == 1 then 0 else LsbPos(x / 2) + 1
  }

  function Div(x: nat, m: nat): nat
    requires m > 0
  {
    x / m
  }

  // ---------------------------------------------------------------- single bits

  lemma {:induction false} AndBit(x: nat, y: nat, k: nat)
    ensures Bit(And(x, y), k) <==> Bit(x, k) && Bit(y, k)
  {
    if x == 0 || y == 0 {
      ZeroBit(k);
    } else if k > 0 {
      AndBit(x / 2, y / 2, k - 1);
    }
  }

  lemma {:induction false} OrBit(x: nat, y: nat, k: nat)
    ensures Bit(Or(x, y), k) <==> Bit(x, k) || Bit(y, k)
  {
    if x == 0 || y == 0 {
      ZeroBit(k);
    } else if k > 0 {
      OrBit(x / 2, y / 2, k - 1);
    }
  }

  lemma {:induction false} ZeroBit(k: nat)
    ensures !Bit(0, k)
  {
    if k > 0 { ZeroBit(k - 1); }
  }

  /** The bits of 2^n - 1 are the n lowest ones. */
  lemma {:induction false} MaskBit(n: nat, k: nat)
    ensures Bit(Pow2(n) - 1, k) <==> k < n
  {
    if n == 0 {
      ZeroBit(k);
    } else if k > 0 {
      assert (Pow2(n) - 1) / 2 == Pow2(n - 1) - 1;
      MaskBit(n - 1, k - 1);
    }
  }

  /** The bits of 2^n - 2^m are those from m up to n - 1. */
  lemma {:induction false} HighMaskBit(n: nat, m: nat, k: nat)
    requires m <= n
    ensures Pow2(m) <= Pow2(n)
    ensures Bit(Pow2(n) - Pow2(m), k) <==> m <= k < n
  {
    if m == 0 {
      MaskBit(n, k);
    } else {
      HighMaskBit(n - 1, m - 1, if k == 0 then 0 else k - 1);
      assert (Pow2(n) - Pow2(m)) / 2 == Pow2(n - 1) - Pow2(m - 1);
    }
  }

  // ---------------------------------------------------------------- combinations

  /** Fields that do not overlap are joined by or as by addition. */
  lemma {:induction false} OrIsSum(x: nat, y: nat, k: nat)
    requires x % Pow2(k) == 0 && y < Pow2(k)
    ensures Or(x, y) == x + y
  {
    if x != 0 && y != 0 {
      HalfMod(x, Pow2(k - 1));
      OrIsSum(x / 2, y / 2, k - 1);
    }
  }

  lemma OrStep(x: nat, y: nat)
    ensures Or(x, y) == 2 * Or(x / 2, y / 2) + (if x % 2 == 1 || y % 2 == 1 then 1 else 0)
  {}

  lemma {:induction false} AndSelf(x: nat)
    ensures And(x, x) == x
  {
    if x > 0 { AndSelf(x / 2); }
  }

  // ---------------------------------------------------------------- masks as arithmetic

  lemma {:induction false} Pow2Grows(a: nat, b: nat)
    requires a <= b
    ensures Pow2(a) <= Pow2(b)
  {
    if a > 0 { Pow2Grows(a - 1, b - 1); }
  }

  /** x % 2m from x / 2 % m. */
  lemma HalfMod(x: nat, m: nat)
    requires m > 0
    ensures x % (2 * m) == 2 * ((x / 2) % m) + x % 2
  {
    var q, r := (x / 2) / m, (x / 2) % m;
    assert x / 2 == q * m + r;
    assert x == q * (2 * m) + (2 * r + x % 2);
    ModOf(x, 2 * m, q, 2 * r + x % 2);
  }

  lemma ModOf(x: nat, m: nat, q: nat, r: nat)
    requires m > 0 && r < m && x == q * m + r
    ensures x % m == r && Div(x, m) == q
  {
    var d := x / m - q;
    assert (x / m) * m + x % m == q * m + r;
    assert d * m == r - x % m;
    Grows(d, m);
  }

  lemma Grows(d: int, m: nat)
    ensures d >= 1 ==> d * m >= m
    ensures d <= -1 ==> d * m <= 0 - m
  {
    if d >= 1 { assert d * m == (d - 1) * m + m; }
    if d <= -1 { assert -d * m == (-d - 1) * m + m; }
  }

  lemma Monotone(a: nat, b: nat, m: nat)
    requires a <= b
    ensures a * m <= b * m
  {
    assert b * m == a * m + (b - a) * m;
  }

  /** x / m < j exactly when x < j * m. */
  lemma DivLess(x: nat, m: nat, j: nat)
    requires m > 0
    ensures Div(x, m) < j <==> x < j * m
  {
    var q := x / m;
    assert x == q * m + x % m;
    if q < j { Monotone(q + 1, j, m); } else { Monotone(j, q, m); }
  }

  lemma {:induction false} AndLow(x: nat, k: nat)
    ensures And(x, Pow2(k) - 1) == x % Pow2(k)
  {
    if k == 0 {
      assert Pow2(k) == 1;
    } else {
      var m := Pow2(k - 1);
      hide And;
      AndLow(x / 2, k - 1);
      HalfMod(x, m);
      AndStep(x, 2 * m - 1);
      assert (2 * m - 1) / 2 == m - 1;
    }
  }

  lemma AndStep(x: nat, y: nat)
    ensures And(x, y) == 2 * And(x / 2, y / 2) + (if x % 2 == 1 && y % 2 == 1 then 1 else 0)
  {}

  lemma AndHighStep(x: nat, w: nat, m: nat)
    requires 0 < m <= w && And(x / 2, w - m) == x / 2 - x / 2 % m
    ensures And(x, 2 * w - 2 * m) == x - x % (2 * m)
  {
    hide And;
    HalfMod(x, m);
    AndStep(x, 2 * w - 2 * m);
    assert (2 * w - 2 * m) / 2 == w - m;
  }

  lemma AndAll(x: nat, n: nat)
    requires x < Pow2(n)
    ensures And(x, Pow2(n) - 1) == x
  {
    hide And;
    AndLow(x, n);
    ModOf(x, Pow2(n), 0, x);
  }

  lemma DoubledHigh(x: nat, n: nat, k: nat)
    requires 0 < k <= n && Pow2(k - 1) <= Pow2(n - 1)
    requires And(x / 2, Pow2(n - 1) - Pow2(k - 1)) == x / 2 - x / 2 % Pow2(k - 1)
    ensures Pow2(k) <= Pow2(n) && And(x, Pow2(n) - Pow2(k)) == x - x % Pow2(k)
  {
    var w, m := Pow2(n - 1), Pow2(k - 1);
    assert Pow2(n) == 2 * w && Pow2(k) == 2 * m;
    hide And, Pow2;
    AndHighStep(x, w, m);
  }

  lemma {:induction false} AndHigh(x: nat, n: nat, k: nat)
    requires k <= n && x < Pow2(n)
    ensures Pow2(k) <= Pow2(n) && And(x, Pow2(n) - Pow2(k)) == x - x % Pow2(k)
  {
    hide And;
    if k == 0 {
      AndAll(x, n);
    } else {
      Pow2Grows(k - 1, n - 1);
      HalfBelow(x, n);
      hide Pow2;
      AndHigh(x / 2, n - 1, k - 1);
      DoubledHigh(x, n, k);
    }
  }

  lemma HalfBelow(x: nat, n: nat)
    requires n > 0 && x < Pow2(n)
    ensures x / 2 < Pow2(n - 1)
  {}

  // ---------------------------------------------------------------- the lowest bit

  /** 2^k divides x exactly when k is at most the position of the lowest bit. */
  lemma {:induction false} LsbDivides(x: nat, k: nat)
    requires x > 0
    ensures x % Pow2(k) == 0 <==> k <= LsbPos(x)
  {
    if k > 0 {
      HalfMod(x, Pow2(k - 1));
      if x % 2 == 0 { LsbDivides(x / 2, k - 1); }
    }
  }

  lemma {:induction false} LsbOfPow2(k: nat)
    ensures LsbPos(Pow2(k)) == k
  {
    if k > 0 { LsbOfPow2(k - 1); }
  }

  /** x & (x - 1) drops the lowest bit, so it is zero exactly for the powers of two. */
  lemma {:induction false} DropLowest(x: nat)
    requires x > 0
    ensures Pow2(LsbPos(x)) <= x && And(x, x - 1) == x - Pow2(LsbPos(x))
  {
    if x % 2 == 0 {
      assert (x - 1) / 2 == x / 2 - 1;
      DropLowest(x / 2);
    } else if x > 1 {
      assert (x - 1) / 2 == x / 2;
      AndSelf(x / 2);
    }
  }
}
