/**
Powers of two and the bit operations of C's 32-bit `unsigned int`, written on `nat`. Shifts are repeated doubling
and halving, so that everything proved about them is linear arithmetic.
*/
module Arithmetic {

  type byte = x: int | 0 <= x < 256

  type positive = x: int | x > 0 witness 1

  const WORD: nat := 0x1_0000_0000

  type word = x: int | 0 <= x < WORD

  lemma Multiples(k: int, n: positive)
    ensures (k >= 1 ==> k * n >= n) && (k <= -1 ==> k * n + n <= 0)
  {
  }

  /** Quotient and remainder are the only ones. */
  lemma QuotientIs(x: int, n: positive, q: int, r: int)
    requires x == q * n + r && 0 <= r < n
    ensures x / n == q && x % n == r
  {
    var q', r' := x / n, x % n;
    assert (q - q') * n == r' - r;
    Multiples(q - q', n);
  }

  function Pow2(n: nat): (r: nat)
    ensures r >= 1
  {
    if n == 0 then 1 else 2 * Pow2(n - 1)
  }

  lemma {:induction false} Pow2Monotone(a: nat, b: nat)
    requires a <= b
    ensures Pow2(a) <= Pow2(b)
  {
    if a < b {
      Pow2Monotone(a, b - 1);
    }
  }

  lemma Pow2Eight(n: nat)
    ensures Pow2(n + 8) == 256 * Pow2(n)
  {
    assert Pow2(n + 2) == 4 * Pow2(n);
    assert Pow2(n + 4) == 4 * Pow2(n + 2);
    assert Pow2(n + 6) == 4 * Pow2(n + 4);
  }

  lemma Pow2Width(n: nat)
    requires n + n == 32
    ensures Pow2(n) == 0x1_0000
  {
    Pow2Eight(n - 8);
    Pow2Eight(n - 16);
  }

  lemma {:induction false} Pow2Injective(m: nat, n: nat)
    requires Pow2(m) == Pow2(n)
    ensures m == n
  {
    if m < n {
      Pow2Monotone(m + 1, n);
    } else if n < m {
      Pow2Monotone(n + 1, m);
    }
  }

  /** `x << n`. */
  function Shl(x: nat, n: nat): nat
  {
    if n == 0 then x else 2 * Shl(x, n - 1)
  }

  /** `x >> n`. */
  function Shr(x: nat, n: nat): nat
  {
    if n == 0 then x else Shr(x, n - 1) / 2
  }

  /** `x << n` on an unsigned int: what leaves the word on the left is lost. */
  function Shl32(x: nat, n: nat): nat
  {
    Shl(x, n) % WORD
  }

  lemma {:induction false} ShlFront(x: nat, n: positive)
    ensures Shl(x, n) == Shl(2 * x, n - 1)
  {
    if n > 1 {
      ShlFront(x, n - 1);
    }
  }

  lemma {:induction false} ShlSum(x: nat, y: nat, n: nat)
    ensures Shl(x + y, n) == Shl(x, n) + Shl(y, n)
  {
    if n > 0 {
      ShlSum(x, y, n - 1);
    }
  }

  lemma {:induction false} ShlTwice(x: nat, m: nat, n: nat)
    ensures Shl(Shl(x, m), n) == Shl(x, m + n)
  {
    if n > 0 {
      ShlTwice(x, m, n - 1);
    }
  }

  lemma {:induction false} ShlOne(n: nat)
    ensures Shl(1, n) == Pow2(n)
  {
    if n > 0 {
      ShlOne(n - 1);
    }
  }

  lemma {:induction false} ShlBound(x: nat, k: nat, n: nat)
    requires x < Pow2(k)
    ensures Shl(x, n) < Pow2(k + n)
  {
    if n > 0 {
      ShlBound(x, k, n - 1);
    }
  }

  lemma {:induction false} ShlOrder(x: nat, y: nat, n: nat)
    requires x <= y
    ensures Shl(x, n) <= Shl(y, n)
  {
    if n > 0 {
      ShlOrder(x, y, n - 1);
    }
  }

  lemma ShlEight(x: nat, n: nat)
    ensures Shl(x, n + 8) == 256 * Shl(x, n)
  {
    assert Shl(x, n + 2) == 4 * Shl(x, n);
    assert Shl(x, n + 4) == 4 * Shl(x, n + 2);
    assert Shl(x, n + 6) == 4 * Shl(x, n + 4);
  }

  lemma ShlWidth(x: nat, n: nat)
    requires n + n == 32
    ensures Shl(x, n) == x * 0x1_0000
  {
    ShlEight(x, n - 8);
    ShlEight(x, n - 16);
  }

  /** `x | y`, bit by bit from the least significant one. */
  function Or(x: nat, y: nat): nat
    decreases x + y
  {
    if x == 0 && y == 0 then 0
    else 2 * Or(x / 2, y / 2) + (if x % 2 == 1 || y % 2 == 1 then 1 else 0)
  }

  /** Bits that do not overlap are merged without a carry. */
  lemma {:induction false} OrDisjoint(x: nat, k: nat, y: nat)
    requires y < Pow2(k)
    ensures Or(Shl(x, k), y) == Shl(x, k) + y
    decreases k
  {
    if k == 0 {
      OrZero(x);
    } else {
      OrDisjoint(x, k - 1, y / 2);
    }
  }

  lemma {:induction false} OrZero(x: nat)
    ensures Or(x, 0) == x
    decreases x
  {
    if x > 0 {
      OrZero(x / 2);
    }
  }
}
