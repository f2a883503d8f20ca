/** Unsigned machine arithmetic on mathematical naturals: powers of two, truncation and exclusive or.
    Registers of any width are naturals below a power of two, so one definition serves every width. */
module Arith64 {

  function Pow2(k: nat): (p: nat)
    ensures p > 0
  {
    if k == 0 then 1 else 2 * Pow2(k - 1)
  }

  const WORD: nat := 0x1_0000_0000_0000_0000

  /** `x & MASK64` for an integer of any sign. */
  function Low64(x: int): (r: nat)
    ensures r < WORD
  {
    x % WORD
  }

  function Xor(a: nat, b: nat): nat
    decreases a + b
  {
    if a == 0 && b == 0 then 0 else (if a % 2 == b % 2 then 0 else 1) + 2 * Xor(a / 2, b / 2)
  }

  lemma WordIsPow2()
    ensures Pow2(64) == WORD
  {
    Pow2Add(8, 8);
    Pow2Add(16, 16);
    Pow2Add(32, 32);
  }

  lemma {:induction false} Pow2Add(j: nat, k: nat)
    ensures Pow2(j + k) == Pow2(j) * Pow2(k)
  {
    if j > 0 {
      Pow2Add(j - 1, k);
    }
  }

  /** Congruence: adding a multiple of the modulus changes no remainder. */
  lemma {:induction false} ModShift(x: int, q: int, m: nat)
    requires m > 0
    ensures (x + q * m) % m == x % m
  {
    DivModUnique(x + q * m, m, x / m + q, x % m);
  }

  lemma DivModUnique(x: int, m: nat, q: int, r: int)
    requires m > 0 && 0 <= r < m && x == q * m + r
    ensures x / m == q && x % m == r
  {
    var d := x / m - q;
    assert d * m == r - x % m;
    assert d >= 1 ==> d * m >= m;
    assert d <= -1 ==> d * m <= -1 * m;
  }

  /** The remainder of a product depends only on the remainders of the factors. */
  lemma MulMod(x: int, y: int, m: nat)
    requires m > 0
    ensures (x * y) % m == ((x % m) * (y % m)) % m
  {
    var qx, qy := x / m, y / m;
    var rx, ry := x % m, y % m;
    calc {
      x * y;
      (qx * m + rx) * (qy * m + ry);
      rx * ry + (qx * (qy * m + ry) + rx * qy) * m;
    }
    ModShift(rx * ry, qx * (qy * m + ry) + rx * qy, m);
  }

  /** Truncating to a multiple of m first loses nothing modulo m. */
  lemma ModMod(x: int, m: nat, k: nat)
    requires m > 0 && k > 0
    ensures m * k > 0
    ensures (x % (m * k)) % m == x % m
  {
    var q := x / (m * k);
    assert x % (m * k) == x + (-(q * k)) * m;
    ModShift(x, -(q * k), m);
  }

  lemma LowBitsOfWide(x: int, n: nat)
    requires n >= 64
    ensures Low64(x % Pow2(n)) == Low64(x)
  {
    WordIsPow2();
    Pow2Add(64, n - 64);
    ModMod(x, WORD, Pow2(n - 64));
  }

  lemma {:induction false} XorBound(a: nat, b: nat, k: nat)
    requires a < Pow2(k) && b < Pow2(k)
    ensures Xor(a, b) < Pow2(k)
  {
    if k > 0 && (a > 0 || b > 0) {
      XorBound(a / 2, b / 2, k - 1);
    }
  }

  lemma {:induction false} XorCancels(a: nat, b: nat)
    ensures Xor(Xor(a, b), b) == a
    decreases a + b
  {
    if a > 0 || b > 0 {
      XorCancels(a / 2, b / 2);
      XorBits(a, b);
      XorBits(Xor(a, b), b);
    }
  }

  lemma HalfOfMod(a: nat, k: nat)
    requires k > 0
    ensures (a % Pow2(k)) / 2 == (a / 2) % Pow2(k - 1)
    ensures (a % Pow2(k)) % 2 == a % 2
  {
    var m := Pow2(k - 1);
    var q, r := (a / 2) / m, (a / 2) % m;
    assert a == q * Pow2(k) + (2 * r + a % 2);
    DivModUnique(a, Pow2(k), q, 2 * r + a % 2);
  }

  /** Exclusive or works bit by bit, so it commutes with keeping the low k bits. */
  lemma {:induction false} XorMod(a: nat, b: nat, k: nat)
    ensures Xor(a, b) % Pow2(k) == Xor(a % Pow2(k), b % Pow2(k))
    decreases k
  {
    if k > 0 {
      XorMod(a / 2, b / 2, k - 1);
      HalfOfMod(a, k);
      HalfOfMod(b, k);
      HalfOfMod(Xor(a, b), k);
      XorBits(a, b);
      XorBits(a % Pow2(k), b % Pow2(k));
    }
  }

  lemma {:induction false} XorBits(a: nat, b: nat)
    ensures Xor(a, b) / 2 == Xor(a / 2, b / 2)
    ensures Xor(a, b) % 2 == if a % 2 == b % 2 then 0 else 1
  {
    var bit, rest := if a % 2 == b % 2 then 0 else 1, Xor(a / 2, b / 2);
    assert Xor(a, b) == rest * 2 + bit;
    DivModUnique(Xor(a, b), 2, rest, bit);
  }

  lemma XorLow(a: nat, b: nat, k: nat)
    ensures Xor(a, b) % Pow2(k) == Xor(a % Pow2(k), b % Pow2(k)) < Pow2(k)
  {
    XorMod(a, b, k);
    XorBound(a % Pow2(k), b % Pow2(k), k);
  }

  lemma SmallIsLow(x: nat)
    requires x < WORD
    ensures Low64(x) == x
  {
  }

  lemma Xor64(a: nat, b: nat)
    ensures Low64(Xor(a, b)) == Low64(Xor(Low64(a), Low64(b))) == Xor(Low64(a), Low64(b))
  {
    WordIsPow2();
    XorLow(a, b, 64);
    SmallIsLow(Xor(Low64(a), Low64(b)));
  }
}
