/** Bitwise operations of unsigned machine words, on natural numbers.
    Every operation is defined bit by bit, so nothing here depends on a word width;
    where the width matters, the caller reduces modulo 2^width itself. */
module Bits {

  function Pow2(k: nat): (p: nat)
    ensures p >= 1
  {
    if k == 0 then 1 else 2 * Pow2(k - 1)
  }

  /** n >> k */
  function Shr(n: nat, k: nat): (r: nat)
    decreases k
  {
    if k == 0 then n else Shr(n / 2, k - 1)
  }

  /** Bit j of n, bit 0 being the least significant. */
  predicate Bit(n: nat, j: nat)
    decreases j
  {
    if j == 0 then n % 2 == 1 else Bit(n / 2, j - 1)
  }

  function Or(a: nat, b: nat): (r: nat)
    decreases a + b
  {
    if a == 0 && b == 0 then 0
    else (if a % 2 == 1 || b % 2 == 1 then 1 else 0) + 2 * Or(a / 2, b / 2)
  }

  function And(a: nat, b: nat): (r: nat)
    decreases a + b
  {
    if a == 0 && b == 0 then 0
    else (if a % 2 == 1 && b % 2 == 1 then 1 else 0) + 2 * And(a / 2, b / 2)
  }

  function Xor(a: nat, b: nat): (r: nat)
    decreases a + b
  {
    if a == 0 && b == 0 then 0
    else (if a % 2 != b % 2 then 1 else 0) + 2 * Xor(a / 2, b / 2)
  }

  lemma {:induction false} Pow2Monotone(i: nat, j: nat)
    requires i <= j
    ensures Pow2(i) <= Pow2(j)
    ensures i < j ==> Pow2(i) < Pow2(j)
    decreases j - i
  {
    if i < j { Pow2Monotone(i, j - 1); }
  }

  lemma {:induction false} Pow2Add(i: nat, j: nat)
    ensures Pow2(i + j) == Pow2(i) * Pow2(j)
    decreases j
  {
    if j == 0 {
    } else {
      Pow2Add(i, j - 1);
      assert Pow2(i) * (2 * Pow2(j - 1)) == 2 * (Pow2(i) * Pow2(j - 1));
    }
  }

  lemma WordSizes()
    ensures Pow2(8) == 0x100
    ensures Pow2(16) == 0x1_0000
    ensures Pow2(24) == 0x100_0000
    ensures Pow2(32) == 0x1_0000_0000
    ensures Pow2(63) == 0x8000_0000_0000_0000
    ensures Pow2(64) == 0x1_0000_0000_0000_0000
  {
    assert Pow2(2) == 4 && Pow2(4) == 16 && Pow2(6) == 64 && Pow2(8) == 256;
    Pow2Add(8, 8);
    Pow2Add(16, 8);
    Pow2Add(16, 16);
    Pow2Add(32, 32);
    assert Pow2(64) == 2 * Pow2(63);
  }

  lemma {:induction false} BitOfShr(n: nat, s: nat, j: nat)
    ensures Bit(Shr(n, s), j) == Bit(n, j + s)
    decreases s
  {
    if s == 0 {
    } else {
      BitOfShr(n / 2, s - 1, j);
    }
  }

  lemma OrHalves(a: nat, b: nat)
    ensures Or(a, b) % 2 == (if a % 2 == 1 || b % 2 == 1 then 1 else 0)
    ensures Or(a, b) / 2 == Or(a / 2, b / 2)
  {
  }

  lemma {:induction false} BitOfOr(a: nat, b: nat, j: nat)
    ensures Bit(Or(a, b), j) == (Bit(a, j) || Bit(b, j))
    decreases j
  {
    OrHalves(a, b);
    if j == 0 {
    } else {
      BitOfOr(a / 2, b / 2, j - 1);
    }
  }

  lemma {:induction false} OrBound(a: nat, b: nat, k: nat)
    requires a < Pow2(k) && b < Pow2(k)
    ensures Or(a, b) < Pow2(k)
    decreases k
  {
    if k == 0 {
    } else {
      OrBound(a / 2, b / 2, k - 1);
    }
  }

  lemma {:induction false} OrAtLeast(a: nat, b: nat)
    ensures Or(a, b) >= a
    decreases a + b
  {
    if a != 0 || b != 0 { OrAtLeast(a / 2, b / 2); }
  }

  lemma {:induction false} ShrBound(n: nat, s: nat)
    ensures Shr(n, s) <= n
    decreases s
  {
    if s == 0 {
    } else {
      ShrBound(n / 2, s - 1);
    }
  }

  lemma {:induction false} XorBound(a: nat, b: nat, k: nat)
    requires a < Pow2(k) && b < Pow2(k)
    ensures Xor(a, b) < Pow2(k)
    decreases k
  {
    if k == 0 {
    } else {
      XorBound(a / 2, b / 2, k - 1);
    }
  }

  lemma {:induction false} XorComm(a: nat, b: nat)
    ensures Xor(a, b) == Xor(b, a)
    decreases a + b
  {
    if a != 0 || b != 0 { XorComm(a / 2, b / 2); }
  }

  lemma {:induction false} XorZero(a: nat)
    ensures Xor(a, 0) == a
    decreases a
  {
    if a != 0 { XorZero(a / 2); }
  }

  /** xor-ing the same word twice gives the other operand back */
  lemma {:induction false} XorCancel(a: nat, b: nat)
    ensures Xor(Xor(a, b), b) == a
    decreases a + b
  {
    if a == 0 && b == 0 {
    } else {
      XorCancel(a / 2, b / 2);
      XorHalves(a, b);
    }
  }

  /** xor acts on the high and the low part of its operands separately */
  lemma {:induction false} XorShr(a: nat, b: nat, k: nat)
    ensures Shr(Xor(a, b), k) == Xor(Shr(a, k), Shr(b, k))
    decreases k
  {
    if k == 0 {
    } else {
      XorHalves(a, b);
      XorShr(a / 2, b / 2, k - 1);
    }
  }

  /** n has bits only below 2^(top+1), and its `width` highest ones are all set. */
  ghost predicate TopOnes(n: nat, top: nat, width: nat)
  {
    n < Pow2(top + 1) && forall j: nat :: top < j + width && j <= top ==> Bit(n, j)
  }

  lemma {:induction false} LeadingBit(n: nat) returns (top: nat)
    requires n > 0
    ensures Pow2(top) <= n < Pow2(top + 1) && Bit(n, top)
    decreases n
  {
    if n == 1 {
      top := 0;
    } else {
      var t := LeadingBit(n / 2);
      top := t + 1;
    }
  }

  /** One smearing assignment `n |= n >> s` makes the run of ones s longer. */
  lemma SmearStep(n: nat, top: nat, width: nat, s: nat)
    requires TopOnes(n, top, width) && s <= width
    ensures TopOnes(Or(n, Shr(n, s)), top, width + s)
  {
    ShrBound(n, s);
    OrBound(n, Shr(n, s), top + 1);
    forall j: nat | top < j + width + s && j <= top
      ensures Bit(Or(n, Shr(n, s)), j)
    {
      BitOfOr(n, Shr(n, s), j);
      BitOfShr(n, s, j);
    }
  }

  lemma {:induction false} AllOnes(n: nat, top: nat)
    requires n < Pow2(top + 1) && forall j: nat :: j <= top ==> Bit(n, j)
    ensures n == Pow2(top + 1) - 1
    decreases top
  {
    assert Bit(n, 0);
    if top == 0 {
    } else {
      forall j: nat | j <= top - 1 ensures Bit(n / 2, j) { assert Bit(n, j + 1); }
      AllOnes(n / 2, top - 1);
    }
  }

  /** The k low bits of n. */
  function Low(n: nat, k: nat): (r: nat)
    decreases k
  {
    if k == 0 then 0 else n % 2 + 2 * Low(n / 2, k - 1)
  }

  lemma ModUnique(x: int, m: int, q: int, r: int)
    requires m > 0 && 0 <= r < m && x == m * q + r
    ensures x % m == r && x / m == q
  {
    var d := q - x / m;
    assert m * d == x % m - r by { assert x == m * (x / m) + x % m; MulDistributes(m, q, x / m); }
    MulAtLeast(m, d);
  }

  lemma MulDistributes(m: int, a: int, b: int)
    ensures m * (a - b) == m * a - m * b
  {
  }

  lemma MulAtLeast(m: int, d: int)
    requires m > 0
    ensures d >= 1 ==> m * d >= m
    ensures d <= -1 ==> m * d <= -m
  {
  }

  lemma {:induction false} LowSplits(n: nat, k: nat)
    ensures Low(n, k) < Pow2(k)
    ensures n == Pow2(k) * Shr(n, k) + Low(n, k)
    decreases k
  {
    if k == 0 {
    } else {
      LowSplits(n / 2, k - 1);
      MulDouble(Pow2(k - 1), Shr(n, k));
    }
  }

  lemma MulDouble(p: nat, s: nat)
    ensures 2 * (p * s) == (2 * p) * s
  {
  }

  /** The low bits are the remainder, and the shifted word is the quotient, modulo 2^k. */
  lemma LowIsMod(n: nat, k: nat)
    ensures Low(n, k) == n % Pow2(k) && Shr(n, k) == n / Pow2(k)
  {
    LowSplits(n, k);
    ModUnique(n, Pow2(k), Shr(n, k), Low(n, k));
  }

  lemma XorHalves(a: nat, b: nat)
    ensures Xor(a, b) % 2 == (if a % 2 != b % 2 then 1 else 0)
    ensures Xor(a, b) / 2 == Xor(a / 2, b / 2)
  {
  }

  lemma XorStep(i: nat, x: nat, j: nat, y: nat)
    requires i < 2 && j < 2
    ensures Xor(i + 2 * x, j + 2 * y) == (if i != j then 1 else 0) + 2 * Xor(x, y)
  {
    assert (i + 2 * x) / 2 == x && (j + 2 * y) / 2 == y;
  }

  lemma {:induction false} XorLow(a: nat, b: nat, k: nat)
    ensures Low(Xor(a, b), k) == Xor(Low(a, k), Low(b, k))
    decreases k
  {
    if k == 0 {
    } else {
      XorHalves(a, b);
      XorLow(a / 2, b / 2, k - 1);
      XorStep(a % 2, Low(a / 2, k - 1), b % 2, Low(b / 2, k - 1));
    }
  }

  lemma {:induction false} MaskIsLow(x: nat, k: nat)
    ensures And(x, Pow2(k) - 1) == Low(x, k)
    decreases k
  {
    if k == 0 {
      AndZero(x);
    } else {
      MaskIsLow(x / 2, k - 1);
      AndOdd(x, Pow2(k - 1) - 1);
    }
  }

  /** Masking with 2^k - 1 is reduction modulo 2^k. */
  lemma MaskIsMod(x: nat, k: nat)
    ensures And(x, Pow2(k) - 1) == x % Pow2(k)
  {
    MaskIsLow(x, k);
    LowIsMod(x, k);
  }

  lemma {:induction false} LowSmall(n: nat, k: nat)
    requires n < Pow2(k)
    ensures Low(n, k) == n
    decreases k
  {
    if k == 0 {
    } else {
      LowSmall(n / 2, k - 1);
    }
  }

  /** Masking an xor with 2^k - 1 when the second operand is below 2^k. */
  lemma MaskedXor(a: nat, b: nat, k: nat)
    requires b < Pow2(k)
    ensures And(Xor(a, b), Pow2(k) - 1) == Xor(Low(a, k), b)
    ensures Xor(Low(a, k), b) < Pow2(k)
  {
    MaskIsLow(Xor(a, b), k);
    XorLow(a, b, k);
    LowSmall(b, k);
    LowBound(Xor(a, b), k);
  }

  lemma {:induction false} LowBound(n: nat, k: nat)
    ensures Low(n, k) < Pow2(k)
    decreases k
  {
    if k == 0 {
    } else {
      LowBound(n / 2, k - 1);
    }
  }

  lemma AndOdd(x: nat, y: nat)
    ensures And(x, 2 * y + 1) == x % 2 + 2 * And(x / 2, y)
  {
    assert (2 * y + 1) / 2 == y;
  }

  lemma {:induction false} AndZero(x: nat)
    ensures And(x, 0) == 0
    decreases x
  {
    if x != 0 { AndZero(x / 2); }
  }

  /** xor and and, bit by bit */
  lemma {:induction false} BitOfXor(a: nat, b: nat, i: nat)
    ensures Bit(Xor(a, b), i) <==> Bit(a, i) != Bit(b, i)
    decreases i
  {
    XorHalves(a, b);
    if i == 0 {
    } else {
      BitOfXor(a / 2, b / 2, i - 1);
    }
  }

  lemma {:induction false} BitOfAnd(a: nat, b: nat, i: nat)
    ensures Bit(And(a, b), i) <==> Bit(a, i) && Bit(b, i)
    decreases i
  {
    AndHalves(a, b);
    if i == 0 {
    } else {
      BitOfAnd(a / 2, b / 2, i - 1);
    }
  }

  lemma AndHalves(a: nat, b: nat)
    ensures And(a, b) % 2 == (if a % 2 == 1 && b % 2 == 1 then 1 else 0)
    ensures And(a, b) / 2 == And(a / 2, b / 2)
  {
    var bit, rest := if a % 2 == 1 && b % 2 == 1 then 1 else 0, And(a / 2, b / 2);
    assert And(a, b) == bit + 2 * rest;
    HalfOf(bit, rest);
  }

  lemma HalfOf(bit: nat, rest: nat)
    requires bit < 2
    ensures (bit + 2 * rest) / 2 == rest && (bit + 2 * rest) % 2 == bit
  {
  }

  /** xor with ones below 2^k complements the low k bits */
  lemma {:induction false} XorOnes(a: nat, k: nat)
    ensures Xor(a, Pow2(k) - 1) == a - 2 * Low(a, k) + Pow2(k) - 1
    decreases k
  {
    if k == 0 {
      XorZero(a);
    } else {
      XorOnes(a / 2, k - 1);
      XorHalves(a, Pow2(k) - 1);
      assert (Pow2(k) - 1) / 2 == Pow2(k - 1) - 1 && (Pow2(k) - 1) % 2 == 1;
    }
  }
}
