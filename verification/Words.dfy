/** Unsigned machine words as naturals: powers of two, single bits, and the bitwise
    operators of the simulator's address code, with the laws that connect them. */
module Words {

  /** Addresses and masks are 64-bit words. */
  const WORD_BITS: nat := 64

  function Pow2(n: nat): (p: nat)
    ensures p >= 1
  {
    if n == 0 then 1 else 2 * Pow2(n - 1)
  }

  /** Bit i of x. */
  predicate Bit(x: nat, i: nat)
    decreases i
  {
    if i == 0 then x % 2 == 1 else Bit(x / 2, i - 1)
  }

  function Shr(x: nat, k: nat): nat
    decreases k
  {
    if k == 0 then x else Shr(x / 2, k - 1)
  }

  /** The low k bits of x. */
  function Low(x: nat, k: nat): nat
    decreases k
  {
    if k == 0 then 0 else 2 * Low(x / 2, k - 1) + x % 2
  }

  function Shl(x: nat, k: nat): nat { if k == 0 then x else 2 * Shl(x, k - 1) }

  function BitValue(b: bool): nat { if b then 1 else 0 }

  /** Bitwise conjunction. */
  function And(a: nat, b: nat): nat
    decreases a
  {
    if a == 0 || b == 0 then 0
    else 2 * And(a / 2, b / 2) + BitValue(a % 2 == 1 && b % 2 == 1)
  }

  /** Bitwise disjunction. */
  function Or(a: nat, b: nat): nat
    decreases a + b
  {
    if a == 0 then b
    else if b == 0 then a
    else 2 * Or(a / 2, b / 2) + BitValue(a % 2 == 1 || b % 2 == 1)
  }

  lemma {:induction false} BitOfZero(i: nat)
    ensures !Bit(0, i)
  {
    if i > 0 { BitOfZero(i - 1); }
  }

  lemma {:induction false} BitAnd(a: nat, b: nat, i: nat)
    ensures Bit(And(a, b), i) <==> Bit(a, i) && Bit(b, i)
    decreases i
  {
    if a == 0 || b == 0 {
      BitOfZero(i);
    } else {
      var half := And(a / 2, b / 2);
      assert And(a, b) / 2 == half;
      if i > 0 { BitAnd(a / 2, b / 2, i - 1); }
    }
  }

  lemma {:induction false} BitOr(a: nat, b: nat, i: nat)
    ensures Bit(Or(a, b), i) <==> Bit(a, i) || Bit(b, i)
    decreases i
  {
    BitOfZero(i);
    if a != 0 && b != 0 {
      assert Or(a, b) / 2 == Or(a / 2, b / 2);
      if i > 0 { BitOr(a / 2, b / 2, i - 1); }
    }
  }

  lemma {:induction false} BitOfPow2(k: nat, i: nat)
    ensures Bit(Pow2(k), i) <==> i == k
    decreases i
  {
    if i == 0 {
    } else if k == 0 {
      BitOfZero(i - 1);
    } else {
      assert Pow2(k) / 2 == Pow2(k - 1);
      BitOfPow2(k - 1, i - 1);
    }
  }

  lemma {:induction false} BitOfShr(x: nat, k: nat, i: nat)
    ensures Bit(Shr(x, k), i) == Bit(x, k + i)
    decreases k
  {
    if k > 0 { BitOfShr(x / 2, k - 1, i); }
  }

  /** Shifting right by k brings a number below 2^(k+n) below 2^n, and one of 2^k or more to at least 1. */
  lemma {:induction false} ShrRange(x: nat, k: nat, n: nat)
    ensures x < Pow2(k + n) <==> Shr(x, k) < Pow2(n)
    ensures x >= Pow2(k) <==> Shr(x, k) >= 1
    decreases k
  {
    if k > 0 { ShrRange(x / 2, k - 1, n); }
  }

  lemma {:induction false} ShlRange(x: nat, k: nat)
    ensures Shl(x, k) == 0 <==> x == 0
    decreases k
  {
    if k > 0 { ShlRange(x, k - 1); }
  }

  lemma Distribute(a: int, b: int, c: int) ensures a * (b + c) == a * b + a * c {}
  lemma Assoc(a: int, b: int, c: int) ensures a * (b * c) == a * b * c {}
  lemma Monotone(a: nat, b: int, c: int)
    requires b <= c
    ensures a * b <= a * c
  {
    assert a * (c - b) >= 0;
  }

  lemma QuotientUnique(x: nat, d: nat, q: nat, r: nat)
    requires d > 0 && x == d * q + r && r < d
    ensures x / d == q && x % d == r
  {
    var q', r' := x / d, x % d;
    assert x == d * q' + r';
    assert d * (q - q') == r' - r by { Distribute(d, q, -q'); }
    if q > q' { Monotone(d, 1, q - q'); }
    if q < q' { Monotone(d, 1, q' - q); }
  }

  /** Masking with 2^k - 1 keeps the low k bits. */
  lemma {:induction false} AndLowMask(x: nat, k: nat)
    ensures And(x, Pow2(k) - 1) == Low(x, k)
    decreases k
  {
    if k > 0 {
      AndLowMask(x / 2, k - 1);
      AndOddMask(x, Pow2(k - 1) - 1);
    }
  }

  lemma {:induction false} LowOfSmall(x: nat, k: nat)
    requires x < Pow2(k)
    ensures Low(x, k) == x
    decreases k
  {
    if k > 0 { LowOfSmall(x / 2, k - 1); }
  }

  /** The low k bits and the rest determine a word. */
  lemma {:induction false} LowAndShr(x: nat, y: nat, k: nat)
    requires Low(x, k) == Low(y, k) && Shr(x, k) == Shr(y, k)
    ensures x == y
    decreases k
  {
    if k > 0 { LowAndShr(x / 2, y / 2, k - 1); }
  }

  lemma AndOddMask(x: nat, m: nat)
    ensures And(x, 2 * m + 1) == 2 * And(x / 2, m) + x % 2
  {
    assert (2 * m + 1) / 2 == m && (2 * m + 1) % 2 == 1;
  }

  /** The low k bits are the remainder modulo 2^k, and the rest is the quotient. */
  lemma {:induction false} LowAndShrDivide(x: nat, k: nat)
    ensures Low(x, k) < Pow2(k) && x == Pow2(k) * Shr(x, k) + Low(x, k)
    ensures x / Pow2(k) == Shr(x, k) && x % Pow2(k) == Low(x, k)
    decreases k
  {
    if k > 0 {
      LowAndShrDivide(x / 2, k - 1);
      Assoc(2, Pow2(k - 1), Shr(x, k));
    }
    QuotientUnique(x, Pow2(k), Shr(x, k), Low(x, k));
  }

  lemma {:induction false} Pow2Add(a: nat, b: nat)
    ensures Pow2(a + b) == Pow2(a) * Pow2(b)
    decreases a
  {
    if a > 0 {
      Pow2Add(a - 1, b);
      Assoc(2, Pow2(a - 1), Pow2(b));
    }
  }

  /** Two numbers below 2^n with the same low n bits are equal. */
  lemma {:induction false} SameBits(a: nat, b: nat, n: nat)
    requires a < Pow2(n) && b < Pow2(n)
    requires forall i: nat :: i < n ==> Bit(a, i) == Bit(b, i)
    ensures a == b
    decreases n
  {
    if n > 0 {
      assert Bit(a, 0) == Bit(b, 0);
      forall i: nat | i < n - 1 ensures Bit(a / 2, i) == Bit(b / 2, i) {
        assert Bit(a, i + 1) == Bit(b, i + 1);
      }
      SameBits(a / 2, b / 2, n - 1);
    }
  }

  lemma AndEven(x: nat, y: nat)
    ensures And(x, 2 * y) == 2 * And(x / 2, y)
  {
    assert 2 * y / 2 == y && 2 * y % 2 == 0;
  }

  /** Masking with a field of ones above bit k looks only at the word shifted right by k. */
  lemma {:induction false} AndShifted(x: nat, m: nat, k: nat)
    ensures And(x, Shl(m, k)) == Shl(And(Shr(x, k), m), k)
    decreases k
  {
    if k > 0 {
      AndEven(x, Shl(m, k - 1));
      AndShifted(x / 2, m, k - 1);
    }
  }

  /** A disjunction of a multiple of 2^k with something below 2^k is their sum. */
  lemma {:induction false} OrDisjoint(a: nat, b: nat, k: nat)
    requires Low(a, k) == 0 && b < Pow2(k)
    ensures Or(a, b) == a + b
    decreases k
  {
    if k > 0 && a != 0 && b != 0 {
      OrDisjoint(a / 2, b / 2, k - 1);
    }
  }

  lemma {:induction false} ShrOfShl(x: nat, k: nat)
    ensures Shr(Shl(x, k), k) == x
    decreases k
  {
    if k > 0 { ShrOfShl(x, k - 1); }
  }

  lemma {:induction false} ShlIsProduct(x: nat, k: nat)
    ensures Shl(x, k) == x * Pow2(k)
    decreases k
  {
    if k > 0 {
      ShlIsProduct(x, k - 1);
      Assoc(x, 2, Pow2(k - 1));
    }
  }

  lemma {:induction false} Pow2Monotone(a: nat, b: nat)
    requires a <= b
    ensures Pow2(a) <= Pow2(b)
  {
    if a < b { Pow2Monotone(a, b - 1); }
  }
}
