/** Bit operations on naturals, bit by bit, and their arithmetic meaning. */
module Bits {

  function Pow2(k: nat): nat {
    if k == 0 then 1 else 2 * Pow2(k - 1)
  }

  /** `a >>> k` */
  function Shr(a: nat, k: nat): nat
    decreases k
  {
    if k == 0 then a else Shr(a / 2, k - 1)
  }

  /** `a ^ b` */
  function Xor(a: nat, b: nat): nat
    decreases a + b
  {
    if a == 0 && b == 0 then 0
    else 2 * Xor(a / 2, b / 2) + (if a % 2 == b % 2 then 0 else 1)
  }

  /** `a & b` */
  function And(a: nat, b: nat): nat
    decreases a + b
  {
    if a == 0 || b == 0 then 0
    else 2 * And(a / 2, b / 2) + (if a % 2 == 1 && b % 2 == 1 then 1 else 0)
  }

  lemma {:induction false} XorZero(a: nat, b: nat)
    ensures Xor(a, b) == 0 <==> a == b
    decreases a + b
  {
    if !(a == 0 && b == 0) {
      XorZero(a / 2, b / 2);
    }
  }

  lemma {:induction false} XorShifts(a: nat, b: nat, k: nat)
    ensures Shr(Xor(a, b), k) == Xor(Shr(a, k), Shr(b, k))
    decreases k
  {
    if k > 0 {
      assert Xor(a, b) / 2 == Xor(a / 2, b / 2);
      XorShifts(a / 2, b / 2, k - 1);
    }
  }

  lemma {:induction false} ShrAdds(a: nat, m: nat, n: nat)
    ensures Shr(a, m + n) == Shr(Shr(a, m), n)
    decreases m
  {
    if m > 0 {
      ShrAdds(a / 2, m - 1, n);
    }
  }

  lemma DoubleProduct(v: nat, p: nat)
    ensures v * (2 * p) == 2 * (v * p)
  {
  }

  /** Shifting a concatenation drops bits of its low part only. */
  lemma {:induction false} ShrConcat(v: nat, x: nat, n: nat, k: nat)
    requires x < Pow2(n) && k <= n
    ensures Shr(v * Pow2(n) + x, k) == v * Pow2(n - k) + Shr(x, k)
    ensures Shr(x, k) < Pow2(n - k)
    decreases k
  {
    if k > 0 {
      var t := v * Pow2(n - 1);
      DoubleProduct(v, Pow2(n - 1));
      assert (2 * t + x) / 2 == t + x / 2;
      ShrConcat(v, x / 2, n - 1, k - 1);
    }
  }

  /** Shifting is division by a power of two, rounding down. */
  lemma {:induction false} ShrIsQuotient(a: nat, k: nat)
    ensures Shr(a, k) * Pow2(k) <= a < (Shr(a, k) + 1) * Pow2(k)
    decreases k
  {
    if k > 0 {
      ShrIsQuotient(a / 2, k - 1);
      var q := Shr(a, k);
      DoubleProduct(q, Pow2(k - 1));
      DoubleProduct(q + 1, Pow2(k - 1));
    }
  }

  lemma {:induction false} ShrZero(k: nat)
    ensures Shr(0, k) == 0
  {
    if k > 0 {
      ShrZero(k - 1);
    }
  }

  lemma {:induction false} Pow2Positive(k: nat)
    ensures Pow2(k) > 0
  {
    if k > 0 {
      Pow2Positive(k - 1);
    }
  }

  lemma {:induction false} AndAllOnes(x: nat, n: nat)
    requires x < Pow2(n)
    ensures And(x, Pow2(n) - 1) == x
  {
    if n > 0 && x > 0 {
      Pow2Positive(n - 1);
      AndAllOnes(x / 2, n - 1);
    }
  }

  /** Masking with the ones above bit `k` clears the low `k` bits. */
  lemma {:induction false} AndMask(x: nat, n: nat, k: nat)
    requires x < Pow2(n) && k <= n
    ensures Pow2(n) >= Pow2(k)
    ensures And(x, Pow2(n) - Pow2(k)) == Shr(x, k) * Pow2(k)
    decreases k
  {
    if k == 0 {
      Pow2Positive(n);
      AndAllOnes(x, n);
    } else {
      AndMask(x / 2, n - 1, k - 1);
      var m := Pow2(n - 1) - Pow2(k - 1);
      assert Pow2(n) - Pow2(k) == 2 * m;
      AndEven(x, m);
      DoubleProduct(Shr(x, k), Pow2(k - 1));
    }
  }

  lemma AndEven(x: nat, m: nat)
    ensures And(x, 2 * m) == 2 * And(x / 2, m)
  {
  }

  /** Clearing low bits is undone by nothing but clear low bits. */
  lemma ShiftBack(v: nat, k: nat)
    ensures Shr(v * Pow2(k), k) == v
  {
    Pow2Positive(k);
    ShrConcat(v, 0, k, k);
    ShrZero(k);
    assert Pow2(0) == 1;
  }

  /** A mixed-radix pair is determined by its value. */
  lemma PairUnique(a: nat, b: nat, c: nat, d: nat, m: nat)
    requires b < m && d < m
    ensures a * m + b == c * m + d <==> a == c && b == d
  {
    if a < c {
      assert (a + 1) * m <= c * m;
    } else if c < a {
      assert (c + 1) * m <= a * m;
    }
  }
}
