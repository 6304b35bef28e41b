/** Bitwise operations on Python's unbounded non-negative integers, as far as the
    robot masks need them: `|=` and `1 << i`. */
module Bits {

  function Pow2(i: nat): (p: nat)
    ensures p >= 1
  {
    if i == 0 then 1 else 2 * Pow2(i - 1)
  }

  /** `a | b` */
  function Or(a: nat, b: nat): nat
    decreases a
  {
    if a == 0 then b
    else if b == 0 then a
    else (if a % 2 == 1 || b % 2 == 1 then 1 else 0) + 2 * Or(a / 2, b / 2)
  }

  /** Bit `k` of `n`, counted from the least significant end. */
  predicate Bit(n: nat, k: nat)
    decreases k
  {
    if k == 0 then n % 2 == 1 else Bit(n / 2, k - 1)
  }

  /** `n` is the mask of the set `s`. */
  ghost predicate MaskOf(n: nat, s: set<nat>) {
    forall k: nat :: Bit(n, k) <==> k in s
  }

  lemma {:induction false} ZeroHasNoBits(k: nat)
    ensures !Bit(0, k)
  {
    if k > 0 { ZeroHasNoBits(k - 1); }
  }

  lemma {:induction false} OrBit(a: nat, b: nat, k: nat)
    ensures Bit(Or(a, b), k) <==> Bit(a, k) || Bit(b, k)
    decreases a
  {
    if a == 0 || b == 0 {
      ZeroHasNoBits(k);
    } else if k > 0 {
      OrBit(a / 2, b / 2, k - 1);
    }
  }

  lemma {:induction false} Pow2Bit(i: nat, k: nat)
    ensures Bit(Pow2(i), k) <==> k == i
    decreases k
  {
    if k == 0 {
    } else if i == 0 {
      ZeroHasNoBits(k - 1);
    } else {
      Pow2Bit(i - 1, k - 1);
    }
  }

  /** The bits of `2^r - 1` are exactly those below `r`. */
  lemma {:induction false} OnesBit(r: nat, k: nat)
    ensures Bit(Pow2(r) - 1, k) <==> k < r
    decreases k
  {
    if r == 0 {
      ZeroHasNoBits(k);
    } else if k > 0 {
      assert (Pow2(r) - 1) / 2 == Pow2(r - 1) - 1;
      OnesBit(r - 1, k - 1);
    }
  }

  /** Two numbers with the same bits are equal, so a mask determines its set and back. */
  lemma {:induction false} SameBitsSameNumber(a: nat, b: nat)
    requires forall k: nat :: Bit(a, k) <==> Bit(b, k)
    ensures a == b
    decreases a + b
  {
    if a > 0 || b > 0 {
      assert Bit(a, 0) <==> Bit(b, 0);
      forall k: nat
        ensures Bit(a / 2, k) <==> Bit(b / 2, k)
      {
        assert Bit(a, k + 1) <==> Bit(b, k + 1);
      }
      SameBitsSameNumber(a / 2, b / 2);
    }
  }

  lemma EmptyMask()
    ensures MaskOf(0, {})
  {
    forall k: nat ensures !Bit(0, k) { ZeroHasNoBits(k); }
  }

  /** `n |= 1 << i` adds `i` to the set and nothing else. */
  lemma AddToMask(n: nat, s: set<nat>, i: nat)
    requires MaskOf(n, s)
    ensures MaskOf(Or(n, Pow2(i)), s + {i})
  {
    forall k: nat
      ensures Bit(Or(n, Pow2(i)), k) <==> k in s + {i}
    {
      OrBit(n, Pow2(i), k);
      Pow2Bit(i, k);
    }
  }

  /** A mask equals `2^r - 1` exactly when its set is `{0, .., r-1}`. */
  lemma FullMask(n: nat, s: set<nat>, r: nat)
    requires MaskOf(n, s)
    ensures n == Pow2(r) - 1 <==> forall k: nat :: k in s <==> k < r
  {
    var ones := Pow2(r) - 1;
    forall k: nat ensures Bit(ones, k) <==> k < r { OnesBit(r, k); }
    if forall k: nat :: k in s <==> k < r {
      SameBitsSameNumber(n, ones);
    }
  }

  /** The next `2^r - 1` from the last one, as the constructor's loop builds it. */
  lemma NextOnes(r: nat)
    ensures Or(Pow2(r) - 1, Pow2(r)) == Pow2(r + 1) - 1
  {
    var ones, next := Pow2(r) - 1, Pow2(r + 1) - 1;
    forall k: nat ensures Bit(Or(ones, Pow2(r)), k) <==> Bit(next, k) {
      OrBit(ones, Pow2(r), k);
      OnesBit(r, k);
      OnesBit(r + 1, k);
      Pow2Bit(r, k);
    }
    SameBitsSameNumber(Or(ones, Pow2(r)), next);
  }
}
