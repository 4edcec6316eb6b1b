/** Bitwise operators on natural numbers, by their meaning one bit at a time. */
module Bits {

  function Pow2(k: nat): (p: nat)
    ensures p >= 1
  {
    if k == 0 then 1 else 2 * Pow2(k - 1)
  }

  function BitOr(a: nat, b: nat): nat {
    if a == 0 then b
    else if b == 0 then a
    else (if a % 2 == 1 || b % 2 == 1 then 1 else 0) + 2 * BitOr(a / 2, b / 2)
  }

  function BitAnd(a: nat, b: nat): nat {
    if a == 0 || b == 0 then 0
    else (if a % 2 == 1 && b % 2 == 1 then 1 else 0) + 2 * BitAnd(a / 2, b / 2)
  }

  /** `x >> k`. */
  function Shr(x: nat, k: nat): nat {
    if k == 0 then x else Shr(x / 2, k - 1)
  }

  /** The low `k` bits of `x`. */
  function Low(x: nat, k: nat): nat {
    if k == 0 then 0 else x % 2 + 2 * Low(x / 2, k - 1)
  }

  lemma {:induction false} SplitAt(x: nat, k: nat)
    ensures x == Low(x, k) + Pow2(k) * Shr(x, k) && Low(x, k) < Pow2(k)
  {
    if k != 0 {
      SplitAt(x / 2, k - 1);
      var h := Shr(x / 2, k - 1);
      assert Pow2(k) * h == 2 * (Pow2(k - 1) * h);
    }
  }

  lemma DoublePow(k: nat, y: nat)
    requires k > 0
    ensures Pow2(k) * y == 2 * (Pow2(k - 1) * y)
  {}

  lemma {:induction false} OrCommutes(a: nat, b: nat)
    ensures BitOr(a, b) == BitOr(b, a)
  {
    if a != 0 && b != 0 { OrCommutes(a / 2, b / 2); }
  }

  lemma {:induction false} OrLowAdds(lo: nat, hi: nat, k: nat)
    requires lo < Pow2(k)
    ensures BitOr(lo, Pow2(k) * hi) == lo + Pow2(k) * hi
  {
    if k == 0 {
      assert BitOr(0, hi) == hi;
    } else {
      OrLowAdds(lo / 2, hi, k - 1);
      DoublePow(k, hi);
    }
  }

  lemma {:induction false} SumSplits(lo: nat, hi: nat, k: nat)
    requires lo < Pow2(k)
    ensures Shr(lo + Pow2(k) * hi, k) == hi && Low(lo + Pow2(k) * hi, k) == lo
  {
    if k != 0 {
      SumSplits(lo / 2, hi, k - 1);
      DoublePow(k, hi);
      var y := Pow2(k - 1) * hi;
      assert (lo + 2 * y) / 2 == lo / 2 + y && (lo + 2 * y) % 2 == lo % 2;
    }
  }

  /** Numbers that share no bit position combine by addition, and separate again. */
  lemma OrLow(lo: nat, hi: nat, k: nat, high: nat)
    requires lo < Pow2(k) && high == Pow2(k) * hi
    ensures BitOr(lo, high) == lo + high == BitOr(high, lo)
    ensures Shr(lo + high, k) == hi && Low(lo + high, k) == lo
  {
    OrLowAdds(lo, hi, k);
    OrCommutes(lo, high);
    SumSplits(lo, hi, k);
  }

  /** Setting bit `k` adds its weight unless it is set already. */
  lemma {:induction false} OrBit(x: nat, k: nat)
    ensures BitOr(x, Pow2(k)) == if Shr(x, k) % 2 == 1 then x else x + Pow2(k)
  {
    if k != 0 { OrBit(x / 2, k - 1); }
  }

  /** Testing bit `k`. */
  lemma {:induction false} AndBit(x: nat, k: nat)
    ensures BitAnd(x, Pow2(k)) == if Shr(x, k) % 2 == 1 then Pow2(k) else 0
  {
    if k == 0 {
      assert BitAnd(x, 1) == if x % 2 == 1 then 1 else 0;
    } else {
      AndBit(x / 2, k - 1);
    }
  }

  /** A run of ones from bit 0 keeps the low bits. */
  lemma {:induction false} AndLow(x: nat, k: nat)
    ensures BitAnd(x, Pow2(k) - 1) == Low(x, k)
  {
    if k != 0 {
      AndLow(x / 2, k - 1);
      assert (Pow2(k) - 1) / 2 == Pow2(k - 1) - 1;
    }
  }

  /** A mask whose low `k` bits are clear looks only at what lies above them. */
  lemma {:induction false} AndShifted(x: nat, mask: nat, k: nat)
    ensures BitAnd(x, Pow2(k) * mask) == Pow2(k) * BitAnd(Shr(x, k), mask)
    ensures Shr(Pow2(k) * mask, k) == mask
  {
    if k != 0 {
      AndShifted(x / 2, mask, k - 1);
      DoublePow(k, mask);
      DoublePow(k, BitAnd(Shr(x, k), mask));
    }
  }

  lemma Powers()
    ensures Pow2(11) == 0x800 && Pow2(12) == 0x1000 && Pow2(13) == 0x2000
    ensures Pow2(14) == 0x4000 && Pow2(15) == 0x8000 && Pow2(16) == 0x10000
  {
    assert Pow2(8) == 256;
    assert Pow2(9) == 512;
    assert Pow2(10) == 1024;
    assert Pow2(11) == 2048;
    assert Pow2(12) == 4096;
    assert Pow2(13) == 8192;
    assert Pow2(14) == 16384;
    assert Pow2(15) == 32768;
  }

  lemma MulAtLeast(m: int, d: int)
    requires d > 0
    ensures m >= 1 ==> m * d >= d
    ensures m <= -1 ==> m * d <= -d
  {}

  lemma DivUnique(x: nat, d: nat, q: nat, r: nat)
    requires r < d && x == r + d * q
    ensures x / d == q && x % d == r
  {
    MulAtLeast(x / d - q, d);
    assert (x / d - q) * d == r - x % d;
  }

  /** Shifting right divides; the low bits are the remainder. */
  lemma ShrDivides(x: nat, k: nat)
    ensures Shr(x, k) == x / Pow2(k) && Low(x, k) == x % Pow2(k)
  {
    SplitAt(x, k);
    DivUnique(x, Pow2(k), Shr(x, k), Low(x, k));
  }

  // The same facts about a mask `m` that happens to be a power of two.

  lemma SetBit(x: nat, k: nat, m: nat)
    requires m == Pow2(k)
    ensures BitOr(x, m) == if x / m % 2 == 1 then x else x + m
  {
    OrBit(x, k);
    ShrDivides(x, k);
  }

  lemma TestBit(x: nat, k: nat, m: nat)
    requires m == Pow2(k)
    ensures BitAnd(x, m) != 0 <==> x / m % 2 == 1
  {
    AndBit(x, k);
    ShrDivides(x, k);
  }
}
