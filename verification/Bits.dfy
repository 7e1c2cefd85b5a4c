// Binary logarithms and the power-of-two test, at the level of 64-bit words.
module Bits {

  /** The value of `1UL << n`. */
  function Pow2(n: nat): (p: nat)
    ensures p >= 1
  {
    if n == 0 then 1 else 2 * Pow2(n - 1)
  }

  lemma {:induction false} Pow2Mono(a: nat, b: nat)
    requires a <= b
    ensures Pow2(a) <= Pow2(b)
    ensures a < b ==> 2 * Pow2(a) <= Pow2(b)
    decreases b
  {
    if a < b {
      Pow2Mono(a, b - 1);
    }
  }

  /** Blocks of bin 12 and above are whole numbers of 4096-byte pages. */
  lemma {:induction false} Pow2Pages(n: nat)
    requires n >= 12
    ensures Pow2(n) >= 4096 && Pow2(n) % 4096 == 0 && (n == 12 ==> Pow2(n) == 4096)
  {
    if n == 12 {
      assert Pow2(3) == 8 && Pow2(6) == 64 && Pow2(9) == 512 && Pow2(12) == 4096;
    } else {
      Pow2Pages(n - 1);
    }
  }

  lemma SmallBins(n: nat)
    ensures Pow2(n) < 4096 <==> n < 12
  {
    Pow2Pages(12);
    if n < 12 { Pow2Mono(n, 12); } else { Pow2Pages(n); }
  }

  /** Bitwise `&`, digit by digit. */
  function And(x: nat, y: nat): nat {
    if x == 0 || y == 0 then 0 else 2 * And(x / 2, y / 2) + (x % 2) * (y % 2)
  }

  lemma {:induction false} AndOnes(x: nat, n: nat)
    requires x < Pow2(n)
    ensures And(x, Pow2(n) - 1) == x
  {
    if x != 0 {
      AndOnes(x / 2, n - 1);
    }
  }

  /** The low k bits of x. */
  function LowBits(x: nat, k: nat): nat {
    if k == 0 then 0 else 2 * LowBits(x / 2, k - 1) + x % 2
  }

  function HighBits(x: nat, k: nat): nat {
    if k == 0 then x else HighBits(x / 2, k - 1)
  }

  lemma {:induction false} SplitBits(x: nat, k: nat)
    ensures x == HighBits(x, k) * Pow2(k) + LowBits(x, k) && LowBits(x, k) < Pow2(k)
  {
    if k != 0 {
      SplitBits(x / 2, k - 1);
      TwiceOut(HighBits(x / 2, k - 1), Pow2(k - 1));
    }
  }

  lemma TwiceOut(h: nat, p: nat)
    ensures h * (2 * p) == 2 * (h * p)
  {
  }

  lemma {:induction false} LowBitsAll(x: nat, k: nat)
    requires x < Pow2(k)
    ensures LowBits(x, k) == x
  {
    if k != 0 { LowBitsAll(x / 2, k - 1); }
  }

  lemma AndEven(x: nat, y: nat)
    ensures And(x, 2 * y) == 2 * And(x / 2, y)
  {
    assert 2 * y / 2 == y && 2 * y % 2 == 0;
  }

  /** Masking off the low k of n bits clears exactly those. */
  lemma {:induction false} AndMask(x: nat, n: nat, k: nat)
    requires x < Pow2(n) && k <= n
    ensures Pow2(k) <= Pow2(n) && And(x, Pow2(n) - Pow2(k)) == x - LowBits(x, k)
    decreases n
  {
    hide And;
    Pow2Mono(k, n);
    if k == 0 {
      AndOnes(x, n);
    } else if k == n {
      LowBitsAll(x, k);
      AndNothing(x);
    } else {
      Pow2Mono(k - 1, n - 1);
      AndMask(x / 2, n - 1, k - 1);
      AndEven(x, Pow2(n - 1) - Pow2(k - 1));
    }
  }

  lemma AndNothing(x: nat)
    ensures And(x, 0) == 0
  {
  }

  /** The IS_POW2 macro. */
  predicate IsPow2(v: nat) {
    v != 0 && And(v, v - 1) == 0
  }

  lemma {:induction false} AndSelf(x: nat)
    ensures And(x, x) == x
  {
    if x != 0 {
      AndSelf(x / 2);
    }
  }

  lemma {:induction false} IsPow2Double(v: nat)
    requires v != 0
    ensures IsPow2(2 * v) == IsPow2(v)
    ensures IsPow2(2 * v + 1) == false
  {
    assert (2 * v - 1) / 2 == v - 1 && (2 * v) / 2 == v;
    AndSelf(v);
    assert And(2 * v + 1, 2 * v) == 2 * And(v, v);
    assert v > 1 ==> And(2 * v, 2 * v - 1) == 2 * And(v, v - 1);
  }

  /** The bit trick accepts exactly the powers of two. */
  lemma {:induction false} IsPow2Exact(v: nat)
    ensures IsPow2(v) <==> exists k: nat :: v == Pow2(k)
  {
    if v == 1 {
      assert v == Pow2(0);
    } else if v > 1 {
      var m := v / 2;
      IsPow2Exact(m);
      IsPow2Double(m);
      if IsPow2(v) {
        var k: nat :| m == Pow2(k);
        assert v == Pow2(k + 1);
      }
      if k: nat :| v == Pow2(k) {
        assert k != 0 && m == Pow2(k - 1);
      }
    }
  }

  /** `__builtin_clzll` for a word of `width` bits: the number of zero bits above the highest one bit. */
  function Clz(v: nat, width: nat): (z: nat)
    requires 0 < v < Pow2(width)
    ensures z < width
  {
    if v >= Pow2(width - 1) then 0 else 1 + Clz(v, width - 1)
  }

  lemma {:induction false} ClzBrackets(v: nat, width: nat)
    requires 0 < v < Pow2(width)
    ensures Pow2(width - 1 - Clz(v, width)) <= v < Pow2(width - Clz(v, width))
    decreases width
  {
    if v < Pow2(width - 1) {
      ClzBrackets(v, width - 1);
    }
  }

  /** `log2fast` for a word of `width` bits. */
  function Log2Word(v: nat, width: nat): nat
    requires v < Pow2(width)
  {
    if v == 0 then 0
    else if IsPow2(v) then width - Clz(v, width) - 1
    else width - Clz(v, width)
  }

  function Log2Fast(v: nat): nat
    requires v < Pow2(64)
  {
    Log2Word(v, 64)
  }

  lemma Log2WordBrackets(v: nat, width: nat)
    requires 0 < v < Pow2(width)
    ensures v <= Pow2(Log2Word(v, width))
    ensures Log2Word(v, width) > 0 ==> Pow2(Log2Word(v, width) - 1) < v
  {
    var f := width - 1 - Clz(v, width);
    ClzBrackets(v, width);
    IsPow2Exact(v);
    if IsPow2(v) {
      var j: nat :| v == Pow2(j);
      if f < j { Pow2Mono(f + 1, j); }
      if j < f { Pow2Mono(j, f); }
    } else {
      assert v != Pow2(f);
    }
  }

  lemma Log2WordCeiling(v: nat, width: nat)
    requires v < Pow2(width)
    ensures v <= Pow2(Log2Word(v, width))
    ensures forall k: nat :: v <= Pow2(k) ==> Log2Word(v, width) <= k
  {
    if v != 0 {
      Log2WordBrackets(v, width);
      forall k: nat | v <= Pow2(k) ensures Log2Word(v, width) <= k {
        if k < Log2Word(v, width) {
          Pow2Mono(k, Log2Word(v, width) - 1);
        }
      }
    }
  }

  /** `log2fast` is the ceiling of the binary logarithm: the least k whose power of two covers v. */
  lemma Log2FastCeiling(v: nat)
    requires v < Pow2(64)
    ensures v <= Pow2(Log2Fast(v))
    ensures forall k: nat :: v <= Pow2(k) ==> Log2Fast(v) <= k
  {
    Log2WordCeiling(v, 64);
  }

  lemma Log2FastMono(v: nat, w: nat)
    requires v <= w < Pow2(64)
    ensures Log2Fast(v) <= Log2Fast(w)
  {
    Log2FastCeiling(v);
    Log2FastCeiling(w);
  }

  // ---------------------------------------------------------------- integers

  function Max(a: int, b: int): int {
    if a > b then a else b
  }

  function Min(a: nat, b: nat): nat {
    if a < b then a else b
  }

  function Times(a: nat, b: nat): nat {
    a * b
  }

  lemma TimesZero(b: nat)
    ensures Times(0, b) == 0
  {
  }

  lemma MulStep(a: nat, b: nat)
    ensures (a + 1) * b == a * b + b
    ensures Times(a + 1, b) == Times(a, b) + b
  {
  }

  lemma MulMono(a: nat, b: nat, p: nat)
    requires a <= b
    ensures a * p <= b * p
    ensures Times(a, p) <= Times(b, p)
  {
  }
}
