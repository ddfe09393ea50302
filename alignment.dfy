/** Integer widths of the C code and the power-of-two alignment arithmetic of
    Neko.h (NK_IS_POWER_OF_TWO, NK_ALIGN_TO). Addresses are `uintptr_t` on a
    64-bit platform; sizes and alignments handed to the allocator are
    `uint32_t`. Both wrap modulo their width, written out below. */
module Alignment {

  const WORD32: nat := 0x1_0000_0000
  const WORD64: nat := 0x1_0000_0000_0000_0000
  const UINT32_MAX: nat := WORD32 - 1

  /** uint32_t */
  type U32 = x: int | 0 <= x < WORD32
  /** uintptr_t and size_t */
  type U64 = x: int | 0 <= x < WORD64

  /** Unsigned 64-bit addition wraps modulo 2^64; a sum of two 64-bit values
      wraps at most once. */
  function Wrap64(x: int): (r: U64)
    requires 0 <= x < 2 * WORD64
    ensures r == x || r == x - WORD64
  {
    if x < WORD64 then x else x - WORD64
  }

  /** Wrap64 is reduction modulo 2^64. */
  lemma Wrap64IsMod(x: int)
    requires 0 <= x < 2 * WORD64
    ensures Wrap64(x) == x % WORD64
  {
    if x < WORD64 {
      DivModUnique(x, WORD64, 0, x);
    } else {
      DivModUnique(x, WORD64, 1, x - WORD64);
    }
  }

  /** 64-bit unsigned subtraction, wrapping below zero. */
  function Sub64(x: U64, y: U64): (r: U64)
    ensures r == x - y || r == x - y + WORD64
  {
    if x >= y then x - y else x - y + WORD64
  }

  /** A conversion to `uint32_t`: the value modulo 2^32. */
  function Truncate32(x: nat): (r: U32)
    ensures x < WORD32 ==> r == x
  {
    Mod(x, WORD32)
  }

  /** Truncate32 is Dafny's `% 2^32`. */
  lemma Truncate32IsMod(x: nat)
    ensures Truncate32(x) == x % WORD32
  {
    ModIsRemainder(x, WORD32);
  }

  /** NK_IS_POWER_OF_TWO: `value != 0 && (value & (value - 1)) == 0`, i.e. the
      value has exactly one bit set; stated as "1, or twice a power of two". */
  predicate IsPowerOfTwo(v: int)
    decreases if v < 0 then 0 else v
  {
    v == 1 || (v > 1 && v % 2 == 0 && IsPowerOfTwo(v / 2))
  }

  /** The remainder of `x` modulo `a`, by repeated subtraction. */
  function Mod(x: nat, a: nat): (r: nat)
    requires a > 0
    ensures r < a && r <= x
    decreases x
  {
    if x < a then x else Mod(x - a, a)
  }

  /** `x` is a multiple of the alignment `a`. */
  predicate Aligned(x: int, a: int)
  {
    x >= 0 && a > 0 && Mod(x, a) == 0
  }

  /** `x & ~(a - 1)` for a power of two `a`: clear the low bits, that is,
      round down to a multiple of `a`. */
  function RoundDown(x: nat, a: nat): (r: nat)
    requires a > 0
    ensures r <= x < r + a
    ensures Aligned(r, a)
    ensures x < a ==> r == 0
  {
    RoundDownAligned(x, a);
    x - Mod(x, a)
  }

  /** NK_ALIGN_TO(uintptr_t, value, alignment) with a 64-bit alignment (as in
      nkAllocateFromBuffer, whose alignment is a `size_t`). The sum wraps modulo
      2^64; when it does, the rounded result drops to 0, below `value`. */
  function AlignTo(value: U64, alignment: U64): (r: U64)
    requires IsPowerOfTwo(alignment)
    ensures Aligned(r, alignment)
    ensures value + alignment - 1 < WORD64 ==> value <= r < value + alignment
    ensures value + alignment - 1 >= WORD64 ==> r == 0 && r < value
  {
    PowerOfTwoPositive(alignment);
    RoundDown(Wrap64(value + alignment - 1), alignment)
  }

  /** NK_ALIGN_TO(uintptr_t, value, alignment) as nkCanSatisfyAllocation
      evaluates it: there `alignment` is a `uint32_t`, so `~(alignment - 1)` is
      a 32-bit mask that is zero-extended before the `&`, and the upper 32 bits
      of the address are cleared along with the low ones. The result is the
      correctly aligned address with its upper half dropped. */
  function AlignToNarrowMask(value: U64, alignment: U32): (r: U64)
    requires IsPowerOfTwo(alignment)
    ensures r == Truncate32(AlignTo(value, alignment))
  {
    PowerOfTwoPositive(alignment);
    var t := Wrap64(value + alignment - 1);
    NarrowMaskIsTruncation(t, alignment);
    RoundDown(Truncate32(t), alignment)
  }

  // ---------------------------------------------------------------------------
  // Lemmas about alignment

  /** NK_ALIGN_TO yields the least multiple of `alignment` that is at least
      `value`, whenever the sum inside it does not wrap. */
  lemma AlignToIsLeast(value: U64, alignment: U64, m: int)
    requires IsPowerOfTwo(alignment)
    requires value + alignment - 1 < WORD64
    requires m >= value && Aligned(m, alignment)
    ensures AlignTo(value, alignment) <= m
  {
    var r := AlignTo(value, alignment);
    if m < r {
      MultiplesApart(m, r, alignment);
    }
  }

  /** An address that is already aligned is left where it is. */
  lemma AlignToAligned(value: U64, alignment: U64)
    requires IsPowerOfTwo(alignment)
    requires value + alignment - 1 < WORD64 && Aligned(value, alignment)
    ensures AlignTo(value, alignment) == value
  {
    AlignToIsLeast(value, alignment, value);
  }

  /** The narrow mask agrees with NK_ALIGN_TO exactly when the aligned address
      lies below 4 GiB. */
  lemma NarrowMaskAgreesBelow4GiB(value: U64, alignment: U32)
    requires IsPowerOfTwo(alignment)
    ensures AlignToNarrowMask(value, alignment) == AlignTo(value, alignment)
            <==> AlignTo(value, alignment) < WORD32
  {
  }

  /** Masking with the zero-extended 32-bit mask equals rounding down and
      then dropping the upper 32 bits, because `a` divides 2^32. */
  lemma NarrowMaskIsTruncation(t: nat, a: nat)
    requires IsPowerOfTwo(a) && a < WORD32
    ensures a > 0
    ensures RoundDown(Truncate32(t), a) == Truncate32(RoundDown(t, a))
  {
    DividesWord32(a);
    TruncationCommutes(t, a);
  }

  /** Every power of two up to 2^32 divides 2^32. */
  lemma DividesWord32(a: int)
    requires IsPowerOfTwo(a) && a <= WORD32
    ensures Aligned(WORD32, a)
  {
    Word32IsPowerOfTwo();
    PowerOfTwoDivides(a, WORD32);
  }

  lemma {:induction false} TruncationCommutes(t: nat, a: nat)
    requires Aligned(WORD32, a)
    ensures RoundDown(Truncate32(t), a) == Truncate32(RoundDown(t, a))
    decreases t
  {
    if t >= WORD32 {
      TruncationCommutes(t - WORD32, a);
      ModAddAligned(t - WORD32, WORD32, a);
      assert RoundDown(t, a) == RoundDown(t - WORD32, a) + WORD32;
    }
  }

  // ---------------------------------------------------------------------------
  // Remainders by repeated subtraction

  /** Mod agrees with Dafny's `%`. */
  lemma {:induction false} ModIsRemainder(x: nat, a: nat)
    requires a > 0
    ensures Mod(x, a) == x % a
    decreases x
  {
    if x < a {
      DivModUnique(x, a, 0, x);
    } else {
      ModIsRemainder(x - a, a);
      var q, r := (x - a) / a, (x - a) % a;
      assert x == (q + 1) * a + r by {
        assert x - a == q * a + r;
        MulAdd(q, 1, a);
      }
      DivModUnique(x, a, q + 1, r);
    }
  }

  /** Rounding down lands on a multiple. */
  lemma {:induction false} RoundDownAligned(x: nat, a: nat)
    requires a > 0
    ensures Mod(x - Mod(x, a), a) == 0
    decreases x
  {
    if x >= a {
      RoundDownAligned(x - a, a);
      var y := x - a - Mod(x - a, a);
      assert x - Mod(x, a) == y + a;
      assert Mod(y + a, a) == Mod(y, a);
    }
  }

  /** Adding a multiple of `a` does not change the remainder modulo `a`. */
  lemma {:induction false} ModAddAligned(y: nat, m: nat, a: nat)
    requires Aligned(m, a)
    ensures Mod(y + m, a) == Mod(y, a)
    decreases m
  {
    if m >= a {
      assert Mod(m - a, a) == 0;
      ModAddAligned(y, m - a, a);
      assert Mod(y + m, a) == Mod(y + m - a, a);
    }
  }

  /** Two distinct multiples of `a` are at least `a` apart. */
  lemma {:induction false} MultiplesApart(m: nat, r: nat, a: nat)
    requires Aligned(m, a) && Aligned(r, a) && m < r
    ensures m + a <= r
    decreases m
  {
    if m >= a {
      assert Mod(m - a, a) == 0 && Mod(r - a, a) == 0;
      MultiplesApart(m - a, r - a, a);
    }
  }

  /** Halving both operands halves the remainder. */
  lemma {:induction false} ModDouble(c: nat, b: nat)
    requires b > 0
    ensures Mod(2 * c, 2 * b) == 2 * Mod(c, b)
    decreases c
  {
    if c >= b {
      ModDouble(c - b, b);
      assert Mod(2 * c, 2 * b) == Mod(2 * (c - b), 2 * b);
    }
  }

  lemma {:induction false} ModOne(m: nat)
    ensures Mod(m, 1) == 0
    decreases m
  {
    if m >= 1 {
      ModOne(m - 1);
    }
  }

  // ---------------------------------------------------------------------------
  // Powers of two

  lemma PowerOfTwoPositive(a: int)
    requires IsPowerOfTwo(a)
    ensures a >= 1
  {
  }

  /** A power of two divides every larger power of two. */
  lemma {:induction false} PowerOfTwoDivides(a: int, m: int)
    requires IsPowerOfTwo(a) && IsPowerOfTwo(m) && a <= m
    ensures Aligned(m, a)
    decreases m
  {
    if a == 1 {
      ModOne(m);
    } else {
      PowerOfTwoDivides(a / 2, m / 2);
      ModDouble(m / 2, a / 2);
    }
  }

  function Pow2(k: nat): (r: nat)
    ensures r >= 1
  {
    if k == 0 then 1 else 2 * Pow2(k - 1)
  }

  lemma {:induction false} Pow2Add(a: nat, b: nat)
    ensures Pow2(a + b) == Pow2(a) * Pow2(b)
  {
    if a > 0 {
      Pow2Add(a - 1, b);
      assert Pow2(a + b) == 2 * Pow2(a - 1 + b);
    }
  }

  lemma {:induction false} Pow2IsPowerOfTwo(k: nat)
    ensures IsPowerOfTwo(Pow2(k))
  {
    if k > 0 {
      Pow2IsPowerOfTwo(k - 1);
      assert Pow2(k) / 2 == Pow2(k - 1);
    }
  }

  /** The values NK_IS_POWER_OF_TWO accepts are exactly the powers 2^k. */
  lemma {:induction false} PowerOfTwoIffPow2(v: int)
    ensures IsPowerOfTwo(v) <==> exists k: nat :: Pow2(k) == v
    decreases if v < 0 then 0 else v
  {
    if IsPowerOfTwo(v) {
      if v == 1 {
        assert Pow2(0) == v;
      } else {
        PowerOfTwoIffPow2(v / 2);
        var k: nat :| Pow2(k) == v / 2;
        assert Pow2(k + 1) == v;
      }
    } else if k: nat :| Pow2(k) == v {
      Pow2IsPowerOfTwo(k);
    }
  }

  lemma Pow2At16()
    ensures Pow2(16) == 0x1_0000
  {
    assert Pow2(8) == 256;
    Pow2Add(8, 8);
  }

  lemma Pow2At32()
    ensures Pow2(32) == WORD32
  {
    Pow2At16();
    Pow2Add(16, 16);
  }

  lemma Word32IsPowerOfTwo()
    ensures IsPowerOfTwo(WORD32)
  {
    Pow2At32();
    Pow2IsPowerOfTwo(32);
  }

  lemma Word64IsPowerOfTwo()
    ensures IsPowerOfTwo(WORD64)
  {
    Pow2At32();
    Pow2Add(32, 32);
    Pow2IsPowerOfTwo(64);
  }

  // ---------------------------------------------------------------------------
  // Division and remainder, proved from the uniqueness of the decomposition

  lemma MulAtLeast(d: int, a: int)
    requires d >= 1 && a > 0
    ensures d * a >= a
  {
  }

  lemma MulSub(d: int, b: int, a: int)
    ensures (d - b) * a == d * a - b * a
  {
  }

  lemma MulAdd(d: int, b: int, a: int)
    ensures (d + b) * a == d * a + b * a
  {
  }

  /** `x == q * a + r` with `0 <= r < a` determines the quotient and the
      remainder. */
  lemma DivModUnique(x: int, a: int, q: int, r: int)
    requires a > 0 && x == q * a + r && 0 <= r < a
    ensures x / a == q && x % a == r
  {
    var q0, r0 := x / a, x % a;
    assert x == q0 * a + r0;
    MulSub(q, q0, a);
    if q - q0 >= 1 {
      MulAtLeast(q - q0, a);
    } else if q0 - q >= 1 {
      MulAtLeast(q0 - q, a);
      MulSub(q0, q, a);
    }
  }
}
