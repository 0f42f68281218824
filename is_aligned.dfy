/** is_aligned: whether an address lies on a power-of-two boundary. */
module Aligned {
  import opened Bytes

  /** platform::simd_align, the default boundary. */
  const SIMD_ALIGN: uint32 := 32

  /** Bitwise AND of two naturals, bit by bit from the least significant. */
  function BitAnd(x: nat, y: nat): (r: nat)
    ensures r <= x
    decreases x
  {
    if x == 0 || y == 0 then 0 else (x % 2) * (y % 2) + 2 * BitAnd(x / 2, y / 2)
  }

  /** The asserted test alignment != 0 && (alignment & (alignment - 1)) == 0. */
  predicate PowerOfTwoBits(alignment: uint32)
  {
    alignment != 0 && BitAnd(alignment, alignment - 1) == 0
  }

  /** Powers of two, by their arithmetic definition. */
  predicate IsPowerOfTwo(n: nat)
    decreases n
  {
    n == 1 || (n >= 2 && n % 2 == 0 && IsPowerOfTwo(n / 2))
  }

  lemma {:induction false} BitAndSelf(x: nat)
    ensures BitAnd(x, x) == x
    decreases x
  {
    if x > 0 {
      BitAndSelf(x / 2);
    }
  }

  /** The bit trick accepts exactly the powers of two. */
  lemma {:induction false} BitTrickIsPowerOfTwo(a: nat)
    requires a > 0
    ensures BitAnd(a, a - 1) == 0 <==> IsPowerOfTwo(a)
    decreases a
  {
    if a == 1 {
    } else if a % 2 == 0 {
      var b := a / 2;
      assert (a - 1) / 2 == b - 1 && (a - 1) % 2 == 1;
      assert BitAnd(a, a - 1) == 2 * BitAnd(b, b - 1);
      BitTrickIsPowerOfTwo(b);
    } else {
      var b := a / 2;
      assert (a - 1) / 2 == b && (a - 1) % 2 == 0 && b > 0;
      assert BitAnd(a, a - 1) == 2 * BitAnd(b, b);
      BitAndSelf(b);
    }
  }

  function IsAligned(address: nat, alignment: uint32 := SIMD_ALIGN): (r: bool)
    requires PowerOfTwoBits(alignment)
    ensures r <==> (address / alignment) * alignment == address
  {
    address % alignment == 0
  }

  /** An address is aligned exactly when it is a whole number k of alignments. */
  lemma AlignedIffMultiple(address: nat, alignment: uint32, k: nat)
    requires PowerOfTwoBits(alignment)
    ensures k * alignment == address ==> IsAligned(address, alignment)
    ensures IsAligned(address, alignment) ==> (address / alignment) * alignment == address
  {
    if k * alignment == address {
      Bytes.DivModUnique(address, alignment, k, 0);
    }
  }

  /** Moving by a whole alignment keeps an address aligned. */
  lemma StepKeepsAligned(address: nat, alignment: uint32)
    requires PowerOfTwoBits(alignment) && IsAligned(address, alignment)
    ensures IsAligned(address + alignment as nat, alignment)
  {
    var q := address / alignment;
    AlignedIffMultiple(address, alignment, q);
    assert (q + 1) * alignment == q * alignment + alignment;
    AlignedIffMultiple(address + alignment as nat, alignment, q + 1);
  }

  /** The default boundary is a power of two, so the one-argument form may always be called. */
  lemma DefaultAlignment()
    ensures PowerOfTwoBits(SIMD_ALIGN) && IsPowerOfTwo(SIMD_ALIGN as nat)
  {
    assert IsPowerOfTwo(1) && IsPowerOfTwo(2) && IsPowerOfTwo(4) && IsPowerOfTwo(8) && IsPowerOfTwo(16);
    BitTrickIsPowerOfTwo(32);
  }

  /** Address 0 is aligned to every boundary. */
  lemma ZeroIsAligned(alignment: uint32)
    requires PowerOfTwoBits(alignment)
    ensures IsAligned(0, alignment)
  {
  }

  /** The library's tests: addresses 1 to 7 are not 8-aligned, and 8 is. */
  lemma EightByteExamples()
    ensures PowerOfTwoBits(8)
    ensures forall a: nat :: 1 <= a < 8 ==> !IsAligned(a, 8)
    ensures IsAligned(8, 8)
  {
  }
}
