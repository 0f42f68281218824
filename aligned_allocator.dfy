/**
 * aligned_allocator: an allocator whose blocks start on an Alignment
 * boundary. It asks for Alignment bytes more than needed, moves the start
 * forward to the next boundary (always by at least one byte) and keeps the
 * distance moved in the byte just before the returned start, so that
 * deallocate can find the raw block again.
 *
 * Memory is one byte array indexed by address. ::operator new is not
 * modelled: the raw block's address is an input, and the block must lie in
 * memory. The element size sizeof(T) is a parameter.
 */
module AlignedAllocator {
  import opened Bytes
  import opened Aligned

  /** The static_assert on Alignment. */
  predicate ValidAlignment(alignment: uint32)
  {
    PowerOfTwoBits(alignment)
  }

  /** alignment(): the template parameter, by default platform::simd_align. */
  function Alignment(alignment: uint32 := SIMD_ALIGN): (r: uint32)
    requires ValidAlignment(alignment)
    ensures r == alignment && r > 0
  {
    alignment
  }

  /** The default alignment is 32 and passes the static_assert. */
  lemma DefaultIs32()
    ensures ValidAlignment(SIMD_ALIGN) && Alignment() == 32
  {
    DefaultAlignment();
  }

  /** find_aligned(ptr): ptr moved forward by Alignment - ptr % Alignment. */
  function FindAligned(ptr: nat, alignment: uint32): (r: nat)
    requires ValidAlignment(alignment)
    ensures IsAligned(r, alignment)
    ensures ptr < r <= ptr + alignment as nat
  {
    var a := alignment as nat;
    var q := ptr / a;
    assert ptr == q * a + ptr % a;
    assert ptr + (a - ptr % a) == (q + 1) * a;
    AlignedIffMultiple(ptr + (a - ptr % a), alignment, q + 1);
    ptr + (a - ptr % a)
  }

  /** An already aligned address moves forward a whole alignment. */
  lemma AlignedMovesFullStep(ptr: nat, alignment: uint32)
    requires ValidAlignment(alignment) && IsAligned(ptr, alignment)
    ensures FindAligned(ptr, alignment) == ptr + alignment as nat
  {
  }

  /** find_aligned returns the first boundary strictly after ptr. */
  lemma FindAlignedIsNext(ptr: nat, alignment: uint32, b: nat)
    requires ValidAlignment(alignment) && IsAligned(b, alignment) && ptr < b
    ensures FindAligned(ptr, alignment) <= b
  {
    var a := alignment as nat;
    AlignedIffMultiple(b, alignment, b / a);
    NextMultiple(ptr, a, b / a);
  }

  /** ptr rounded up past itself to a multiple of a is at most any multiple of a above ptr. */
  lemma NextMultiple(ptr: nat, a: nat, k: nat)
    requires a > 0 && ptr < k * a
    ensures ptr + (a - ptr % a) <= k * a
  {
    var q := ptr / a;
    assert q * a <= ptr by {
      assert ptr == q * a + ptr % a;
    }
    MulLtCancel(q, k, a);
    MulLeNat(q + 1, k, a);
    assert ptr + (a - ptr % a) == (q + 1) * a by {
      assert ptr == q * a + ptr % a;
      assert (q + 1) * a == q * a + a;
    }
  }

  lemma MulLeNat(x: nat, y: nat, a: nat)
    requires x <= y
    ensures x * a <= y * a
  {
  }

  lemma MulLtCancel(x: nat, y: nat, a: nat)
    requires x * a < y * a
    ensures x < y
  {
  }

  /**
   * space_needed: num * sizeof(T) cast to uint32_t, plus Alignment, in
   * uint32_t arithmetic.
   */
  function SpaceNeeded(num: nat, elementSize: nat, alignment: uint32): (r: uint32)
    ensures num * elementSize + alignment as nat < U32_MODULUS ==> r as nat == num * elementSize + alignment as nat
  {
    ((num * elementSize) % U32_MODULUS + alignment as nat) % U32_MODULUS
  }

  /**
   * allocate(num): take the raw block at oldPtr, find the next boundary,
   * check that the distance fits in a byte, store it just below the
   * boundary and return the boundary.
   */
  method Allocate(memory: array<uint8>, oldPtr: nat, num: nat, elementSize: nat, alignment: uint32)
    returns (newPtr: nat)
    requires ValidAlignment(alignment)
    requires oldPtr + SpaceNeeded(num, elementSize, alignment) as nat <= memory.Length
    requires FindAligned(oldPtr, alignment) <= memory.Length
    requires FindAligned(oldPtr, alignment) - oldPtr <= 0xFF
    modifies memory
    ensures newPtr == FindAligned(oldPtr, alignment) && IsAligned(newPtr, alignment)
    ensures oldPtr < newPtr <= oldPtr + alignment as nat
    ensures memory[..] == old(memory[..])[newPtr - 1 := (newPtr - oldPtr) as uint8]
    ensures num * elementSize + alignment as nat < U32_MODULUS ==>
      newPtr + num * elementSize <= oldPtr + SpaceNeeded(num, elementSize, alignment) as nat
  {
    newPtr := FindAligned(oldPtr, alignment);
    var offset := newPtr - oldPtr;
    memory[newPtr - 1] := offset as uint8;
  }

  /** deallocate(p): the raw block starts the stored distance below p. */
  method Deallocate(memory: array<uint8>, p: nat) returns (oldPtr: nat)
    requires 0 < p <= memory.Length && memory[p - 1] as nat <= p
    ensures oldPtr == p - memory[p - 1] as nat
  {
    var offset := memory[p - 1];
    oldPtr := p - offset as nat;
  }

  /** deallocate(allocate(...)) finds the raw block the allocation came from. */
  method AllocateThenDeallocate(memory: array<uint8>, oldPtr: nat, num: nat, elementSize: nat, alignment: uint32)
    returns (recovered: nat)
    requires ValidAlignment(alignment)
    requires oldPtr + SpaceNeeded(num, elementSize, alignment) as nat <= memory.Length
    requires FindAligned(oldPtr, alignment) <= memory.Length
    requires FindAligned(oldPtr, alignment) - oldPtr <= 0xFF
    modifies memory
    ensures recovered == oldPtr
  {
    var p := Allocate(memory, oldPtr, num, elementSize, alignment);
    recovered := Deallocate(memory, p);
  }

  /** operator==: all aligned allocators are interchangeable. */
  function Equal(alignmentA: uint32, alignmentB: uint32): (r: bool)
    ensures r
  {
    true
  }

  /** operator!=: never. */
  function NotEqual(alignmentA: uint32, alignmentB: uint32): (r: bool)
    ensures !r && r == !Equal(alignmentA, alignmentB)
  {
    false
  }
}
