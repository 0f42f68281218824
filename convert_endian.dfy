/**
 * The two specialisations of convert_endian<Swap>. convert_endian<true>
 * stores the most significant byte first; convert_endian<false> is written
 * out byte by byte as least significant first. Pointers are (array, offset)
 * pairs: a put writes into the caller's array in place, a get reads the bytes
 * from the offset on (passed as the sequence b[off..]).
 */
module ConvertEndian {
  import opened Bytes

  lemma Pow256Values()
    ensures Pow256(0) == 1 && Pow256(1) == 0x100 && Pow256(2) == 0x1_0000
    ensures Pow256(3) == 0x100_0000 && Pow256(4) == 0x1_0000_0000
    ensures Pow256(5) == 0x100_0000_0000 && Pow256(6) == 0x1_0000_0000_0000
    ensures Pow256(7) == 0x100_0000_0000_0000 && Pow256(8) == 0x1_0000_0000_0000_0000
  {
  }

  /** The network-order encodings of the three widths, byte by byte. */
  lemma BEBytes(v: nat)
    ensures BE(v, 2) == [v / 0x100 % 0x100, v % 0x100]
    ensures BE(v, 4) == [v / 0x100_0000 % 0x100, v / 0x1_0000 % 0x100, v / 0x100 % 0x100, v % 0x100]
    ensures BE(v, 8) == [v / 0x100_0000_0000_0000 % 0x100, v / 0x1_0000_0000_0000 % 0x100,
                         v / 0x100_0000_0000 % 0x100, v / 0x1_0000_0000 % 0x100,
                         v / 0x100_0000 % 0x100, v / 0x1_0000 % 0x100, v / 0x100 % 0x100, v % 0x100]
  {
    Pow256Values();
    forall n: nat, i: nat | n in {2, 4, 8} && i < n
      ensures BE(v, n)[i] == v / Pow256(n - 1 - i) % 256
    {
      BEAt(v, n, i);
    }
  }

  /** The least-significant-first encodings of the three widths, byte by byte. */
  lemma LEBytes(v: nat)
    ensures LE(v, 2) == [v % 0x100, v / 0x100 % 0x100]
    ensures LE(v, 4) == [v % 0x100, v / 0x100 % 0x100, v / 0x1_0000 % 0x100, v / 0x100_0000 % 0x100]
    ensures LE(v, 8) == [v % 0x100, v / 0x100 % 0x100, v / 0x1_0000 % 0x100, v / 0x100_0000 % 0x100,
                         v / 0x1_0000_0000 % 0x100, v / 0x100_0000_0000 % 0x100,
                         v / 0x1_0000_0000_0000 % 0x100, v / 0x100_0000_0000_0000 % 0x100]
  {
    Pow256Values();
    forall n: nat, i: nat | n in {2, 4, 8} && i < n
      ensures LE(v, n)[i] == v / Pow256(i) % 256
    {
      LEAt(v, n, i);
    }
  }

  // ---- convert_endian<true> ----

  method SwapPut16(v: uint16, b: array<uint8>, off: nat)
    requires off + 2 <= b.Length
    modifies b
    ensures b[..] == Splice(old(b[..]), off, BE(v, 2))
  {
    b[off + 1] := v % 0x100;
    b[off] := v / 0x100 % 0x100;
    BEBytes(v);
    SpliceExt(b[..], old(b[..]), off, BE(v, 2));
  }

  method SwapPut32(v: uint32, b: array<uint8>, off: nat)
    requires off + 4 <= b.Length
    modifies b
    ensures b[..] == Splice(old(b[..]), off, BE(v, 4))
  {
    b[off + 3] := v % 0x100;
    b[off + 2] := v / 0x100 % 0x100;
    b[off + 1] := v / 0x1_0000 % 0x100;
    b[off] := v / 0x100_0000 % 0x100;
    BEBytes(v);
    SpliceExt(b[..], old(b[..]), off, BE(v, 4));
  }

  method SwapPut64(v: uint64, b: array<uint8>, off: nat)
    requires off + 8 <= b.Length
    modifies b
    ensures b[..] == Splice(old(b[..]), off, BE(v, 8))
  {
    b[off + 7] := v % 0x100;
    b[off + 6] := v / 0x100 % 0x100;
    b[off + 5] := v / 0x1_0000 % 0x100;
    b[off + 4] := v / 0x100_0000 % 0x100;
    b[off + 3] := v / 0x1_0000_0000 % 0x100;
    b[off + 2] := v / 0x100_0000_0000 % 0x100;
    b[off + 1] := v / 0x1_0000_0000_0000 % 0x100;
    b[off] := v / 0x100_0000_0000_0000 % 0x100;
    ghost var w := BE(v, 8);
    BEBytes(v);
    forall i | 0 <= i < 8
      ensures b[off + i] == w[i]
    {
    }
    SpliceExt(b[..], old(b[..]), off, w);
  }

  /** Reading most significant first, one more byte shifts the prefix up by eight bits. */
  lemma FromBEStep(b: seq<uint8>, j: nat)
    requires 0 < j <= |b|
    ensures FromBE(b[..j]) == FromBE(b[..j - 1]) * 256 + b[j - 1]
  {
    assert b[..j][..j - 1] == b[..j - 1];
  }

  /** Reading least significant first, the window [i, n) is its first byte plus the rest shifted. */
  lemma FromLEStep(b: seq<uint8>, i: nat, n: nat)
    requires i < n <= |b|
    ensures FromLE(b[i..n]) == b[i] + 256 * FromLE(b[i + 1..n])
  {
    assert b[i..n][1..] == b[i + 1..n];
  }

  // Shifting each byte into its own bit range and OR-ing the ranges together
  // is the same as adding the shifted values, which is how the gets are written.

  function SwapGet16(b: seq<uint8>): (r: uint16)
    requires |b| >= 2
    ensures r == FromBE(b[..2])
  {
    FromBEStep(b, 1);
    FromBEStep(b, 2);
    b[0] as int * 0x100 + b[1]
  }

  function SwapGet32(b: seq<uint8>): (r: uint32)
    requires |b| >= 4
    ensures r == FromBE(b[..4])
  {
    FromBEStep(b, 1);
    FromBEStep(b, 2);
    FromBEStep(b, 3);
    FromBEStep(b, 4);
    b[0] as int * 0x100_0000 + b[1] as int * 0x1_0000 + b[2] as int * 0x100 + b[3]
  }

  function SwapGet64(b: seq<uint8>): (r: uint64)
    requires |b| >= 8
    ensures r == FromBE(b[..8])
  {
    FromBEStep(b, 1);
    FromBEStep(b, 2);
    FromBEStep(b, 3);
    FromBEStep(b, 4);
    FromBEStep(b, 5);
    FromBEStep(b, 6);
    FromBEStep(b, 7);
    FromBEStep(b, 8);
    b[0] as int * 0x100_0000_0000_0000 + b[1] as int * 0x1_0000_0000_0000
      + b[2] as int * 0x100_0000_0000 + b[3] as int * 0x1_0000_0000
      + b[4] as int * 0x100_0000 + b[5] as int * 0x1_0000 + b[6] as int * 0x100 + b[7]
  }

  // ---- convert_endian<false> ----

  method PlainPut16(v: uint16, b: array<uint8>, off: nat)
    requires off + 2 <= b.Length
    modifies b
    ensures b[..] == Splice(old(b[..]), off, LE(v, 2))
  {
    b[off] := v % 0x100;
    b[off + 1] := v / 0x100 % 0x100;
    LEBytes(v);
    SpliceExt(b[..], old(b[..]), off, LE(v, 2));
  }

  method PlainPut32(v: uint32, b: array<uint8>, off: nat)
    requires off + 4 <= b.Length
    modifies b
    ensures b[..] == Splice(old(b[..]), off, LE(v, 4))
  {
    b[off] := v % 0x100;
    b[off + 1] := v / 0x100 % 0x100;
    b[off + 2] := v / 0x1_0000 % 0x100;
    b[off + 3] := v / 0x100_0000 % 0x100;
    LEBytes(v);
    SpliceExt(b[..], old(b[..]), off, LE(v, 4));
  }

  method PlainPut64(v: uint64, b: array<uint8>, off: nat)
    requires off + 8 <= b.Length
    modifies b
    ensures b[..] == Splice(old(b[..]), off, LE(v, 8))
  {
    b[off] := v % 0x100;
    b[off + 1] := v / 0x100 % 0x100;
    b[off + 2] := v / 0x1_0000 % 0x100;
    b[off + 3] := v / 0x100_0000 % 0x100;
    b[off + 4] := v / 0x1_0000_0000 % 0x100;
    b[off + 5] := v / 0x100_0000_0000 % 0x100;
    b[off + 6] := v / 0x1_0000_0000_0000 % 0x100;
    b[off + 7] := v / 0x100_0000_0000_0000 % 0x100;
    LEBytes(v);
    SpliceExt(b[..], old(b[..]), off, LE(v, 8));
  }

  function PlainGet16(b: seq<uint8>): (r: uint16)
    requires |b| >= 2
    ensures r == FromLE(b[..2])
  {
    assert b[..2] == b[0..2];
    FromLEStep(b, 0, 2);
    FromLEStep(b, 1, 2);
    b[1] as int * 0x100 + b[0]
  }

  function PlainGet32(b: seq<uint8>): (r: uint32)
    requires |b| >= 4
    ensures r == FromLE(b[..4])
  {
    assert b[..4] == b[0..4];
    FromLEStep(b, 0, 4);
    FromLEStep(b, 1, 4);
    FromLEStep(b, 2, 4);
    FromLEStep(b, 3, 4);
    b[3] as int * 0x100_0000 + b[2] as int * 0x1_0000 + b[1] as int * 0x100 + b[0]
  }

  function PlainGet64(b: seq<uint8>): (r: uint64)
    requires |b| >= 8
    ensures r == FromLE(b[..8])
  {
    assert b[..8] == b[0..8];
    FromLEStep(b, 0, 8);
    FromLEStep(b, 1, 8);
    FromLEStep(b, 2, 8);
    FromLEStep(b, 3, 8);
    FromLEStep(b, 4, 8);
    FromLEStep(b, 5, 8);
    FromLEStep(b, 6, 8);
    FromLEStep(b, 7, 8);
    b[7] as int * 0x100_0000_0000_0000 + b[6] as int * 0x1_0000_0000_0000
      + b[5] as int * 0x100_0000_0000 + b[4] as int * 0x1_0000_0000
      + b[3] as int * 0x100_0000 + b[2] as int * 0x1_0000 + b[1] as int * 0x100 + b[0]
  }
}
