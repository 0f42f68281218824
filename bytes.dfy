/**
 * Fixed-width unsigned integers and the two byte orders used by the sak
 * library, given as reference definitions: BE/LE say which bytes an integer
 * occupies, FromBE/FromLE read them back. Every codec, stream and buffer in
 * this project is specified against these.
 */
module Bytes {

  type uint8 = x: int | 0 <= x < 0x100
  type uint16 = x: int | 0 <= x < 0x1_0000
  type uint32 = x: int | 0 <= x < 0x1_0000_0000
  type uint64 = x: int | 0 <= x < 0x1_0000_0000_0000_0000

  const U32_MODULUS: nat := 0x1_0000_0000

  /** The sum of two uint32_t values as C++ computes it, wrapping at 2^32. */
  function Add32(a: uint32, b: uint32): (r: uint32)
    ensures a + b < U32_MODULUS ==> r == a + b
    ensures a + b >= U32_MODULUS ==> r == a + b - U32_MODULUS
  {
    (a + b) % U32_MODULUS
  }

  /** The integer types the templated put<T>/get<T> accept, by byte width. */
  datatype Width = W8 | W16 | W32 | W64 {
    function Size(): (n: nat)
      ensures n in {1, 2, 4, 8}
    {
      match this
      case W8 => 1
      case W16 => 2
      case W32 => 4
      case W64 => 8
    }
  }

  function Pow256(n: nat): (r: nat)
    ensures r > 0
  {
    if n == 0 then 1 else 256 * Pow256(n - 1)
  }

  /** True when v is a value of the integer type of width w. */
  predicate Fits(v: nat, w: Width)
  {
    v < Pow256(w.Size())
  }

  /** The n low-order bytes of v, most significant first (network order). */
  function BE(v: nat, n: nat): (r: seq<uint8>)
    ensures |r| == n
  {
    if n == 0 then [] else BE(v / 256, n - 1) + [v % 256]
  }

  /** The n low-order bytes of v, least significant first. */
  function LE(v: nat, n: nat): (r: seq<uint8>)
    ensures |r| == n
  {
    if n == 0 then [] else [v % 256] + LE(v / 256, n - 1)
  }

  /** The number whose most-significant-first bytes are s. */
  function FromBE(s: seq<uint8>): nat
  {
    if s == [] then 0 else FromBE(s[..|s| - 1]) * 256 + s[|s| - 1]
  }

  /** The number whose least-significant-first bytes are s. */
  function FromLE(s: seq<uint8>): nat
  {
    if s == [] then 0 else s[0] + 256 * FromLE(s[1..])
  }

  /** s with the bytes at [off, off + |w|) replaced by w. */
  function Splice(s: seq<uint8>, off: nat, w: seq<uint8>): (r: seq<uint8>)
    requires off + |w| <= |s|
    ensures |r| == |s|
    ensures r[off..off + |w|] == w
    ensures forall i :: 0 <= i < |s| && !(off <= i < off + |w|) ==> r[i] == s[i]
  {
    s[..off] + w + s[off + |w|..]
  }

  /** Splicing over the whole of s gives w. */
  lemma SpliceWhole(s: seq<uint8>, w: seq<uint8>)
    requires |s| == |w|
    ensures Splice(s, 0, w) == w
  {
    assert Splice(s, 0, w)[0..|w|] == w;
  }

  /** Bytes read from [start, before), then from [before, after), are those of [start, after). */
  lemma ReadOn(whole: seq<uint8>, start: nat, before: nat, after: nat)
    requires start <= before <= after <= |whole|
    ensures whole[start..before] + whole[before..after] == whole[start..after]
  {
  }

  /** Splicing w right after [base, base + p) extends that run of bytes by w. */
  lemma SpliceExtends(s: seq<uint8>, base: nat, p: nat, w: seq<uint8>)
    requires base + p + |w| <= |s|
    ensures Splice(s, base + p, w)[base..base + p + |w|] == s[base..base + p] + w
  {
    var r := Splice(s, base + p, w);
    assert r[base..base + p + |w|] == r[base..base + p] + r[base + p..base + p + |w|];
    assert r[base..base + p] == s[base..base + p];
  }

  /** n zero bytes. */
  function Zeros(n: nat): (r: seq<uint8>)
    ensures |r| == n && forall i :: 0 <= i < n ==> r[i] == 0
  {
    if n == 0 then [] else Zeros(n - 1) + [0]
  }

  /** std::vector::resize growing s to n bytes: the new bytes are zero. */
  function Grown(s: seq<uint8>, n: nat): (r: seq<uint8>)
    ensures |r| == if |s| < n then n else |s|
    ensures r[..|s|] == s
    ensures forall i :: |s| <= i < |r| ==> r[i] == 0
  {
    if |s| < n then s + Zeros(n - |s|) else s
  }

  lemma DivMod256(v: nat, m: nat)
    requires m > 0
    ensures v % (256 * m) == (v / 256 % m) * 256 + v % 256
    ensures v / 256 / m == v / (256 * m)
  {
    var q, r := v / 256, v % 256;
    var a, b := q / m, q % m;
    assert v == 256 * q + r;
    assert q == m * a + b;
    assert v == (256 * m) * a + (256 * b + r);
    assert 0 <= 256 * b + r < 256 * m;
    DivModUnique(v, 256 * m, a, 256 * b + r);
  }

  lemma DivModUnique(v: int, d: int, q: int, r: int)
    requires d > 0 && 0 <= r < d && v == d * q + r
    ensures v / d == q && v % d == r
  {
    var q', r' := v / d, v % d;
    var k := q - q';
    assert d * k == r' - r by {
      assert d * q + r == d * q' + r';
    }
    if k > 0 {
      MulAtLeast(d, k);
    } else if k < 0 {
      MulAtLeast(d, -k);
    }
  }

  lemma MulAtLeast(d: int, k: int)
    requires d > 0 && k > 0
    ensures d * k >= d
  {
    assert d * k == d + d * (k - 1);
  }

  /** Decoding the network-order encoding gives back v modulo the width. */
  lemma {:induction false} FromBEOfBE(v: nat, n: nat)
    ensures FromBE(BE(v, n)) == v % Pow256(n)
  {
    if n > 0 {
      var s := BE(v, n);
      assert s[..n - 1] == BE(v / 256, n - 1);
      FromBEOfBE(v / 256, n - 1);
      DivMod256(v, Pow256(n - 1));
    }
  }

  /** Decoding the least-significant-first encoding gives back v modulo the width. */
  lemma {:induction false} FromLEOfLE(v: nat, n: nat)
    ensures FromLE(LE(v, n)) == v % Pow256(n)
  {
    if n > 0 {
      var s := LE(v, n);
      assert s[1..] == LE(v / 256, n - 1);
      FromLEOfLE(v / 256, n - 1);
      DivMod256(v, Pow256(n - 1));
    }
  }

  /** Byte i of the network-order encoding, as the shift expressions compute it. */
  lemma {:induction false} BEAt(v: nat, n: nat, i: nat)
    requires i < n
    ensures BE(v, n)[i] == v / Pow256(n - 1 - i) % 256
  {
    if i < n - 1 {
      BEAt(v / 256, n - 1, i);
      DivMod256(v, Pow256(n - 2 - i));
    }
  }

  /** Byte i of the least-significant-first encoding. */
  lemma {:induction false} LEAt(v: nat, n: nat, i: nat)
    requires i < n
    ensures LE(v, n)[i] == v / Pow256(i) % 256
  {
    if i > 0 {
      LEAt(v / 256, n - 1, i - 1);
      DivMod256(v, Pow256(i - 1));
    }
  }

  /** Reading most significant first, peeling the leading byte. */
  lemma {:induction false} FromBEHead(s: seq<uint8>)
    requires s != []
    ensures FromBE(s) == s[0] * Pow256(|s| - 1) + FromBE(s[1..])
  {
    if |s| > 1 {
      var n := |s|;
      var init, tail := s[..n - 1], s[1..];
      FromBEHead(init);
      var x := FromBE(init[1..]);
      assert init[1..] == tail[..n - 2];
      assert FromBE(tail) == x * 256 + s[n - 1];
      assert FromBE(s) == (s[0] * Pow256(n - 2) + x) * 256 + s[n - 1];
      ShiftByte(s[0], Pow256(n - 2), x);
    }
  }

  lemma ShiftByte(a: nat, p: nat, x: nat)
    ensures (a * p + x) * 256 == a * (256 * p) + x * 256
  {
  }

  /** A number below the modulus is its own remainder. */
  lemma ModBelow(v: nat, m: nat)
    requires v < m
    ensures v % m == v
  {
    DivModUnique(v, m, 0, v);
  }

  /** A sequence that agrees with w on [off, off + |w|) and with s elsewhere is the splice. */
  lemma SpliceExt(r: seq<uint8>, s: seq<uint8>, off: nat, w: seq<uint8>)
    requires off + |w| <= |s| && |r| == |s|
    requires forall i :: 0 <= i < |w| ==> r[off + i] == w[i]
    requires forall i :: 0 <= i < |s| && !(off <= i < off + |w|) ==> r[i] == s[i]
    ensures r == Splice(s, off, w)
  {
    var t := Splice(s, off, w);
    forall i | 0 <= i < |s|
      ensures r[i] == t[i]
    {
      if off <= i < off + |w| {
        assert r[off + (i - off)] == w[i - off];
        assert t[off..off + |w|][i - off] == t[i];
      }
    }
  }

  /** A decoded number always fits the width it was read from. */
  lemma {:induction false} FromBEBound(s: seq<uint8>)
    ensures FromBE(s) < Pow256(|s|)
  {
    if s != [] {
      FromBEBound(s[..|s| - 1]);
    }
  }

  /** Encoding a decoded number reproduces the bytes. */
  lemma {:induction false} BEOfFromBE(s: seq<uint8>)
    ensures BE(FromBE(s), |s|) == s
  {
    if s != [] {
      var n := |s|;
      var init := s[..n - 1];
      FromBEBound(init);
      var v := FromBE(s);
      assert v == FromBE(init) * 256 + s[n - 1];
      DivModUnique(v, 256, FromBE(init), s[n - 1]);
      BEOfFromBE(init);
      assert s == init + [s[n - 1]];
    }
  }

  /** For a value of the width, decode(encode(v)) == v in network order. */
  lemma RoundTripBE(v: nat, w: Width)
    requires Fits(v, w)
    ensures FromBE(BE(v, w.Size())) == v
  {
    FromBEOfBE(v, w.Size());
    ModBelow(v, Pow256(w.Size()));
  }

  /** For a value of the width, decode(encode(v)) == v least significant first. */
  lemma RoundTripLE(v: nat, w: Width)
    requires Fits(v, w)
    ensures FromLE(LE(v, w.Size())) == v
  {
    FromLEOfLE(v, w.Size());
    ModBelow(v, Pow256(w.Size()));
  }

  /** The two byte orders are each other's reversal. */
  lemma {:induction false} LEIsReversedBE(v: nat, n: nat)
    ensures forall i :: 0 <= i < n ==> LE(v, n)[i] == BE(v, n)[n - 1 - i]
  {
    if n > 0 {
      LEIsReversedBE(v / 256, n - 1);
      forall i | 0 <= i < n
        ensures LE(v, n)[i] == BE(v, n)[n - 1 - i]
      {
        if i > 0 {
          assert LE(v, n)[i] == LE(v / 256, n - 1)[i - 1];
          assert BE(v, n)[n - 1 - i] == BE(v / 256, n - 1)[n - 1 - i];
        }
      }
    }
  }

  /** All chunks laid end to end, the last one last. */
  function Concat(chunks: seq<seq<uint8>>): (r: seq<uint8>)
    decreases |chunks|
  {
    if chunks == [] then [] else Concat(chunks[..|chunks| - 1]) + chunks[|chunks| - 1]
  }

  lemma {:induction false} ConcatCons(c: seq<uint8>, chunks: seq<seq<uint8>>)
    ensures Concat([c] + chunks) == c + Concat(chunks)
    decreases |chunks|
  {
    if chunks != [] {
      var all := [c] + chunks;
      assert all[..|all| - 1] == [c] + chunks[..|chunks| - 1];
      ConcatCons(c, chunks[..|chunks| - 1]);
    } else {
      assert [c][..0] == [];
    }
  }
}
