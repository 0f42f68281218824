/**
 * random_buffer: a buffer filled with pseudo-random bytes that can later be
 * checked against the seed they came from, optionally stored big-endian in
 * the first four bytes.
 *
 * The generator (std::mt19937 seeded with the seed, drawn through a uniform
 * distribution over 0..255) is a parameter: Generator(seed, k) is the k-th
 * byte drawn after seeding. The seed std::random_device supplies is an
 * input of Fill. buffer::resize is not part of this model: Fill's effect on
 * the buffer is a fresh block of exactly size bytes.
 */
module RandomBuffer {
  import opened Bytes
  import opened ConvertEndian
  import opened BigEndian

  type Generator = (uint32, nat) -> uint8

  /** The first n bytes drawn from a generator seeded with seed. */
  function Generated(gen: Generator, seed: uint32, n: nat): (r: seq<uint8>)
    ensures |r| == n && forall k :: 0 <= k < n ==> r[k] == gen(seed, k)
  {
    seq(n, k requires 0 <= k => gen(seed, k))
  }

  /**
   * The bytes fill(size, embed_seed) leaves: with the seed embedded, its
   * four big-endian bytes and then size - 4 drawn bytes; otherwise size
   * drawn bytes from index 0.
   */
  function Filled(gen: Generator, size: nat, embedSeed: bool, seed: uint32): (r: seq<uint8>)
    requires embedSeed ==> size > 4
    ensures |r| == size
    ensures embedSeed ==> r[..4] == BE(seed, 4) && forall k :: 4 <= k < size ==> r[k] == gen(seed, k - 4)
    ensures !embedSeed ==> forall k :: 0 <= k < size ==> r[k] == gen(seed, k)
  {
    if embedSeed then BE(seed, 4) + Generated(gen, seed, size - 4) else Generated(gen, seed, size)
  }

  /** The seed big_endian::get<uint32_t> reads from the first four bytes. */
  function EmbeddedSeed(s: seq<uint8>): (r: uint32)
    requires |s| >= 4
    ensures BE(r, 4) == s[..4]
  {
    FromBEBound(s[..4]);
    Pow256Values();
    BEOfFromBE(s[..4]);
    GetNetwork(W32, s)
  }

  /** What verify decides: every byte after the seed is the regenerated one. */
  predicate Verifies(gen: Generator, s: seq<uint8>)
    requires |s| > 4
  {
    s[4..] == Generated(gen, EmbeddedSeed(s), |s| - 4)
  }

  class RandomBuffer {
    const generator: Generator
    var data: array<uint8>

    /** A new buffer holds no bytes. */
    constructor(generator: Generator)
      ensures this.generator == generator && data.Length == 0
    {
      this.generator := generator;
      data := new uint8[0];
    }

    /**
     * fill(size, embed_seed): resize to size bytes; with embed_seed (which
     * needs size > 4) write the seed at the front and draw from index 4,
     * otherwise draw from index 0.
     */
    method Fill(size: uint32, embedSeed: bool, seed: uint32)
      requires embedSeed ==> size > 4
      modifies this
      ensures fresh(data) && data.Length == size
      ensures data[..] == Filled(generator, size, embedSeed, seed)
    {
      var buffer := new uint8[size];
      var start := 0;
      if embedSeed {
        Pow256Values();
        PutNetwork(W32, seed, buffer, 0);
        start := 4;
      }
      ghost var prefix := buffer[..start];
      assert embedSeed ==> prefix == BE(seed, 4);
      for i := start to size
        invariant buffer[..start] == prefix
        invariant forall k :: start <= k < i ==> buffer[k] == generator(seed, k - start)
      {
        buffer[i] := generator(seed, i - start);
        assert buffer[..start] == prefix;
      }
      data := buffer;
      ghost var want := Filled(generator, size, embedSeed, seed);
      assert forall k :: 0 <= k < start ==> data[k] == prefix[k];
      assert data[..] == want;
    }

    /**
     * verify(): the buffer must hold more than the seed; regenerate from the
     * embedded seed and stop with false at the first byte that differs.
     */
    method Verify() returns (r: bool)
      requires data.Length > 4
      ensures r <==> Verifies(generator, data[..])
    {
      var seed := EmbeddedSeed(data[..]);
      ghost var want := Generated(generator, seed, data.Length - 4);
      for i := 4 to data.Length
        invariant forall k :: 4 <= k < i ==> data[k] == generator(seed, k - 4)
      {
        if data[i] != generator(seed, i - 4) {
          assert data[..][4..][i - 4] != want[i - 4];
          return false;
        }
      }
      assert data[..][4..] == want;
      return true;
    }
  }

  /** fill(size, true) followed by verify() succeeds, whatever the seed. */
  lemma FillThenVerify(gen: Generator, size: nat, seed: uint32)
    requires size > 4
    ensures Verifies(gen, Filled(gen, size, true, seed))
  {
    var s := Filled(gen, size, true, seed);
    var r := EmbeddedSeed(s);
    Pow256Values();
    RoundTripBE(r, W32);
    RoundTripBE(seed, W32);
    assert BE(r, 4) == BE(seed, 4);
    assert s[4..] == Generated(gen, seed, size - 4);
  }

  /**
   * The buffers verify accepts are exactly those fill(size, true) produces
   * with the seed they carry.
   */
  lemma VerifiesIffFilled(gen: Generator, s: seq<uint8>)
    requires |s| > 4
    ensures Verifies(gen, s) <==> s == Filled(gen, |s|, true, EmbeddedSeed(s))
  {
    var seed := EmbeddedSeed(s);
    var f := Filled(gen, |s|, true, seed);
    if Verifies(gen, s) {
      assert s == s[..4] + s[4..];
      assert f == BE(seed, 4) + Generated(gen, seed, |s| - 4);
    }
    if s == f {
      assert s[4..] == f[4..];
    }
  }

  /**
   * Adding one (modulo 256) to the last drawn byte after fill(size, true)
   * makes verify() fail.
   */
  lemma TamperLastByte(gen: Generator, size: nat, seed: uint32)
    requires size > 4
    ensures var s := Filled(gen, size, true, seed);
      !Verifies(gen, s[size - 1 := (s[size - 1] as int + 1) % 256])
  {
    var s := Filled(gen, size, true, seed);
    var t := s[size - 1 := (s[size - 1] as int + 1) % 256];
    assert t[..4] == s[..4];
    FillThenVerify(gen, size, seed);
    assert EmbeddedSeed(t) == EmbeddedSeed(s) by {
      assert t[..4] == s[..4];
      FromBEBound(t[..4]);
      BEOfFromBE(t[..4]);
      BEOfFromBE(s[..4]);
      assert GetNetwork(W32, t) == FromBE(t[..4]) == FromBE(s[..4]) == GetNetwork(W32, s);
    }
    assert t[4..][size - 5] != s[4..][size - 5];
  }
}
