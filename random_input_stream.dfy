/**
 * random_input_stream: a finite input stream over size bytes of random data
 * it owns. The C library's rand() is not modelled: its successive results
 * are an input sequence, and storing each into a uint8_t keeps its low
 * eight bits.
 *
 * seek asserts that the new position is at or past the end of the data,
 * the reverse of buffer_input_stream's bound; a position past the end then
 * makes bytes_available wrap around in its cast to uint32_t. SeekAsWritten
 * keeps that assertion; Seek is the bound the rest of the stream relies on.
 *
 * read's own assertion adds bytes and the position in uint32_t. Read
 * requires the sum without wrap-around, which is what its memcpy needs;
 * ReadAssertion is the check as written.
 */
module RandomInputStream {
  import opened Bytes

  /** bytes_available: the data size minus the position, cast to uint32_t. */
  function Available(size: nat, position: nat): (r: uint32)
    ensures position <= size < U32_MODULUS ==> r as nat == size - position
    ensures size < position < size + U32_MODULUS ==> r as nat == U32_MODULUS - (position - size)
  {
    (size - position) % U32_MODULUS
  }

  class RandomInputStream {
    var data: seq<uint8>
    var position: uint32

    /** The data is non-empty and its size fits in uint32_t; the position may lie anywhere. */
    ghost predicate Valid()
      reads this
    {
      0 < |data| < U32_MODULUS
    }

    /** random_input_stream(size): size bytes, the i-th the low byte of the i-th rand() result. */
    constructor(size: uint32, randoms: seq<nat>)
      requires size > 0 && |randoms| == size as nat
      ensures Valid() && position == 0 && |data| == size as nat
      ensures forall i :: 0 <= i < size ==> data[i] as nat == randoms[i] % 256
    {
      position := 0;
      data := Zeros(size);
      new;
      for i := 0 to size
        invariant |data| == size as nat && position == 0
        invariant forall j :: 0 <= j < i ==> data[j] as nat == randoms[j] % 256
      {
        data := data[i := (randoms[i] % 256) as uint8];
      }
    }

    /** data(): the bytes read from. */
    function Data(): (r: seq<uint8>)
      reads this
      requires Valid()
      ensures |r| == Size() as nat && r == data
    {
      data
    }

    /** seek(pos) as written: the assertion admits only positions at or past the end. */
    method SeekAsWritten(pos: uint32)
      requires Valid() && pos as nat >= |data|
      modifies this
      ensures Valid() && data == old(data) && position == pos
    {
      position := pos;
    }

    /** seek(pos) with the bound read() and bytes_available() rely on. */
    method Seek(pos: uint32)
      requires Valid() && pos as nat <= |data|
      modifies this
      ensures Valid() && data == old(data) && position == pos
      ensures BytesAvailable() as nat == |data| - pos as nat
    {
      position := pos;
    }

    function ReadPosition(): (r: uint32)
      reads this
      ensures r == position
    {
      position
    }

    /** read(buffer, bytes): copy the next bytes bytes into dest from destOff on and move past them. */
    method Read(dest: array<uint8>, destOff: nat, bytes: uint32)
      requires Valid() && bytes > 0
      requires bytes as nat + position as nat <= |data|
      requires destOff + bytes as nat <= dest.Length
      modifies this, dest
      ensures Valid() && data == old(data) && position == old(position) + bytes
      ensures dest[..] == Splice(old(dest[..]), destOff, data[old(position)..position])
    {
      var i: nat := 0;
      while i < bytes as nat
        modifies dest
        invariant i <= bytes as nat
        invariant forall j :: 0 <= j < dest.Length && !(destOff <= j < destOff + i) ==> dest[j] == old(dest[j])
        invariant forall j :: destOff <= j < destOff + i ==> dest[j] == data[position as nat + (j - destOff)]
      {
        dest[destOff + i] := data[position as nat + i];
        i := i + 1;
      }
      SpliceExt(dest[..], old(dest[..]), destOff, data[position..position + bytes]);
      position := position + bytes;
    }

    function BytesAvailable(): (r: uint32)
      reads this
      requires Valid()
      ensures r == Available(|data|, position)
      ensures position as nat <= |data| ==> r as nat + position as nat == |data|
    {
      Available(|data|, position)
    }

    /** stopped(): the data never grows. */
    function Stopped(): (r: bool)
      ensures r
    {
      true
    }

    function Size(): (r: uint32)
      reads this
      requires Valid()
      ensures r as nat == |data|
    {
      |data| as uint32
    }

    /**
     * The read loop of the stream's own test: chunks of at most chunk bytes
     * until nothing is available reproduce data() from the position on.
     */
    method ReadToEnd(chunk: uint32) returns (out: seq<uint8>)
      requires Valid() && chunk > 0 && position as nat <= |data|
      modifies this
      ensures Valid() && data == old(data) && position as nat == |data|
      ensures out == data[old(position)..]
    {
      out := [];
      while BytesAvailable() > 0
        invariant Valid() && data == old(data)
        invariant old(position) <= position && position as nat <= |data|
        invariant out == data[old(position)..position]
        decreases |data| - position as nat
      {
        var available := BytesAvailable();
        var n := if chunk < available then chunk else available;
        var part := new uint8[n];
        ghost var before, blank := position, part[..];
        Read(part, 0, n);
        SpliceWhole(blank, data[before..position]);
        ReadOn(data, old(position), before, position);
        out := out + part[..];
      }
    }
  }

  /** read's assertion as written: bytes > 0 and bytes + position <= size, the sum in uint32_t. */
  predicate ReadAssertion(size: nat, pos: uint32, bytes: uint32)
  {
    bytes > 0 && Add32(bytes, pos) <= size
  }

  /**
   * From a position seek as written admits, read's assertion lets through
   * exactly the reads whose uint32_t sum wraps to at most the size, and each
   * of those copies from past the end of the data.
   */
  lemma {:induction false} SeekAsWrittenAdmitsOnlyWrappingReads(size: nat, pos: uint32, bytes: uint32)
    requires pos >= size && bytes > 0
    ensures ReadAssertion(size, pos, bytes) <==> U32_MODULUS <= bytes + pos <= U32_MODULUS + size
    ensures ReadAssertion(size, pos, bytes) ==> bytes + pos > size
  {
    if bytes + pos < U32_MODULUS {
      assert Add32(bytes, pos) == bytes + pos > size;
    } else {
      assert Add32(bytes, pos) == bytes + pos - U32_MODULUS;
    }
  }

  /**
   * On 10 bytes of data, seek(0xFFFFFFFF) passes seek's assertion and a
   * read of one byte then passes read's: the sum wraps to 0, and memcpy
   * copies from offset 0xFFFFFFFF.
   */
  lemma WrappingReadPassesAssertion()
    ensures 0xFFFF_FFFF >= 10 && ReadAssertion(10, 0xFFFF_FFFF, 1)
    ensures 1 + 0xFFFF_FFFF > 10
  {
  }

  /** Without wrap-around the assertion is exactly the bound Read requires. */
  lemma ReadAssertionWithoutWrap(size: nat, pos: uint32, bytes: uint32)
    requires bytes > 0 && bytes + pos < U32_MODULUS
    ensures ReadAssertion(size, pos, bytes) <==> bytes + pos <= size
  {
  }

  /**
   * And it admits a position past the end, after which bytes_available
   * reports nearly 2^32 bytes: a stream of 1143 bytes sought to 1144
   * reports 4294967295 bytes available.
   */
  method SeekPastEndWraps(randoms: seq<nat>) returns (available: uint32)
    requires |randoms| == 1143
    ensures available == 0xFFFF_FFFF
  {
    var stream := new RandomInputStream(1143, randoms);
    stream.SeekAsWritten(1144);
    available := stream.BytesAvailable();
  }

  /** With the corrected bound the available count never wraps. */
  lemma {:induction false} SeekNeverWraps(size: nat, pos: nat)
    requires pos <= size < U32_MODULUS
    ensures Available(size, pos) as nat + pos == size
    ensures Available(size, pos) as nat <= size
  {
  }
}
