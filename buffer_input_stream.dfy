/**
 * buffer_input_stream: a finite input stream over a caller-owned const
 * storage. It keeps a read position that seek sets and read advances; read
 * copies the next bytes out with memcpy, modelled by the same byte copy as
 * copy_storage.
 */
module BufferInputStream {
  import opened Bytes
  import opened Storage

  class BufferInputStream {
    const storage: Storage
    var position: uint32

    ghost predicate Valid()
      reads this
    {
      Within(storage) && storage.size > 0 && !storage.data.IsNull() && position <= storage.size
    }

    /** buffer_input_stream(storage): a non-empty, non-null view, read from its start. */
    constructor(bufferStorage: Storage)
      requires Within(bufferStorage)
      requires bufferStorage.size > 0 && !bufferStorage.data.IsNull()
      ensures Valid() && storage == bufferStorage && position == 0
    {
      storage := bufferStorage;
      position := 0;
    }

    /** seek(pos): any position up to and including the end. */
    method Seek(pos: uint32)
      requires Valid() && pos <= storage.size
      modifies this
      ensures Valid() && position == pos
    {
      position := pos;
    }

    function ReadPosition(): (r: uint32)
      reads this
      requires Valid()
      ensures r == position && r <= Size()
    {
      position
    }

    /**
     * read(buffer, bytes): copy the next bytes bytes into dest from offset
     * destOff on, and move past them. memcpy needs the two ranges apart.
     */
    method Read(dest: array<uint8>, destOff: nat, bytes: uint32)
      requires Valid() && bytes > 0
      requires bytes as nat + position as nat <= storage.size as nat
      requires destOff + bytes as nat <= dest.Length
      requires dest != storage.data.buf
        || destOff + bytes as nat <= storage.data.off + position as nat
        || storage.data.off + position as nat + bytes as nat <= destOff
      modifies this, dest
      ensures Valid() && position == old(position) + bytes
      ensures dest[..] == Splice(old(dest[..]), destOff, old(View(storage)[position..position + bytes]))
    {
      var from := Storage(storage.data.Plus(position), bytes);
      var into := Storage(Ptr(dest, destOff), bytes);
      assert View(from) == View(storage)[position..position + bytes];
      CopyStorage(into, from);
      position := position + bytes;
    }

    /** bytes_available(): what is left between the position and the end. */
    function BytesAvailable(): (r: uint32)
      reads this
      requires Valid()
      ensures r as nat + position as nat == Size() as nat
    {
      storage.size - position
    }

    /** stopped(): a buffer never receives more data. */
    function Stopped(): (r: bool)
      ensures r
    {
      true
    }

    /** size(): the size of the storage, fixed at construction. */
    function Size(): (r: uint32)
      ensures r == storage.size
    {
      storage.size
    }

    /** One pass of that loop: read the next n bytes into a fresh buffer. */
    method ReadChunk(n: uint32) returns (part: seq<uint8>)
      requires Valid() && n > 0 && n as nat + position as nat <= storage.size as nat
      modifies this
      ensures Valid() && position == old(position) + n
      ensures part == View(storage)[old(position)..position]
    {
      var buffer := new uint8[n];
      ghost var blank := buffer[..];
      Read(buffer, 0, n);
      SpliceWhole(blank, View(storage)[old(position)..position]);
      part := buffer[..];
    }

    /**
     * The read loop of the stream's own test: read chunks of at most chunk
     * bytes until nothing is available. The bytes read are exactly the rest
     * of the buffer.
     */
    method ReadToEnd(chunk: uint32) returns (out: seq<uint8>)
      requires Valid() && chunk > 0
      modifies this
      ensures Valid() && position == storage.size
      ensures out == View(storage)[old(position)..]
    {
      ghost var whole := View(storage);
      out := [];
      while BytesAvailable() > 0
        invariant Valid() && old(position) <= position
        invariant View(storage) == whole
        invariant out == whole[old(position)..position]
        decreases storage.size - position
      {
        var available := BytesAvailable();
        var n := if chunk < available then chunk else available;
        ghost var before := position;
        var part := ReadChunk(n);
        ReadOn(whole, old(position), before, position);
        out := out + part;
      }
    }
  }

  /**
   * read's assertion adds bytes and the position in uint32_t. With the
   * position inside the storage it passes the reads that fit and also those
   * whose sum wraps to at most the size; memcpy runs past the end for these.
   */
  lemma ReadAssertionWraps(size: uint32, pos: uint32, bytes: uint32)
    requires pos <= size && bytes > 0
    ensures Add32(bytes, pos) <= size <==>
      bytes + pos <= size || U32_MODULUS <= bytes + pos <= U32_MODULUS + size
  {
  }

  /**
   * On a 10-byte storage at position 5, read of 0xFFFFFFFF bytes passes the
   * assertion: the sum wraps to 4.
   */
  lemma WrappingReadPassesAssertion()
    ensures Add32(0xFFFF_FFFF, 5) == 4 <= 10
    ensures 0xFFFF_FFFF + 5 > 10
  {
  }
}
