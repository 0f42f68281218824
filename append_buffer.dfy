/**
 * buffer: an append-only byte buffer for network code. Data written is
 * appended after the bytes already held; the backing vector only grows (to
 * exactly the needed length) and the count of held bytes is kept apart from
 * the vector's length. The input range [buffer_start, buffer_end) is a pair
 * of pointers into one array, so it is an array with two offsets here.
 */
module AppendBuffer {
  import opened Bytes

  class AppendBuffer {
    var vector: seq<uint8>
    var size: uint32

    /** The held bytes always fit in the vector. */
    ghost predicate Valid()
      reads this
    {
      size as nat <= |vector|
    }

    /** The bytes held, oldest first. */
    function Contents(): (c: seq<uint8>)
      reads this
      requires Valid()
      ensures |c| == size
    {
      vector[..size]
    }

    /** buffer(): nothing held, an empty vector. */
    constructor()
      ensures Valid() && size == 0 && vector == [] && Contents() == []
    {
      vector := [];
      size := 0;
    }

    /**
     * write(buffer_start, buffer_end): append src[start..end]. The vector is
     * resized to exactly size + (end - start) only when it is shorter than
     * that; the bytes before the old size are kept.
     */
    method Write(src: array<uint8>, start: nat, end: nat)
      requires Valid()
      requires start <= end <= src.Length
      requires size as nat + (end - start) < U32_MODULUS
      modifies this
      ensures Valid()
      ensures size == old(size) + (end - start)
      ensures Contents() == old(Contents()) + src[start..end]
      ensures vector == Splice(Grown(old(vector), size), old(size), src[start..end])
      ensures |vector| >= |old(vector)|
    {
      var n := end - start;
      if size as nat + n > |vector| {
        vector := Grown(vector, size as nat + n);
      }
      vector := Splice(vector, size, src[start..end]);
      size := size + n as uint32;
      assert Contents() == vector[..old(size)] + vector[old(size)..size];
    }

    /**
     * data(): the start of the vector. Taking &m_vector[0] of an empty vector
     * is undefined, so the vector must hold at least one byte.
     */
    function Data(): (r: seq<uint8>)
      reads this
      requires Valid() && |vector| > 0
      ensures |r| >= size && r[..size] == Contents()
    {
      vector
    }

    function Size(): (r: uint32)
      reads this
      requires Valid()
      ensures r as nat == |Contents()|
    {
      size
    }

    /** clear(): nothing held, and the vector is emptied. */
    method Clear()
      modifies this
      ensures Valid() && size == 0 && vector == [] && Contents() == []
    {
      size := 0;
      vector := [];
    }
  }

  /** The bytes an append buffer holds after appending each chunk in turn. */
  function Appended(held: seq<uint8>, chunks: seq<seq<uint8>>): seq<uint8>
    decreases |chunks|
  {
    if chunks == [] then held else Appended(held + chunks[0], chunks[1..])
  }

  /**
   * Appending chunks one write at a time holds the old bytes followed by all
   * chunks laid end to end: nothing is lost, reordered or overwritten.
   */
  lemma {:induction false} AppendedIsConcat(held: seq<uint8>, chunks: seq<seq<uint8>>)
    ensures Appended(held, chunks) == held + Concat(chunks)
    decreases |chunks|
  {
    if chunks != [] {
      AppendedIsConcat(held + chunks[0], chunks[1..]);
      ConcatCons(chunks[0], chunks[1..]);
      assert [chunks[0]] + chunks[1..] == chunks;
    }
  }
}
