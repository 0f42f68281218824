/**
 * endian_stream (header version): a read/write cursor over a caller-owned,
 * growable byte vector. Writes grow the vector as needed and store integers in
 * network byte order; reads fail, without moving, when too few bytes remain.
 * The vector is shared with the caller, so it is an object of its own here.
 *
 * The stream's methods check their bounds over unbounded naturals. The
 * source's checks for strings and vectors add the uint32_t position and
 * count, which can wrap; WriteAsWritten and ReadAsWritten are those checks
 * as written, and the lemmas after them compare the two.
 */
module EndianStream {
  import opened Bytes
  import opened Wrappers
  import opened BigEndian

  /** A std::vector<uint8_t> owned by the caller and shared with the stream. */
  class ByteVector {
    var data: seq<uint8>

    constructor(data: seq<uint8>)
      ensures this.data == data
    {
      this.data := data;
    }
  }

  /**
   * The vector after writing bytes b at position pos: grown when too short,
   * then overwritten at [pos, pos + |b|). Writing nothing changes nothing.
   */
  function WriteAt(s: seq<uint8>, pos: nat, b: seq<uint8>): seq<uint8>
  {
    if |b| == 0 then s else Splice(Grown(s, pos + |b|), pos, b)
  }

  /** The n bytes a read at pos obtains, or None when the vector is too short. */
  function Window(s: seq<uint8>, pos: nat, n: nat): Option<seq<uint8>>
  {
    if n == 0 then Some([])
    else if |s| < pos + n then None
    else Some(s[pos..pos + n])
  }

  /** The integer of width w a read at pos obtains. */
  function ReadValue(s: seq<uint8>, pos: nat, w: Width): Option<nat>
  {
    match Window(s, pos, w.Size())
    case None => None
    case Some(b) => Some(FromBE(b))
  }

  class EndianStream {
    const vector: ByteVector
    var position: nat

    /** The stream starts at the given offset into the vector. */
    constructor(vector: ByteVector, offset: uint32)
      ensures this.vector == vector && position == offset
    {
      this.vector := vector;
      position := offset;
    }

    function Position(): (p: nat)
      reads this
      ensures p == position
    {
      position
    }

    /** write<ValueType>: grow if needed, put in network order, advance. */
    method Write(w: Width, v: nat)
      requires Fits(v, w)
      modifies this, vector
      ensures vector.data == WriteAt(old(vector.data), old(position), BE(v, w.Size()))
      ensures position == old(position) + w.Size()
    {
      var n := w.Size();
      var d := vector.data;
      if |d| < position + n {
        d := Grown(d, position + n);
      }
      var a := new uint8[|d|](i => if 0 <= i < |d| then d[i] else 0);
      assert a[..] == d;
      PutNetwork(w, v, a, position);
      vector.data := a[..];
      position := position + n;
    }

    /** write_vector: copy the bytes at the position, growing the vector; nothing for no bytes. */
    method WriteVector(value: seq<uint8>)
      modifies this, vector
      ensures vector.data == WriteAt(old(vector.data), old(position), value)
      ensures position == old(position) + |value|
    {
      var bytes := |value|;
      if bytes == 0 {
        return;
      }
      if |vector.data| < position + bytes {
        vector.data := Grown(vector.data, position + bytes);
      }
      vector.data := Splice(vector.data, position, value);
      position := position + bytes;
    }

    /** write_string(value): the same copy as write_vector, for the characters of a string. */
    method WriteString(value: seq<uint8>)
      modifies this, vector
      ensures vector.data == WriteAt(old(vector.data), old(position), value)
      ensures position == old(position) + |value|
    {
      WriteVector(value);
    }

    /**
     * write_string<LengthType>: the length, converted to LengthType (so
     * truncated to its width), then the characters.
     */
    method WriteStringPrefixed(lengthType: Width, value: seq<uint8>)
      modifies this, vector
      ensures vector.data == WriteAt(WriteAt(old(vector.data), old(position),
                                             BE(|value| % Pow256(lengthType.Size()), lengthType.Size())),
                                     old(position) + lengthType.Size(), value)
      ensures position == old(position) + lengthType.Size() + |value|
    {
      Write(lengthType, |value| % Pow256(lengthType.Size()));
      WriteString(value);
    }

    /** read<ValueType>: false and no movement when too few bytes remain; value is untouched then. */
    method Read(w: Width, value: nat) returns (ok: bool, result: nat)
      modifies this
      ensures ok == ReadValue(vector.data, old(position), w).Some?
      ensures ok ==> result == ReadValue(vector.data, old(position), w).value
                     && position == old(position) + w.Size()
      ensures !ok ==> result == value && position == old(position)
    {
      var n := w.Size();
      if |vector.data| < position + n {
        return false, value;
      }
      result := GetNetwork(w, vector.data[position..]);
      assert vector.data[position..][..n] == vector.data[position..position + n];
      position := position + n;
      ok := true;
    }

    /**
     * read_vector(value, bytes): true at once for zero bytes; false without
     * movement when too few remain; otherwise value becomes the bytes.
     */
    method ReadVector(value: seq<uint8>, bytes: uint32) returns (ok: bool, result: seq<uint8>)
      modifies this
      ensures ok == Window(vector.data, old(position), bytes).Some?
      ensures ok && bytes > 0 ==> result == Window(vector.data, old(position), bytes).value
      ensures !ok || bytes == 0 ==> result == value
      ensures position == if ok then old(position) + bytes else old(position)
    {
      if bytes == 0 {
        return true, value;
      }
      if |vector.data| < position + bytes {
        return false, value;
      }
      result := vector.data[position..position + bytes];
      position := position + bytes;
      ok := true;
    }

    /** read_string(value, bytes): the same copy as read_vector, into a string. */
    method ReadString(value: seq<uint8>, bytes: uint32) returns (ok: bool, result: seq<uint8>)
      modifies this
      ensures ok == Window(vector.data, old(position), bytes).Some?
      ensures ok && bytes > 0 ==> result == Window(vector.data, old(position), bytes).value
      ensures !ok || bytes == 0 ==> result == value
      ensures position == if ok then old(position) + bytes else old(position)
    {
      ok, result := ReadVector(value, bytes);
    }

    /**
     * read_string<LengthType>: read the length, then that many characters.
     * The length is passed on as a uint32_t, so a 64-bit length is truncated.
     * When the length is read but the characters are missing, the position
     * stays after the length.
     */
    method ReadStringPrefixed(lengthType: Width, value: seq<uint8>) returns (ok: bool, result: seq<uint8>)
      modifies this
      ensures var len := ReadValue(vector.data, old(position), lengthType);
        && (len.None? ==> !ok && result == value && position == old(position))
        && (len.Some? ==>
              var start := old(position) + lengthType.Size();
              var bytes := len.value % U32_MODULUS;
              var body := Window(vector.data, start, bytes);
              && ok == body.Some?
              && (ok && bytes > 0 ==> result == body.value)
              && (!ok || bytes == 0 ==> result == value)
              && position == if ok then start + bytes else start)
    {
      var lengthOk, length := Read(lengthType, 0);
      if !lengthOk {
        return false, value;
      }
      ok, result := ReadString(value, length % U32_MODULUS);
    }
  }

  /** A write leaves the bytes before it alone, and never shrinks the vector. */
  lemma WriteAtKeeps(s: seq<uint8>, pos: nat, b: seq<uint8>)
    ensures |WriteAt(s, pos, b)| >= |s|
    ensures |b| > 0 ==> |WriteAt(s, pos, b)| >= pos + |b| && WriteAt(s, pos, b)[pos..pos + |b|] == b
    ensures forall i :: 0 <= i < |s| && (i < pos || pos + |b| <= i) ==> WriteAt(s, pos, b)[i] == s[i]
  {
    if |b| > 0 {
      var g := Grown(s, pos + |b|);
      forall i | 0 <= i < |s|
        ensures g[i] == s[i]
      {
        assert g[..|s|][i] == g[i];
      }
    }
  }

  /** A read at the position of a write obtains exactly the bytes written. */
  lemma WindowOfWriteAt(s: seq<uint8>, pos: nat, b: seq<uint8>)
    ensures Window(WriteAt(s, pos, b), pos, |b|) == Some(b)
  {
  }

  /** Reading an integer where it was written gives it back. */
  lemma ReadAfterWrite(s: seq<uint8>, pos: nat, w: Width, v: nat)
    requires Fits(v, w)
    ensures ReadValue(WriteAt(s, pos, BE(v, w.Size())), pos, w) == Some(v)
  {
    WindowOfWriteAt(s, pos, BE(v, w.Size()));
    RoundTripBE(v, w);
  }

  /** The vector after writing the blocks one after another from pos. */
  function WriteAll(s: seq<uint8>, pos: nat, blocks: seq<seq<uint8>>): seq<uint8>
    decreases |blocks|
  {
    if blocks == [] then s else WriteAll(WriteAt(s, pos, blocks[0]), pos + |blocks[0]|, blocks[1..])
  }

  /** Reading blocks of the given sizes one after another from pos. */
  function ReadAll(s: seq<uint8>, pos: nat, sizes: seq<nat>): Option<seq<seq<uint8>>>
    decreases |sizes|
  {
    if sizes == [] then Some([])
    else match Window(s, pos, sizes[0])
      case None => None
      case Some(b) =>
        match ReadAll(s, pos + sizes[0], sizes[1..])
        case None => None
        case Some(rest) => Some([b] + rest)
  }

  function Sizes(blocks: seq<seq<uint8>>): (r: seq<nat>)
    ensures |r| == |blocks| && forall i :: 0 <= i < |r| ==> r[i] == |blocks[i]|
  {
    if blocks == [] then [] else [|blocks[0]|] + Sizes(blocks[1..])
  }

  /** Later writes, all at or after pos, leave the bytes before pos alone. */
  lemma {:induction false} WriteAllKeeps(s: seq<uint8>, pos: nat, blocks: seq<seq<uint8>>)
    ensures |WriteAll(s, pos, blocks)| >= |s|
    ensures forall i :: 0 <= i < pos && i < |s| ==> WriteAll(s, pos, blocks)[i] == s[i]
    decreases |blocks|
  {
    if blocks != [] {
      var t := WriteAt(s, pos, blocks[0]);
      var u := WriteAll(t, pos + |blocks[0]|, blocks[1..]);
      assert u == WriteAll(s, pos, blocks);
      WriteAtKeeps(s, pos, blocks[0]);
      WriteAllKeeps(t, pos + |blocks[0]|, blocks[1..]);
      forall i | 0 <= i < pos && i < |s|
        ensures u[i] == s[i]
      {
        assert u[i] == t[i];
      }
    }
  }

  /** A block stays readable at its position after any later writes behind it. */
  lemma HeadSurvives(s: seq<uint8>, pos: nat, b: seq<uint8>, rest: seq<seq<uint8>>)
    ensures Window(WriteAll(WriteAt(s, pos, b), pos + |b|, rest), pos, |b|) == Some(b)
  {
    if |b| > 0 {
      var t := WriteAt(s, pos, b);
      WriteAtKeeps(s, pos, b);
      WriteAllKeeps(t, pos + |b|, rest);
      WindowOfAgreeing(WriteAll(t, pos + |b|, rest), t, pos, b);
    }
  }

  /** A vector that agrees with t where t holds b also yields b there. */
  lemma WindowOfAgreeing(u: seq<uint8>, t: seq<uint8>, pos: nat, b: seq<uint8>)
    requires |b| > 0 && pos + |b| <= |t| <= |u|
    requires t[pos..pos + |b|] == b
    requires forall i :: 0 <= i < pos + |b| && i < |t| ==> u[i] == t[i]
    ensures Window(u, pos, |b|) == Some(b)
  {
    assert u[pos..pos + |b|] == t[pos..pos + |b|];
  }

  /**
   * The stream is first in, first out: blocks written one after another from
   * pos are read back, in order, by reads of the same sizes from pos.
   */
  lemma {:induction false} FirstInFirstOut(s: seq<uint8>, pos: nat, blocks: seq<seq<uint8>>)
    ensures ReadAll(WriteAll(s, pos, blocks), pos, Sizes(blocks)) == Some(blocks)
    decreases |blocks|
  {
    if blocks != [] {
      var b := blocks[0];
      var t := WriteAt(s, pos, b);
      WriteAllCons(s, pos, blocks);
      FirstInFirstOut(t, pos + |b|, blocks[1..]);
      HeadSurvives(s, pos, b, blocks[1..]);
      ReadAllCons(WriteAll(t, pos + |b|, blocks[1..]), pos, blocks);
    }
  }

  /** Writing a first block and then the rest is writing them all. */
  lemma WriteAllCons(s: seq<uint8>, pos: nat, blocks: seq<seq<uint8>>)
    requires blocks != []
    ensures WriteAll(s, pos, blocks) == WriteAll(WriteAt(s, pos, blocks[0]), pos + |blocks[0]|, blocks[1..])
  {
  }

  /** Reading a first block and then the rest is reading them all. */
  lemma ReadAllCons(u: seq<uint8>, pos: nat, blocks: seq<seq<uint8>>)
    requires blocks != []
    requires Window(u, pos, |blocks[0]|) == Some(blocks[0])
    requires ReadAll(u, pos + |blocks[0]|, Sizes(blocks[1..])) == Some(blocks[1..])
    ensures ReadAll(u, pos, Sizes(blocks)) == Some(blocks)
  {
    var sizes := Sizes(blocks);
    assert sizes[0] == |blocks[0]| && sizes[1..] == Sizes(blocks[1..]);
    assert [blocks[0]] + blocks[1..] == blocks;
  }

  /** The bytes write_string<LengthType> produces: the truncated length, then the characters. */
  function PrefixedRecord(lengthType: Width, value: seq<uint8>): seq<uint8>
  {
    BE(|value| % Pow256(lengthType.Size()), lengthType.Size()) + value
  }

  /** A length-prefixed string whose length fits its length type reads back whole. */
  lemma PrefixedRoundTrip(lengthType: Width, value: seq<uint8>)
    requires |value| < Pow256(lengthType.Size()) && |value| < U32_MODULUS
    ensures var r := PrefixedRecord(lengthType, value);
      var n := lengthType.Size();
      && ReadValue(r, 0, lengthType) == Some(|value|)
      && Window(r, n, |value|) == Some(value)
  {
    var n := lengthType.Size();
    var r := PrefixedRecord(lengthType, value);
    ModBelow(|value|, Pow256(n));
    var e := BE(|value|, n);
    assert r == e + value;
    assert r[0..n] == e;
    assert r[n..n + |value|] == value;
    RoundTripBE(|value|, lengthType);
  }

  /** A 256-character string written with a one-byte length reads back as the empty string. */
  lemma PrefixedTruncates(value: seq<uint8>)
    requires |value| == 256
    ensures ReadValue(PrefixedRecord(W8, value), 0, W8) == Some(0)
  {
    var r := PrefixedRecord(W8, value);
    assert 256 % Pow256(1) == 0;
    assert BE(0, 1) == [0];
    assert r[0..1] == [0];
    assert [0][..0] == [];
  }

  // ---- The bounds checks as the source writes them ----

  /**
   * write_vector / write_string as the source computes them. The count is
   * value.size() cut to uint32_t; the vector is resized to position + count,
   * a uint32_t sum, only when it is shorter than that sum; then copy_n writes
   * the count bytes at the position. None when that copy runs past the end
   * of the vector.
   */
  function WriteAsWritten(s: seq<uint8>, pos: uint32, value: seq<uint8>): Option<seq<uint8>>
  {
    var bytes := |value| % U32_MODULUS;
    if bytes == 0 then Some(s)
    else
      var end := Add32(pos, bytes);
      var g := if |s| < end then Grown(s, end) else s;
      if |g| < pos + bytes then None else Some(Splice(g, pos, value[..bytes]))
  }

  /** What read_vector / read_string as written do with a request for bytes bytes at pos. */
  datatype ReadOutcome = Refused | Copied(bytes: seq<uint8>) | Overrun

  /**
   * read_vector / read_string as the source computes them: refused when the
   * vector is shorter than position + bytes, that sum in uint32_t; otherwise
   * copy_n reads the bytes, past the end of the vector when the sum wrapped.
   */
  function ReadAsWritten(s: seq<uint8>, pos: uint32, bytes: uint32): ReadOutcome
  {
    if bytes == 0 then Copied([])
    else if |s| < Add32(pos, bytes) then Refused
    else if |s| < pos + bytes then Overrun
    else Copied(s[pos..pos + bytes])
  }

  /** Without wrap-around the write as written is the model's WriteAt. */
  lemma WriteAsWrittenWithoutWrap(s: seq<uint8>, pos: uint32, value: seq<uint8>)
    requires pos + |value| < U32_MODULUS
    ensures WriteAsWritten(s, pos, value) == Some(WriteAt(s, pos, value))
  {
    ModBelow(|value|, U32_MODULUS);
    assert value[..|value|] == value;
  }

  /** Without wrap-around the read as written refuses and copies exactly as Window does. */
  lemma ReadAsWrittenWithoutWrap(s: seq<uint8>, pos: uint32, bytes: uint32)
    requires pos + bytes < U32_MODULUS
    ensures ReadAsWritten(s, pos, bytes) == Refused <==> Window(s, pos, bytes).None?
    ensures Window(s, pos, bytes).Some? ==> ReadAsWritten(s, pos, bytes) == Copied(Window(s, pos, bytes).value)
  {
  }

  /**
   * On a vector shorter than 2^32, the check as written lets a read through
   * to copy past the end exactly when position + bytes wraps to at most the
   * vector's size.
   */
  lemma ReadCheckWraps(s: seq<uint8>, pos: uint32, bytes: uint32)
    requires |s| < U32_MODULUS && bytes > 0
    ensures ReadAsWritten(s, pos, bytes) == Overrun <==> U32_MODULUS <= pos + bytes <= U32_MODULUS + |s|
  {
  }

  /**
   * A 10-byte vector starting with the uint32_t length 0xFFFFFFFF:
   * read_string<uint32_t> reads the length, and the read of 0xFFFFFFFF bytes
   * from position 4 passes the check (the sum wraps to 3) and copies past the
   * end, where Window refuses it.
   */
  lemma ReadStringWrapPassesCheck()
    ensures var s := BE(0xFFFF_FFFF, 4) + Zeros(6);
      && ReadValue(s, 0, W32) == Some(0xFFFF_FFFF)
      && ReadAsWritten(s, 4, 0xFFFF_FFFF) == Overrun
      && Window(s, 4, 0xFFFF_FFFF) == None
  {
    var s := BE(0xFFFF_FFFF, 4) + Zeros(6);
    assert s[0..4] == BE(0xFFFF_FFFF, 4);
    RoundTripBE(0xFFFF_FFFF, W32);
  }

  /**
   * write_vector of 0xFFFFFFFF bytes at position 4 of a 10-byte vector: the
   * sum wraps to 3, the vector is not resized, and copy_n writes past its
   * end; WriteAt grows the vector to hold them.
   */
  lemma WriteWrapOverruns(s: seq<uint8>, value: seq<uint8>)
    requires |s| == 10 && |value| == 0xFFFF_FFFF
    ensures WriteAsWritten(s, 4, value) == None
    ensures |WriteAt(s, 4, value)| == 4 + 0xFFFF_FFFF
  {
  }

  /** A value of 2^32 + 1 bytes has count 1 after the cast: write_vector copies its first byte only. */
  lemma WriteCountTruncates(s: seq<uint8>, value: seq<uint8>)
    requires |value| == U32_MODULUS + 1
    ensures WriteAsWritten(s, 0, value) == Some(WriteAt(s, 0, value[..1]))
  {
  }
}
