/**
 * endian_buffer: a fixed, caller-owned buffer used as a stack of integers in
 * network byte order. write pushes a value's bytes at the position and moves
 * it forward; read moves the position back and decodes the bytes there.
 * The header gives templated write<T>/read<T> with asserted bounds; the
 * source file gives write_u8 .. write_u64 and read_u8 .. read_u64 with no
 * checks at all, so the bounds are preconditions of both.
 */
module EndianBuffer {
  import opened Bytes
  import opened BigEndian
  import Storage

  class EndianBuffer {
    const buffer: array<uint8>
    const base: nat
    const size: uint32
    var position: uint32

    ghost predicate Valid()
      reads this
    {
      base + size <= buffer.Length && 0 < size && position <= size
    }

    /** The bytes pushed so far, bottom of the stack first. */
    function Contents(): (c: seq<uint8>)
      reads this, buffer
      requires Valid()
      ensures |c| == position
    {
      buffer[base..base + position]
    }

    /** endian_buffer(buffer, size): non-null buffer, non-zero size, position 0. */
    constructor(buffer: Storage.Ptr, size: uint32)
      requires !buffer.IsNull() && size != 0
      requires Storage.Within(Storage.Storage(buffer, size))
      ensures Valid() && Contents() == []
      ensures this.buffer == buffer.buf && base == buffer.off && this.size == size
    {
      this.buffer := buffer.buf;
      base := buffer.off;
      this.size := size;
      position := 0;
    }

    function Size(): (r: uint32)
      ensures r == size
    {
      size
    }

    function Position(): (r: uint32)
      reads this
      requires Valid()
      ensures r == |Contents()| && r <= Size()
    {
      position
    }

    /** write<ValueType>: push the value's bytes; the new position may not pass the size. */
    method Write(w: Width, v: nat)
      requires Valid() && Fits(v, w) && position as nat + w.Size() <= size as nat
      modifies this, buffer
      ensures Valid()
      ensures position == old(position) + w.Size()
      ensures Contents() == old(Contents()) + BE(v, w.Size())
      ensures buffer[..] == Splice(old(buffer[..]), base + old(position), BE(v, w.Size()))
    {
      var writePosition := base + position;
      position := position + w.Size() as uint32;
      PutNetwork(w, v, buffer, writePosition);
      SpliceExtends(old(buffer[..]), base, old(position) as nat, BE(v, w.Size()));
      assert Contents() == buffer[..][base..base + position];
    }

    /** read<ValueType>: pop the value on top; the position must hold at least its bytes. */
    method Read(w: Width) returns (v: nat)
      requires Valid() && position as nat >= w.Size()
      modifies this
      ensures Valid() && Fits(v, w)
      ensures position == old(position) - w.Size()
      ensures old(Contents()) == Contents() + BE(v, w.Size())
    {
      position := position - w.Size() as uint32;
      v := GetNetwork(w, buffer[base + position..]);
      PopBytes(buffer[..], base, position as nat, w.Size(), v);
    }

    method WriteU8(v: uint8)
      requires Valid() && position as nat + 1 <= size as nat
      modifies this, buffer
      ensures Valid() && position == old(position) + 1
      ensures Contents() == old(Contents()) + BE(v, 1)
      ensures buffer[..] == Splice(old(buffer[..]), base + old(position), BE(v, 1))
    {
      Write(W8, v);
    }

    method WriteU16(v: uint16)
      requires Valid() && position as nat + 2 <= size as nat
      modifies this, buffer
      ensures Valid() && position == old(position) + 2
      ensures Contents() == old(Contents()) + BE(v, 2)
      ensures buffer[..] == Splice(old(buffer[..]), base + old(position), BE(v, 2))
    {
      Write(W16, v);
    }

    method WriteU32(v: uint32)
      requires Valid() && position as nat + 4 <= size as nat
      modifies this, buffer
      ensures Valid() && position == old(position) + 4
      ensures Contents() == old(Contents()) + BE(v, 4)
      ensures buffer[..] == Splice(old(buffer[..]), base + old(position), BE(v, 4))
    {
      Write(W32, v);
    }

    method WriteU64(v: uint64)
      requires Valid() && position as nat + 8 <= size as nat
      modifies this, buffer
      ensures Valid() && position == old(position) + 8
      ensures Contents() == old(Contents()) + BE(v, 8)
      ensures buffer[..] == Splice(old(buffer[..]), base + old(position), BE(v, 8))
    {
      Write(W64, v);
    }

    method ReadU8() returns (v: uint8)
      requires Valid() && position >= 1
      modifies this
      ensures Valid() && position == old(position) - 1
      ensures old(Contents()) == Contents() + BE(v, 1)
    {
      var r := Read(W8);
      v := r;
    }

    method ReadU16() returns (v: uint16)
      requires Valid() && position >= 2
      modifies this
      ensures Valid() && position == old(position) - 2
      ensures old(Contents()) == Contents() + BE(v, 2)
    {
      var r := Read(W16);
      v := r;
    }

    method ReadU32() returns (v: uint32)
      requires Valid() && position >= 4
      modifies this
      ensures Valid() && position == old(position) - 4
      ensures old(Contents()) == Contents() + BE(v, 4)
    {
      var r := Read(W32);
      v := r;
    }

    method ReadU64() returns (v: uint64)
      requires Valid() && position >= 8
      modifies this
      ensures Valid() && position == old(position) - 8
      ensures old(Contents()) == Contents() + BE(v, 8)
    {
      var r := Read(W64);
      v := r;
    }
  }

  /** A pop undoes the push before it: same value back, same stack below. */
  lemma PopUndoesPush(c: seq<uint8>, d: seq<uint8>, w: Width, v: nat, r: nat)
    requires Fits(v, w) && Fits(r, w)
    requires c + BE(v, w.Size()) == d + BE(r, w.Size())
    ensures d == c && r == v
  {
    var n := w.Size();
    var s := c + BE(v, n);
    assert s[|c|..] == BE(v, n) && s[|d|..] == BE(r, n);
    assert s[..|c|] == c && s[..|d|] == d;
    RoundTripBE(v, w);
    RoundTripBE(r, w);
  }

  /** The stack after pushing each of vs, in order, onto c. */
  function PushAll(c: seq<uint8>, w: Width, vs: seq<nat>): seq<uint8>
    decreases |vs|
  {
    if vs == [] then c else PushAll(c + BE(vs[0], w.Size()), w, vs[1..])
  }

  function Reverse(vs: seq<nat>): (r: seq<nat>)
    ensures |r| == |vs|
  {
    if vs == [] then [] else Reverse(vs[1..]) + [vs[0]]
  }

  /**
   * Popping k values of width w off the stack c: the values in the order they
   * come off, and what is left. None when fewer than k values' bytes remain.
   */
  function PopAll(c: seq<uint8>, w: Width, k: nat): (r: (seq<nat>, seq<uint8>))
    decreases k
  {
    var n := w.Size();
    if k == 0 || |c| < n then ([], c)
    else
      var top := FromBE(c[|c| - n..]);
      var (rest, left) := PopAll(c[..|c| - n], w, k - 1);
      ([top] + rest, left)
  }

  /**
   * Last in, first out: popping as many values as were pushed returns them
   * in reverse order and leaves the stack as it was.
   */
  lemma {:induction false} LastInFirstOut(c: seq<uint8>, w: Width, vs: seq<nat>)
    requires forall i :: 0 <= i < |vs| ==> Fits(vs[i], w)
    ensures PopAll(PushAll(c, w, vs), w, |vs|) == (Reverse(vs), c)
    decreases |vs|
  {
    if vs != [] {
      var n := w.Size();
      var last := vs[|vs| - 1];
      var init := vs[..|vs| - 1];
      PushAllSnoc(c, w, init, last);
      assert init + [last] == vs;
      var below := PushAll(c, w, init);
      var s := below + BE(last, n);
      assert s[..|s| - n] == below && s[|s| - n..] == BE(last, n);
      RoundTripBE(last, w);
      LastInFirstOut(c, w, init);
      ReverseSnoc(init, last);
    }
  }

  lemma {:induction false} PushAllSnoc(c: seq<uint8>, w: Width, vs: seq<nat>, v: nat)
    ensures PushAll(c, w, vs + [v]) == PushAll(c, w, vs) + BE(v, w.Size())
    decreases |vs|
  {
    if vs == [] {
      assert PushAll(c + BE(v, w.Size()), w, []) == c + BE(v, w.Size());
      assert ([] + [v])[1..] == [];
    } else {
      assert (vs + [v])[0] == vs[0] && (vs + [v])[1..] == vs[1..] + [v];
      PushAllSnoc(c + BE(vs[0], w.Size()), w, vs[1..], v);
    }
  }

  lemma {:induction false} ReverseSnoc(vs: seq<nat>, v: nat)
    ensures Reverse(vs + [v]) == [v] + Reverse(vs)
    decreases |vs|
  {
    if vs == [] {
      assert ([] + [v])[1..] == [];
    } else {
      assert (vs + [v])[0] == vs[0] && (vs + [v])[1..] == vs[1..] + [v];
      ReverseSnoc(vs[1..], v);
    }
  }

  /** Decoding the top n bytes of a stack at base leaves the bytes below plus their encoding. */
  lemma PopBytes(s: seq<uint8>, base: nat, p: nat, n: nat, v: nat)
    requires base + p + n <= |s| && v == FromBE(s[base + p..][..n])
    ensures s[base..base + p + n] == s[base..base + p] + BE(v, n)
  {
    var top := s[base + p..][..n];
    assert s[base..base + p + n] == s[base..base + p] + top;
    BEOfFromBE(top);
  }
}
