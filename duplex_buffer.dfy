/**
 * duplex_buffer: a data window inside an owned backing vector, with spare
 * capacity before it (front) and after it (back), so that data can grow at
 * either end. Growing past the spare capacity on one side reallocates with
 * exactly the needed capacity on that side.
 *
 * The header and the source file hold two versions of the class: the header
 * names the private helpers subtract_from_front / add_to_front /
 * subtract_from_back / add_to_back, the source file shrink_front /
 * expand_front / shrink_back / expand_back, with the same bodies; the source
 * file adds front(), back() and resize(size, min_front, min_back).
 *
 * The fields are uint32_t and so is every sum of them the source forms; the
 * constructor and resize() are modelled with that sum wrapping, the
 * reallocating operations require it to fit (otherwise the source copies the
 * window past the end of the vector it has just allocated).
 */
module DuplexBuffer {
  import opened Bytes
  import Storage

  class DuplexBuffer {
    var buffer: array<uint8>
    var frontCapacity: uint32
    var backCapacity: uint32
    var dataSize: uint32

    /**
     * The window and both capacities exactly fill the backing vector, whose
     * size is a uint32_t total.
     */
    ghost predicate Valid()
      reads this
    {
      frontCapacity + dataSize + backCapacity == buffer.Length < U32_MODULUS
    }

    /** The data window. */
    function Contents(): (c: seq<uint8>)
      reads this, buffer
      requires Valid()
      ensures |c| == dataSize
    {
      buffer[frontCapacity..frontCapacity + dataSize]
    }

    /** duplex_buffer(size): no spare capacity on either side; the bytes are zero. */
    constructor(size: uint32)
      ensures Valid() && fresh(buffer)
      ensures dataSize == size && frontCapacity == 0 && backCapacity == 0
      ensures Contents() == Zeros(size)
    {
      buffer := new uint8[size](_ => 0);
      frontCapacity, backCapacity, dataSize := 0, 0, size;
      new;
      assert buffer[..] == Zeros(size);
    }

    /**
     * duplex_buffer(size, front, back): a backing vector of size + front + back
     * zero bytes, that sum taken in uint32_t. The buffer is consistent exactly
     * when the sum does not wrap.
     */
    constructor WithCapacity(size: uint32, frontCapacity: uint32, backCapacity: uint32)
      ensures fresh(buffer)
      ensures buffer.Length == (size + frontCapacity + backCapacity) % U32_MODULUS
      ensures dataSize == size && this.frontCapacity == frontCapacity && this.backCapacity == backCapacity
      ensures buffer[..] == Zeros(buffer.Length)
      ensures Valid() <==> size + frontCapacity + backCapacity < U32_MODULUS
    {
      buffer := new uint8[(size + frontCapacity + backCapacity) % U32_MODULUS](_ => 0);
      this.frontCapacity, this.backCapacity, dataSize := frontCapacity, backCapacity, size;
    }

    /** The copy constructor: its own copy of the vector, and the same three fields. */
    constructor Copy(other: DuplexBuffer)
      requires other.Valid()
      ensures Valid() && fresh(buffer)
      ensures buffer[..] == other.buffer[..]
      ensures frontCapacity == other.frontCapacity && backCapacity == other.backCapacity
      ensures dataSize == other.dataSize
      ensures Contents() == other.Contents()
    {
      var b := other.buffer;
      buffer := new uint8[b.Length](i requires 0 <= i < b.Length reads b => b[i]);
      frontCapacity, backCapacity, dataSize := other.frontCapacity, other.backCapacity, other.dataSize;
    }

    /** operator=: copy the other buffer, then swap the copy in. */
    method Assign(other: DuplexBuffer)
      requires other.Valid()
      modifies this
      ensures Valid() && fresh(buffer)
      ensures buffer[..] == old(other.buffer[..])
      ensures frontCapacity == old(other.frontCapacity) && backCapacity == old(other.backCapacity)
      ensures dataSize == old(other.dataSize)
    {
      var temp := new DuplexBuffer.Copy(other);
      Swap(temp);
    }

    /** swap: the two buffers exchange their vectors and all three fields. */
    method Swap(other: DuplexBuffer)
      modifies this, other
      ensures buffer == old(other.buffer) && other.buffer == old(buffer)
      ensures frontCapacity == old(other.frontCapacity) && other.frontCapacity == old(frontCapacity)
      ensures backCapacity == old(other.backCapacity) && other.backCapacity == old(backCapacity)
      ensures dataSize == old(other.dataSize) && other.dataSize == old(dataSize)
    {
      var b, f, k, d := buffer, frontCapacity, backCapacity, dataSize;
      buffer, frontCapacity, backCapacity, dataSize :=
        other.buffer, other.frontCapacity, other.backCapacity, other.dataSize;
      other.buffer, other.frontCapacity, other.backCapacity, other.dataSize := b, f, k, d;
    }

    /** data() and front(): a pointer to the first byte of the window. */
    function Data(): (p: Storage.Ptr)
      reads this
      requires Valid()
      ensures p.buf == buffer && p.off + dataSize <= buffer.Length
      ensures Storage.Within(Storage.Storage(p, dataSize))
      ensures Storage.View(Storage.Storage(p, dataSize)) == Contents()
    {
      Storage.Ptr(buffer, frontCapacity)
    }

    /** back(): the pointer just past the window, size() bytes after front(). */
    function Back(): (p: Storage.Ptr)
      reads this
      requires Valid()
      ensures p == Data().Plus(dataSize) && p.off <= buffer.Length
    {
      Data().Plus(dataSize)
    }

    function Size(): (r: uint32)
      reads this
      requires Valid()
      ensures r == |Contents()|
    {
      dataSize
    }

    /**
     * A fresh zeroed vector of front + size + back bytes with the window
     * copied to offset front; the capacities become the given ones.
     */
    method Realloc(front: uint32, back: uint32)
      requires Valid() && front + dataSize + back < U32_MODULUS
      modifies this
      ensures Valid() && fresh(buffer)
      ensures frontCapacity == front && backCapacity == back && dataSize == old(dataSize)
      ensures buffer[..] == Zeros(front) + old(Contents()) + Zeros(back)
    {
      var total := front + dataSize + back;
      var nb := new uint8[total](_ => 0);
      var old_buffer, oldFront := buffer, frontCapacity;
      forall i | 0 <= i < dataSize {
        nb[front + i] := old_buffer[oldFront + i];
      }
      assert nb[..] == Zeros(front) + old(Contents()) + Zeros(back);
      buffer := nb;
      frontCapacity := front;
      backCapacity := back;
    }

    /** shrink_front / subtract_from_front: the window loses its first k bytes. */
    method ShrinkFront(k: uint32)
      requires Valid() && k <= dataSize
      modifies this
      ensures Valid() && buffer == old(buffer)
      ensures frontCapacity == old(frontCapacity) + k && backCapacity == old(backCapacity)
      ensures Contents() == old(Contents())[k..]
    {
      frontCapacity := frontCapacity + k;
      dataSize := dataSize - k;
    }

    /** shrink_back / subtract_from_back: the window loses its last k bytes. */
    method ShrinkBack(k: uint32)
      requires Valid() && k <= dataSize
      modifies this
      ensures Valid() && buffer == old(buffer)
      ensures backCapacity == old(backCapacity) + k && frontCapacity == old(frontCapacity)
      ensures Contents() == old(Contents())[..old(dataSize) - k]
    {
      backCapacity := backCapacity + k;
      dataSize := dataSize - k;
    }

    /**
     * expand_front / add_to_front: the window gains k bytes before it. With
     * too little front capacity the vector is first reallocated with exactly k
     * bytes in front, which then become the zeroed new bytes; otherwise the
     * new bytes are whatever the vector held there.
     */
    method ExpandFront(k: uint32)
      requires Valid() && (k > frontCapacity ==> k + dataSize + backCapacity < U32_MODULUS)
      modifies this
      ensures Valid() && dataSize == old(dataSize) + k && backCapacity == old(backCapacity)
      ensures Contents()[k..] == old(Contents())
      ensures k > old(frontCapacity) ==> fresh(buffer) && frontCapacity == 0 && Contents()[..k] == Zeros(k)
      ensures k <= old(frontCapacity) ==>
        && buffer == old(buffer) && frontCapacity == old(frontCapacity) - k
        && Contents()[..k] == old(buffer[frontCapacity - k..frontCapacity])
    {
      ghost var c0 := Contents();
      if k > frontCapacity {
        Realloc(k, backCapacity);
        ReallocLayout(k, c0, backCapacity);
      }
      GrowIntoFront(k);
    }

    /**
     * expand_back / add_to_back: the window gains k bytes after it, with a
     * reallocation leaving exactly k bytes behind when the back capacity is
     * too small.
     */
    method ExpandBack(k: uint32)
      requires Valid() && (k > backCapacity ==> frontCapacity + dataSize + k < U32_MODULUS)
      modifies this
      ensures Valid() && dataSize == old(dataSize) + k && frontCapacity == old(frontCapacity)
      ensures Contents()[..old(dataSize)] == old(Contents())
      ensures k > old(backCapacity) ==> fresh(buffer) && backCapacity == 0 && Contents()[old(dataSize)..] == Zeros(k)
      ensures k <= old(backCapacity) ==>
        && buffer == old(buffer) && backCapacity == old(backCapacity) - k
        && Contents()[old(dataSize)..] == old(buffer[frontCapacity + dataSize..frontCapacity + dataSize + k])
    {
      ghost var c0 := Contents();
      if k > backCapacity {
        Realloc(frontCapacity, k);
        ReallocLayout(frontCapacity, c0, k);
      }
      GrowIntoBack(k);
    }

    /** The two statements both expand_front branches end with: the front pointer moves k bytes left. */
    method GrowIntoFront(k: uint32)
      requires Valid() && k <= frontCapacity
      modifies this
      ensures Valid() && buffer == old(buffer) && backCapacity == old(backCapacity)
      ensures frontCapacity == old(frontCapacity) - k && dataSize == old(dataSize) + k
      ensures Contents() == old(buffer[frontCapacity - k..frontCapacity]) + old(Contents())
    {
      ghost var s, f := buffer[..], frontCapacity - k;
      frontCapacity := frontCapacity - k;
      dataSize := dataSize + k;
      WindowSplit(s, f, f + k, f + dataSize);
    }

    /** The two statements both expand_back branches end with: the back pointer moves k bytes right. */
    method GrowIntoBack(k: uint32)
      requires Valid() && k <= backCapacity
      modifies this
      ensures Valid() && buffer == old(buffer) && frontCapacity == old(frontCapacity)
      ensures backCapacity == old(backCapacity) - k && dataSize == old(dataSize) + k
      ensures Contents() == old(Contents()) + old(buffer[frontCapacity + dataSize..frontCapacity + dataSize + k])
    {
      ghost var s, f := buffer[..], frontCapacity;
      backCapacity := backCapacity - k;
      dataSize := dataSize + k;
      WindowSplit(s, f, f + old(dataSize), f + dataSize);
    }

    /** resize_front: the window becomes size bytes, trimmed or grown at the front. */
    method ResizeFront(size: uint32)
      requires Valid() && (size > dataSize + frontCapacity ==> size + backCapacity < U32_MODULUS)
      modifies this
      ensures Valid() && dataSize == size && backCapacity == old(backCapacity)
      ensures size <= old(dataSize) ==>
        && buffer == old(buffer) && frontCapacity == old(frontCapacity) + (old(dataSize) - size)
        && Contents() == old(Contents())[old(dataSize) - size..]
      ensures size >= old(dataSize) ==> Contents()[size - old(dataSize)..] == old(Contents())
      ensures old(dataSize) <= size <= old(dataSize) + old(frontCapacity) ==>
        && buffer == old(buffer) && frontCapacity == old(frontCapacity) - (size - old(dataSize))
        && Contents()[..size - old(dataSize)] == old(buffer[frontCapacity - (size - dataSize)..frontCapacity])
      ensures size > old(dataSize) + old(frontCapacity) ==>
        && fresh(buffer) && frontCapacity == 0
        && Contents()[..size - old(dataSize)] == Zeros(size - old(dataSize))
    {
      if size < dataSize {
        ShrinkFront(dataSize - size);
      } else if size > dataSize {
        ExpandFront(size - dataSize);
      }
    }

    /** resize_back: the window becomes size bytes, trimmed or grown at the back. */
    method ResizeBack(size: uint32)
      requires Valid() && (size > dataSize + backCapacity ==> frontCapacity + size < U32_MODULUS)
      modifies this
      ensures Valid() && dataSize == size && frontCapacity == old(frontCapacity)
      ensures size <= old(dataSize) ==>
        && buffer == old(buffer) && backCapacity == old(backCapacity) + (old(dataSize) - size)
        && Contents() == old(Contents())[..size]
      ensures size >= old(dataSize) ==> Contents()[..old(dataSize)] == old(Contents())
      ensures old(dataSize) <= size <= old(dataSize) + old(backCapacity) ==>
        && buffer == old(buffer) && backCapacity == old(backCapacity) - (size - old(dataSize))
        && Contents()[old(dataSize)..] == old(buffer[frontCapacity + dataSize..frontCapacity + size])
      ensures size > old(dataSize) + old(backCapacity) ==>
        && fresh(buffer) && backCapacity == 0
        && Contents()[old(dataSize)..] == Zeros(size - old(dataSize))
    {
      if size < dataSize {
        ShrinkBack(dataSize - size);
      } else if size > dataSize {
        ExpandBack(size - dataSize);
      }
    }

    /**
     * resize(size, min_front, min_back): grow the vector (keeping its bytes)
     * only when it is smaller than min_front + size + min_back, then place the
     * window at min_front and give all remaining space to the back; every sum
     * is a uint32_t one, as ResizeLayout spells out.
     */
    method Resize(size: uint32, minFront: uint32, minBack: uint32)
      requires Valid()
      modifies this
      ensures buffer[..] == Grown(old(buffer[..]), Total32(minFront, size, minBack))
      ensures Layout(buffer.Length, frontCapacity, dataSize, backCapacity)
        == ResizeLayout(old(buffer.Length), size, minFront, minBack)
      ensures minFront + size + minBack < U32_MODULUS ==> Valid()
    {
      var total := Total32(minFront, size, minBack);
      if buffer.Length < total {
        var nb := new uint8[total](_ => 0);
        var ob := buffer;
        forall i | 0 <= i < ob.Length {
          nb[i] := ob[i];
        }
        assert nb[..] == Grown(ob[..], total);
        buffer := nb;
      }
      var extraSpace := buffer.Length - total;
      frontCapacity := minFront;
      dataSize := size;
      backCapacity := (minBack + extraSpace) % U32_MODULUS;
      ResizeFits(old(buffer.Length), size, minFront, minBack);
    }
  }

  /** min_front + size + min_back as the source adds them, in uint32_t. */
  function Total32(minFront: uint32, size: uint32, minBack: uint32): uint32
  {
    (minFront + size + minBack) % U32_MODULUS
  }

  /** A vector size and the three fields laid over it. */
  datatype Layout = Layout(length: nat, front: uint32, data: uint32, back: uint32) {
    /** The fields exactly fill the vector, as Valid() demands. */
    predicate Consistent()
    {
      front + data + back == length
    }
  }

  /** The vector size and fields resize() leaves on a vector of `length` bytes. */
  function ResizeLayout(length: nat, size: uint32, minFront: uint32, minBack: uint32): Layout
    requires length < U32_MODULUS
  {
    var total := Total32(minFront, size, minBack);
    var newLength := if length < total then total else length;
    Layout(newLength, minFront, size, (minBack + (newLength - total)) % U32_MODULUS)
  }

  /**
   * Without wrap-around resize() is what it promises: the vector becomes the
   * larger of its old size and min_front + size + min_back, the fields fill
   * it, and the back capacity is min_back plus the space left over.
   */
  lemma ResizeFits(length: nat, size: uint32, minFront: uint32, minBack: uint32)
    requires length < U32_MODULUS
    ensures var l := ResizeLayout(length, size, minFront, minBack);
      minFront + size + minBack < U32_MODULUS ==>
        && l.Consistent()
        && l.length == (if length < minFront + size + minBack then minFront + size + minBack else length)
        && l.back == minBack + (l.length - (minFront + size + minBack))
  {
    var l := ResizeLayout(length, size, minFront, minBack);
    if minFront + size + minBack < U32_MODULUS {
      ModBelow(minFront + size + minBack, U32_MODULUS);
      assert l.length < U32_MODULUS;
      ModBelow(minBack + (l.length - (minFront + size + minBack)), U32_MODULUS);
    }
  }

  /**
   * When the sum wraps, resize() can leave fields that no longer fill the
   * vector: resize(0xFFFFFFFF, 1, 0) on a 10-byte vector adds up to 0, does
   * not grow, and records a front of 1, a size of 0xFFFFFFFF and a back of 10.
   */
  lemma ResizeWrapBreaksLayout()
    ensures ResizeLayout(10, 0xFFFF_FFFF, 1, 0) == Layout(10, 1, 0xFFFF_FFFF, 10)
    ensures !ResizeLayout(10, 0xFFFF_FFFF, 1, 0).Consistent()
  {
  }

  /** A reallocated vector: the new zero bytes on either side of the old window. */
  lemma ReallocLayout(front: nat, c: seq<uint8>, back: nat)
    ensures var s := Zeros(front) + c + Zeros(back);
      && s[0..front] == Zeros(front)
      && s[front..front + |c|] == c
      && s[front + |c|..front + |c| + back] == Zeros(back)
  {
  }

  /** A window [lo, hi) split at mid. */
  lemma WindowSplit(s: seq<uint8>, lo: nat, mid: nat, hi: nat)
    requires lo <= mid <= hi <= |s|
    ensures s[lo..hi][..mid - lo] == s[lo..mid] && s[lo..hi][mid - lo..] == s[mid..hi]
  {
  }
}
