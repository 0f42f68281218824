/**
 * endian_stream (source-file version): a cursor over a caller-owned buffer of
 * fixed size, built from a pointer and a size or from a mutable_storage. The
 * reads and writes of this version are declared in a header that is not part
 * of this model; its constructors, size, position and seek are.
 */
module FixedEndianStream {
  import opened Bytes
  import opened Storage

  class FixedEndianStream {
    const buffer: Ptr
    const size: uint32
    var position: uint32

    /** The cursor never passes the end of the buffer. */
    ghost predicate Valid()
      reads this
    {
      !buffer.IsNull() && 0 < size && position <= size
    }

    /** endian_stream(buffer, size): non-null buffer, non-zero size, position 0. */
    constructor(buffer: Ptr, size: uint32)
      requires !buffer.IsNull() && size != 0
      ensures Valid()
      ensures this.buffer == buffer && this.size == size && position == 0
    {
      this.buffer := buffer;
      this.size := size;
      position := 0;
    }

    /** endian_stream(storage): the storage's pointer and size, position 0. */
    constructor FromStorage(storage: Storage)
      requires !storage.data.IsNull() && storage.size != 0
      ensures Valid()
      ensures buffer == storage.data && size == storage.size && position == 0
    {
      buffer := storage.data;
      size := storage.size;
      position := 0;
    }

    function Size(): (r: uint32)
      ensures r == size
    {
      size
    }

    function Position(): (r: uint32)
      reads this
      requires Valid()
      ensures r == position && r <= Size()
    {
      position
    }

    /** seek: any position up to and including the end. */
    method Seek(newPosition: uint32)
      requires Valid() && newPosition <= size
      modifies this
      ensures Valid() && position == newPosition
    {
      position := newPosition;
    }
  }
}
