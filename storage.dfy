/**
 * Storage views: mutable_storage and const_storage pair a byte pointer with a
 * size. They do not own memory; the helpers offset, split, zero, copy and
 * compare the bytes they point at. Both structs have the same two fields, so
 * one datatype serves for both; the mutable one additionally promises a
 * non-null pointer and a positive size when built by its constructor.
 */
module Storage {
  import opened Bytes
  import opened Ceiling

  /** A raw byte pointer: an array (null for none) and an offset into it. */
  datatype Ptr = Ptr(buf: array?<uint8>, off: nat) {
    predicate IsNull()
    {
      buf == null && off == 0
    }

    /** Pointer arithmetic: k bytes further on. */
    function Plus(k: nat): Ptr
    {
      Ptr(buf, off + k)
    }
  }

  const NULL: Ptr := Ptr(null, 0)

  /** m_data and m_size of mutable_storage / const_storage. */
  datatype Storage = Storage(data: Ptr, size: uint32)

  /** The view lies inside its array (and a null view is empty). */
  predicate Within(s: Storage)
  {
    && (s.data.buf == null ==> s.size == 0)
    && (s.data.buf != null ==> s.data.off + s.size <= s.data.buf.Length)
  }

  /** The bytes the view covers. */
  function View(s: Storage): (r: seq<uint8>)
    requires Within(s)
    reads s.data.buf
    ensures |r| == s.size
  {
    if s.data.buf == null then [] else s.data.buf[s.data.off..s.data.off + s.size]
  }

  /** The default constructors of both structs. */
  function EmptyStorage(): (s: Storage)
    ensures s.data.IsNull() && s.size == 0 && Within(s)
  {
    Storage(NULL, 0)
  }

  /** What mutable_storage's asserting constructor guarantees of its fields. */
  predicate IsMutable(s: Storage)
  {
    !s.data.IsNull() && s.size > 0
  }

  /** mutable_storage(data, size): both must be non-zero. */
  function MakeMutable(data: Ptr, size: uint32): (s: Storage)
    requires !data.IsNull() && size > 0
    ensures IsMutable(s) && s.data == data && s.size == size
  {
    Storage(data, size)
  }

  /** const_storage(data, size): no checks. */
  function MakeConst(data: Ptr, size: uint32): (s: Storage)
    ensures s.data == data && s.size == size
  {
    Storage(data, size)
  }

  /**
   * operator+ of const_storage, and the new value operator+= gives either
   * struct: the view k bytes further on, k bytes shorter.
   */
  function Offset(s: Storage, k: uint32): (r: Storage)
    requires k <= s.size
    ensures r.data.buf == s.data.buf && r.size == s.size - k
    ensures r.data.off + r.size == s.data.off + s.size
  {
    Storage(s.data.Plus(k), s.size - k)
  }

  /**
   * operator+ of mutable_storage builds the result with the asserting
   * constructor, so the remaining view must be non-empty and non-null.
   */
  function MutableOffset(s: Storage, k: uint32): (r: Storage)
    requires k <= s.size
    requires !s.data.Plus(k).IsNull() && s.size - k > 0
    ensures IsMutable(r) && r == Offset(s, k)
  {
    MakeMutable(s.data.Plus(k), s.size - k)
  }

  /** An offset view covers the tail of the original view. */
  lemma OffsetView(s: Storage, k: uint32)
    requires Within(s) && k <= s.size
    ensures Within(Offset(s, k))
    ensures View(Offset(s, k)) == View(s)[k..]
  {
  }

  /** Offsetting twice is offsetting by the sum. */
  lemma OffsetTwice(s: Storage, a: uint32, b: uint32)
    requires a <= s.size && b <= s.size - a
    ensures Offset(Offset(s, a), b) == Offset(s, a + b)
  {
  }

  // ---- split_storage ----

  /**
   * The chunks split_storage cuts s into: split bytes each, the last possibly
   * shorter. A split of 0 is accepted on an empty storage only; on any other
   * the source's loop never ends.
   */
  function Split(s: Storage, split: uint32): seq<Storage>
    requires split > 0 || s.size == 0
    decreases s.size
  {
    if s.size == 0 then []
    else
      var n := if s.size < split then s.size else split;
      [Storage(s.data, n)] + Split(Storage(s.data.Plus(n), s.size - n), split)
  }

  method SplitStorage(storage: Storage, split: uint32) returns (sequence: seq<Storage>)
    requires split > 0 || storage.size == 0
    ensures sequence == Split(storage, split)
  {
    var remaining: uint32 := storage.size;
    var offset := storage.data;
    sequence := [];
    while remaining > 0
      invariant split > 0 || remaining == 0
      invariant sequence + Split(Storage(offset, remaining), split) == Split(storage, split)
      decreases remaining
    {
      var nextSize := if remaining < split then remaining else split;
      ghost var rest := Split(Storage(offset.Plus(nextSize), remaining - nextSize), split);
      assert Split(Storage(offset, remaining), split) == [Storage(offset, nextSize)] + rest;
      sequence := sequence + [Storage(offset, nextSize)];
      offset := offset.Plus(nextSize);
      remaining := remaining - nextSize;
    }
  }

  /** The sum of the sizes, without wrap-around. */
  function TotalSize(ss: seq<Storage>): nat
  {
    if ss == [] then 0 else TotalSize(ss[..|ss| - 1]) + ss[|ss| - 1].size
  }

  lemma {:induction false} TotalSizeCons(x: Storage, ss: seq<Storage>)
    ensures TotalSize([x] + ss) == x.size + TotalSize(ss)
    decreases |ss|
  {
    if ss != [] {
      assert ([x] + ss)[..|ss|] == [x] + ss[..|ss| - 1];
      TotalSizeCons(x, ss[..|ss| - 1]);
    }
  }

  /**
   * The chunks tile s: the first starts at s, each starts where the previous
   * ends, all but the last hold split bytes, the last holds 1 to split bytes,
   * and together they hold exactly s.size bytes.
   */
  lemma {:induction false} SplitTiles(s: Storage, split: uint32)
    requires split > 0
    ensures var r := Split(s, split);
      && (r == [] <==> s.size == 0)
      && (r != [] ==> r[0].data == s.data)
      && (forall i :: 0 < i < |r| ==> r[i].data == r[i - 1].data.Plus(r[i - 1].size))
      && (forall i :: 0 <= i < |r| - 1 ==> r[i].size == split)
      && (r != [] ==> 0 < r[|r| - 1].size <= split)
      && TotalSize(r) == s.size
    decreases s.size
  {
    if s.size > 0 {
      var n := if s.size < split then s.size else split;
      var t := Storage(s.data.Plus(n), s.size - n);
      SplitTiles(t, split);
      var r := Split(s, split);
      var rest := Split(t, split);
      assert r == [Storage(s.data, n)] + rest;
      TotalSizeCons(Storage(s.data, n), rest);
      forall i | 0 < i < |r|
        ensures r[i].data == r[i - 1].data.Plus(r[i - 1].size)
      {
        if i > 1 {
          assert r[i] == rest[i - 1] && r[i - 1] == rest[i - 2];
        }
      }
      forall i | 0 <= i < |r| - 1
        ensures r[i].size == split
      {
        if i > 0 {
          assert r[i] == rest[i - 1];
        }
      }
    }
  }

  /** The chunk count is the size over split, rounded up. */
  lemma {:induction false} SplitCount(s: Storage, split: uint32)
    requires split > 0
    ensures |Split(s, split)| == CeilDivision(s.size, split)
  {
    SplitCountBounds(s, split);
    CeilUnique(s.size, split, |Split(s, split)|);
  }

  lemma {:induction false} SplitCountBounds(s: Storage, split: uint32)
    requires split > 0
    ensures |Split(s, split)| * split >= s.size
    ensures (|Split(s, split)| - 1) * split < s.size || s.size == 0
    decreases s.size
  {
    if s.size > 0 {
      var n := if s.size < split then s.size else split;
      var t := Storage(s.data.Plus(n), s.size - n);
      SplitCountBounds(t, split);
      var k := |Split(t, split)|;
      assert |Split(s, split)| == k + 1;
      MulSucc(k, split);
      if t.size == 0 {
        assert k == 0;
      } else {
        assert n == split && k > 0;
        MulSucc(k - 1, split);
      }
    }
  }

  lemma MulSucc(k: nat, m: nat)
    ensures (k + 1) * m == k * m + m
  {
  }

  // ---- storage_size ----

  /** storage_size: the sizes added up in uint32_t arithmetic. */
  method StorageSize(storages: seq<Storage>) returns (size: uint32)
    ensures size == TotalSize(storages) % U32_MODULUS
  {
    size := 0;
    var i := 0;
    while i < |storages|
      invariant 0 <= i <= |storages|
      invariant size == TotalSize(storages[..i]) % U32_MODULUS
    {
      assert storages[..i + 1][..i] == storages[..i];
      ModAdd(TotalSize(storages[..i]), storages[i].size);
      size := (size + storages[i].size) % U32_MODULUS;
      i := i + 1;
    }
    assert storages[..i] == storages;
  }

  lemma ModAdd(a: nat, b: nat)
    ensures (a % U32_MODULUS + b) % U32_MODULUS == (a + b) % U32_MODULUS
  {
    var q := a / U32_MODULUS;
    assert a == q * U32_MODULUS + a % U32_MODULUS;
    var m := a % U32_MODULUS + b;
    var q2 := m / U32_MODULUS;
    assert m == q2 * U32_MODULUS + m % U32_MODULUS;
    assert a + b == (q + q2) * U32_MODULUS + m % U32_MODULUS;
    DivModUnique(a + b, U32_MODULUS, q + q2, m % U32_MODULUS);
  }

  /** storage_size of split_storage(s, n) is s's size. */
  lemma SplitSizeSum(s: Storage, split: uint32)
    requires split > 0
    ensures TotalSize(Split(s, split)) % U32_MODULUS == s.size
  {
    SplitTiles(s, split);
  }

  // ---- zero_storage and copy_storage ----

  /** zero_storage: every byte of the view becomes 0; nothing else changes. */
  method ZeroStorage(storage: Storage)
    requires Within(storage)
    modifies storage.data.buf
    ensures storage.data.buf != null ==>
      storage.data.buf[..] == Splice(old(storage.data.buf[..]), storage.data.off, Zeros(storage.size))
  {
    if storage.data.buf == null {
      return;
    }
    var a, off := storage.data.buf, storage.data.off;
    var i: nat := 0;
    while i < storage.size
      invariant i <= storage.size
      invariant forall j :: 0 <= j < a.Length && !(off <= j < off + i) ==> a[j] == old(a[j])
      invariant forall j :: off <= j < off + i ==> a[j] == 0
    {
      a[off + i] := 0;
      i := i + 1;
    }
    SpliceExt(a[..], old(a[..]), off, Zeros(storage.size));
  }

  /**
   * std::copy's requirement: the destination does not start strictly inside
   * the source range (a start at the same address is handled before copying).
   */
  predicate CopyAllowed(dest: Storage, src: Storage)
  {
    dest.data == src.data || dest.data.buf != src.data.buf
      || !(src.data.off <= dest.data.off < src.data.off + src.size)
  }

  /**
   * copy_storage: dest's first src.size bytes become src's bytes and the rest
   * of memory is unchanged; when both point at the same address nothing is done.
   */
  method CopyStorage(dest: Storage, src: Storage)
    requires dest.size > 0 && dest.size >= src.size
    requires !dest.data.IsNull() && !src.data.IsNull()
    requires Within(dest) && Within(src) && CopyAllowed(dest, src)
    modifies dest.data.buf
    ensures dest.data.buf[..] == Splice(old(dest.data.buf[..]), dest.data.off, old(View(src)))
  {
    var a, off := dest.data.buf, dest.data.off;
    if dest.data == src.data {
      assert View(src) == a[off..off + src.size];
      SpliceExt(a[..], a[..], off, View(src));
      return;
    }
    if src.size == 0 {
      assert View(src) == [];
      SpliceExt(a[..], a[..], off, []);
      return;
    }
    var b, soff := src.data.buf, src.data.off;
    ghost var source := View(src);
    var i: nat := 0;
    while i < src.size
      invariant i <= src.size
      invariant forall j :: 0 <= j < a.Length && !(off <= j < off + i) ==> a[j] == old(a[j])
      invariant forall j :: off <= j < off + i ==> a[j] == source[j - off]
      invariant forall j :: i <= j < src.size ==> b[soff + j] == source[j]
    {
      a[off + i] := b[soff + i];
      i := i + 1;
    }
    SpliceExt(a[..], old(a[..]), off, source);
  }

  // ---- is_same and is_equal ----

  /** is_same: the two views are the same pointer with the same size. */
  function IsSame(a: Storage, b: Storage): (r: bool)
    ensures r <==> a == b
  {
    if a.size != b.size then false else a.data == b.data
  }

  /**
   * is_equal: false for different sizes, true at once for the same pointer,
   * otherwise a byte-by-byte comparison. Either way, true exactly when the
   * two views hold the same bytes.
   */
  function IsEqual(a: Storage, b: Storage): (r: bool)
    requires Within(a) && Within(b)
    reads a.data.buf, b.data.buf
    ensures r <==> View(a) == View(b)
    ensures IsSame(a, b) ==> r
  {
    if a.size != b.size then
      assert |View(a)| != |View(b)|;
      false
    else if a.data == b.data then true
    else View(a) == View(b)
  }
}
