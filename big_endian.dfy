/**
 * big_endian: inserts and extracts integers of width 8, 16, 32 and 64 bits in
 * network byte order, by delegating to convert_endian<Swap> with
 * Swap = (host is not big-endian). The host's byte order is a parameter.
 *
 * As written, a big-endian host selects convert_endian<false>, whose code
 * stores the least significant byte first; the operations below model that
 * behaviour, and PutNetwork/GetNetwork give the corrected, host-independent
 * network order that the streams and buffers of this project use.
 */
module BigEndian {
  import opened Bytes
  import opened ConvertEndian

  datatype Host = LittleEndianHost | BigEndianHost

  /** The bytes big_endian stores for v on the given host, as written. */
  function Layout(host: Host, v: nat, n: nat): (r: seq<uint8>)
    ensures |r| == n
    ensures host == LittleEndianHost ==> r == BE(v, n)
  {
    if host == LittleEndianHost then BE(v, n) else LE(v, n)
  }

  /** The number big_endian reads back from bytes s on the given host, as written. */
  function Decoded(host: Host, s: seq<uint8>): nat
  {
    if host == LittleEndianHost then FromBE(s) else FromLE(s)
  }

  method Put8(v: uint8, b: array<uint8>, off: nat)
    requires off < b.Length
    modifies b
    ensures b[..] == Splice(old(b[..]), off, BE(v, 1))
  {
    b[off] := v;
    assert BE(v, 1) == [v];
    SpliceExt(b[..], old(b[..]), off, [v]);
  }

  function Get8(s: seq<uint8>): (r: uint8)
    requires |s| >= 1
    ensures r == FromBE(s[..1])
  {
    assert s[..1][..0] == [];
    s[0]
  }

  method Put16(host: Host, v: uint16, b: array<uint8>, off: nat)
    requires off + 2 <= b.Length
    modifies b
    ensures b[..] == Splice(old(b[..]), off, Layout(host, v, 2))
  {
    if host == LittleEndianHost {
      SwapPut16(v, b, off);
    } else {
      PlainPut16(v, b, off);
    }
  }

  function Get16(host: Host, s: seq<uint8>): (r: uint16)
    requires |s| >= 2
    ensures r == Decoded(host, s[..2])
  {
    if host == LittleEndianHost then SwapGet16(s) else PlainGet16(s)
  }

  method Put32(host: Host, v: uint32, b: array<uint8>, off: nat)
    requires off + 4 <= b.Length
    modifies b
    ensures b[..] == Splice(old(b[..]), off, Layout(host, v, 4))
  {
    if host == LittleEndianHost {
      SwapPut32(v, b, off);
    } else {
      PlainPut32(v, b, off);
    }
  }

  function Get32(host: Host, s: seq<uint8>): (r: uint32)
    requires |s| >= 4
    ensures r == Decoded(host, s[..4])
  {
    if host == LittleEndianHost then SwapGet32(s) else PlainGet32(s)
  }

  method Put64(host: Host, v: uint64, b: array<uint8>, off: nat)
    requires off + 8 <= b.Length
    modifies b
    ensures b[..] == Splice(old(b[..]), off, Layout(host, v, 8))
  {
    if host == LittleEndianHost {
      SwapPut64(v, b, off);
    } else {
      PlainPut64(v, b, off);
    }
  }

  function Get64(host: Host, s: seq<uint8>): (r: uint64)
    requires |s| >= 8
    ensures r == Decoded(host, s[..8])
  {
    if host == LittleEndianHost then SwapGet64(s) else PlainGet64(s)
  }

  /** The templated put<ValueType>: the width selects put8 .. put64. */
  method Put(w: Width, host: Host, v: nat, b: array<uint8>, off: nat)
    requires Fits(v, w) && off + w.Size() <= b.Length
    modifies b
    ensures b[..] == Splice(old(b[..]), off, if w == W8 then BE(v, 1) else Layout(host, v, w.Size()))
  {
    Pow256Values();
    match w
    case W8 => Put8(v, b, off);
    case W16 => Put16(host, v, b, off);
    case W32 => Put32(host, v, b, off);
    case W64 => Put64(host, v, b, off);
  }

  /** The templated get<ValueType>: the width selects get8 .. get64. */
  function Get(w: Width, host: Host, s: seq<uint8>): (r: nat)
    requires w.Size() <= |s|
    ensures Fits(r, w)
    ensures r == if w == W8 then FromBE(s[..1]) else Decoded(host, s[..w.Size()])
  {
    Pow256Values();
    match w
    case W8 => Get8(s)
    case W16 => Get16(host, s)
    case W32 => Get32(host, s)
    case W64 => Get64(host, s)
  }

  /** On either host, get<T> reads back what put<T> stored. */
  lemma PutGetRoundTrip(w: Width, host: Host, v: nat)
    requires Fits(v, w)
    ensures Get(w, host, if w == W8 then BE(v, 1) else Layout(host, v, w.Size())) == v
  {
    var s := if w == W8 then BE(v, 1) else Layout(host, v, w.Size());
    assert s[..w.Size()] == s;
    if w == W8 || host == LittleEndianHost {
      RoundTripBE(v, w);
    } else {
      RoundTripLE(v, w);
    }
  }

  /** On a little-endian host, put<T> stores the network-order bytes. */
  lemma LittleHostIsNetworkOrder(w: Width, v: nat)
    ensures (if w == W8 then BE(v, 1) else Layout(LittleEndianHost, v, w.Size())) == BE(v, w.Size())
  {
  }

  /**
   * On a big-endian host, put16(0x1122) stores 0x22 first: the bytes are
   * least significant first, the reverse of the network order the type promises.
   */
  lemma BigHostIsNotNetworkOrder()
    ensures Layout(BigEndianHost, 0x1122, 2) == [0x22, 0x11]
    ensures BE(0x1122, 2) == [0x11, 0x22]
  {
    LEBytes(0x1122);
    BEBytes(0x1122);
  }

  /** Bytes written on a big-endian host and read on a little-endian one come back reversed. */
  lemma BigHostBytesMisreadElsewhere()
    ensures Get(W16, LittleEndianHost, Layout(BigEndianHost, 0x1122, 2)) == 0x2211
  {
    BigHostIsNotNetworkOrder();
    FromBEStep([0x22, 0x11], 1);
    FromBEStep([0x22, 0x11], 2);
    assert [0x22, 0x11][..1][..0] == [];
  }

  // ---- corrected: network order on every host ----

  /** put<T> as intended: most significant byte first, whatever the host. */
  method PutNetwork(w: Width, v: nat, b: array<uint8>, off: nat)
    requires Fits(v, w) && off + w.Size() <= b.Length
    modifies b
    ensures b[..] == Splice(old(b[..]), off, BE(v, w.Size()))
  {
    Put(w, LittleEndianHost, v, b, off);
  }

  /** get<T> as intended: reads most significant byte first, whatever the host. */
  function GetNetwork(w: Width, s: seq<uint8>): (r: nat)
    requires w.Size() <= |s|
    ensures Fits(r, w)
    ensures r == FromBE(s[..w.Size()])
  {
    Get(w, LittleEndianHost, s)
  }

  /** The corrected get reads back what the corrected put stored. */
  lemma NetworkRoundTrip(w: Width, v: nat)
    requires Fits(v, w)
    ensures GetNetwork(w, BE(v, w.Size())) == v
  {
    assert BE(v, w.Size())[..w.Size()] == BE(v, w.Size());
    RoundTripBE(v, w);
  }

  /** The corrected get decodes any bytes into the value whose encoding they are. */
  lemma NetworkDecodeEncode(w: Width, s: seq<uint8>)
    requires |s| == w.Size()
    ensures BE(GetNetwork(w, s), w.Size()) == s
  {
    assert s[..w.Size()] == s;
    BEOfFromBE(s);
  }
}
