# sak in Dafny

A model of the core of sak, Steinwurf's small C++ utility library, and of the
argument lists built by its CI driver `buildbot.py`. It covers:

- **The byte-order codec.** `convert_endian<true/false>` and `big_endian` insert
  and extract 8, 16, 32 and 64-bit integers. `Bytes.BE`/`Bytes.LE` are the
  reference encodings that the codec, the streams and the buffers are proved
  against.
- **The cursors built on the codec.**
  - The growable `endian_stream` of the header.
  - The fixed-size `endian_stream` of the source file.
  - The LIFO `endian_buffer`.
  - The append-only `buffer`.
  - The two finite input streams, `buffer_input_stream` and `random_input_stream`.
  - `random_buffer`, which embeds a seed and verifies the bytes against it.
- **Memory.**
  - `mutable_storage`/`const_storage` views and their helpers (offset, split,
    size, zero, copy, compare).
  - `duplex_buffer`, a data window with spare capacity at both ends.
  - `aligned_allocator`.
  - `resource_pool`, a LIFO free list.
- **Type identity and lookup.**
  - `object_id` parent chains, with `are_related` and `operator<`.
  - Object aggregation (`object::set_object`/`get_object`).
  - The two factory registries: `object_registry` with categories, and
    `factory_registry`.
- **Arithmetic helpers.** `ceil_division` and `is_aligned`.
- **buildbot.py.** `get_tool_options`, `configure`, `build`, `run_tests`,
  `install` and the dispatch in `main`, as pure functions from the build
  properties to the argument list.

There is one module per source component. Pointers are (array, offset)
pairs. Objects the C++ code updates in place are classes: the streams,
buffers, pool, registries and ids. Parent chains are the sequences of ids met
when following the parent pointers.

## Model

| member | source | states |
|---|---|---|
| Bytes.RoundTripBE | src/sak/convert_endian.hpp:57-92 | reading back the most-significant-first bytes of any value of a width gives the value |
| Bytes.RoundTripLE | src/sak/convert_endian.hpp:98-133 | reading back the least-significant-first bytes of any value of a width gives the value |
| Bytes.LEIsReversedBE | src/sak/convert_endian.hpp:98-115 | the little-endian layout is the big-endian layout reversed, byte by byte |
| Bytes.FromBEOfBE | src/sak/convert_endian.hpp:76-92 | decoding the big-endian bytes of v gives v mod 256^n |
| Bytes.BEOfFromBE | src/sak/convert_endian.hpp:57-74 | encoding the decoded value of n bytes gives those n bytes back (big-endian encoding is a bijection) |
| ConvertEndian.BEBytes | src/sak/convert_endian.hpp:62-66 | the big-endian bytes of v are v>>24, v>>16, v>>8, v (and the 16- and 64-bit analogues), each truncated to a byte |
| ConvertEndian.LEBytes | src/sak/convert_endian.hpp:103-107 | the little-endian bytes of v are v, v>>8, v>>16, v>>24 (and the 16- and 64-bit analogues) |
| ConvertEndian.SwapPut16 | src/sak/convert_endian.hpp:57-60 | put16 writes the two big-endian bytes at b and changes no other byte of the array |
| ConvertEndian.SwapPut32 | src/sak/convert_endian.hpp:62-66 | put32 writes the four big-endian bytes at b and changes nothing else |
| ConvertEndian.SwapPut64 | src/sak/convert_endian.hpp:68-74 | put64 writes the eight big-endian bytes at b, most significant at b[0], and changes nothing else |
| ConvertEndian.SwapGet16 | src/sak/convert_endian.hpp:76-79 | get16 is the big-endian value of the first two bytes |
| ConvertEndian.SwapGet32 | src/sak/convert_endian.hpp:81-84 | get32 is the big-endian value of the first four bytes |
| ConvertEndian.SwapGet64 | src/sak/convert_endian.hpp:86-92 | get64 is the big-endian value of the first eight bytes |
| ConvertEndian.PlainPut16 | src/sak/convert_endian.hpp:98-101 | convert_endian<false>::put16 writes the little-endian bytes (least significant at b[0]) and nothing else |
| ConvertEndian.PlainPut32 | src/sak/convert_endian.hpp:103-107 | put32 of convert_endian<false> writes the four little-endian bytes and nothing else |
| ConvertEndian.PlainPut64 | src/sak/convert_endian.hpp:109-115 | put64 of convert_endian<false> writes the eight little-endian bytes and nothing else |
| ConvertEndian.PlainGet16 | src/sak/convert_endian.hpp:117-120 | get16 of convert_endian<false> is the little-endian value of two bytes |
| ConvertEndian.PlainGet32 | src/sak/convert_endian.hpp:122-125 | get32 of convert_endian<false> is the little-endian value of four bytes |
| ConvertEndian.PlainGet64 | src/sak/convert_endian.hpp:127-133 | get64 of convert_endian<false> is the little-endian value of eight bytes |
| BigEndian.Layout | src/sak/convert_endian.hpp:144 | the bytes big_endian lays out for a host: network order on a little-endian host |
| BigEndian.Put8 | src/sak/convert_endian.hpp:160-164 | put8 stores the byte unchanged at b and nothing else |
| BigEndian.Get8 | src/sak/convert_endian.hpp:150-154 | get8 returns the byte unchanged |
| BigEndian.Put16 | src/sak/convert_endian.hpp:177-181 | put16 writes the host's layout of the value at b and nothing else |
| BigEndian.Get16 | src/sak/convert_endian.hpp:169-173 | get16 decodes two bytes with the host's layout |
| BigEndian.Put32 | src/sak/convert_endian.hpp:194-198 | put32 writes the host's four-byte layout and nothing else |
| BigEndian.Get32 | src/sak/convert_endian.hpp:186-190 | get32 decodes four bytes with the host's layout |
| BigEndian.Put64 | src/sak/convert_endian.hpp:211-215 | put64 writes the host's eight-byte layout and nothing else |
| BigEndian.Get64 | src/sak/convert_endian.hpp:203-207 | get64 decodes eight bytes with the host's layout |
| BigEndian.Put | src/sak/convert_endian.hpp:228-250 | put<T> dispatches on the width: one plain byte for 8 bits, the host layout otherwise |
| BigEndian.Get | src/sak/convert_endian.hpp:252-274 | get<T> dispatches on the width, and its result fits the width |
| BigEndian.PutGetRoundTrip | src/sak/convert_endian.hpp:228-274 | on either host, get<T> of what put<T>(v) wrote is v for every width |
| BigEndian.LittleHostIsNetworkOrder | src/sak/convert_endian.hpp:144 | on a little-endian host, put<T> writes the big-endian (network) bytes |
| BigEndian.BigHostIsNotNetworkOrder | src/sak/convert_endian.hpp:144 | on a big-endian host put16(0x1122) writes [0x22, 0x11], not network order [0x11, 0x22] |
| BigEndian.BigHostBytesMisreadElsewhere | src/sak/convert_endian.hpp:144 | those bytes decode as 0x2211 on a little-endian host |
| BigEndian.PutNetwork | src/sak/convert_endian.hpp:228-250 | corrected put<T>: writes the big-endian bytes whatever the host, and nothing else |
| BigEndian.GetNetwork | src/sak/convert_endian.hpp:252-274 | corrected get<T>: the big-endian value of the first width bytes |
| BigEndian.NetworkRoundTrip | src/sak/convert_endian.hpp:228-274 | GetNetwork inverts PutNetwork for every value of the width |
| BigEndian.NetworkDecodeEncode | src/sak/convert_endian.hpp:228-274 | PutNetwork inverts GetNetwork for every byte string of the width |
| EndianStream.EndianStream.constructor | src/sak/endian_stream.hpp:52 | the stream shares the caller's vector and starts at the given offset |
| EndianStream.EndianStream.Position | src/sak/endian_stream.hpp:163 | position() is the cursor |
| EndianStream.EndianStream.Write | src/sak/endian_stream.hpp:56-66 | write<T> grows the vector when short, stores the big-endian bytes at the old position and advances by sizeof(T) |
| EndianStream.EndianStream.WriteVector | src/sak/endian_stream.hpp:89-101 | write_vector stores the bytes at the position and advances by their count; empty input changes nothing |
| EndianStream.EndianStream.WriteString | src/sak/endian_stream.hpp:75-87 | write_string stores the characters at the position and advances; empty input changes nothing |
| EndianStream.EndianStream.WriteStringPrefixed | src/sak/endian_stream.hpp:68-73 | write_string<L> writes the length as an L (truncated to L's width) and then the characters |
| EndianStream.EndianStream.Read | src/sak/endian_stream.hpp:107-118 | read<T> fails, leaving value and position, when fewer than sizeof(T) bytes remain; otherwise it returns their big-endian value and advances |
| EndianStream.EndianStream.ReadVector | src/sak/endian_stream.hpp:144-158 | read_vector succeeds with no change for 0 bytes, fails without moving when short, else returns the bytes and advances |
| EndianStream.EndianStream.ReadString | src/sak/endian_stream.hpp:128-142 | read_string behaves as read_vector: 0 bytes is a no-op success, a short vector a failure without moving |
| EndianStream.EndianStream.ReadStringPrefixed | src/sak/endian_stream.hpp:120-126 | read_string<L> reads the length, failing if short, then reads that many characters |
| EndianStream.WriteAtKeeps | src/sak/endian_stream.hpp:60-63 | a write never shrinks the vector, makes it long enough for the written bytes, and changes no byte outside them |
| EndianStream.WindowOfWriteAt | src/sak/endian_stream.hpp:144-158 | reading at the position of a write yields the bytes written |
| EndianStream.ReadAfterWrite | src/sak/endian_stream.hpp:107-118 | read<T> at the position where write<T>(v) started returns v |
| EndianStream.WriteAllKeeps | src/sak/endian_stream.hpp:56-66 | a series of writes leaves the bytes before the starting position unchanged |
| EndianStream.HeadSurvives | src/sak/endian_stream.hpp:56-66 | later writes do not disturb an earlier block |
| EndianStream.FirstInFirstOut | test/src/test_endian_stream.cpp:152-225 | blocks written in sequence read back in the same order, each intact |
| EndianStream.PrefixedRoundTrip | test/src/test_endian_stream.cpp:307-354 | a string whose length fits L reads back from its length-prefixed record |
| EndianStream.PrefixedTruncates | src/sak/endian_stream.hpp:68-73 | a 256-character string written with a uint8_t prefix records length 0 |
| EndianStream.WriteAsWrittenWithoutWrap | src/sak/endian_stream.hpp:75-101 | while position + size() stays below 2^32, write_string/write_vector as written give exactly the model's write |
| EndianStream.ReadAsWrittenWithoutWrap | src/sak/endian_stream.hpp:128-158 | while position + bytes stays below 2^32, read_string/read_vector as written refuse and copy exactly as the model's read |
| EndianStream.ReadCheckWraps | src/sak/endian_stream.hpp:144-158 | on a vector shorter than 2^32, the check as written lets a read copy past the end exactly when position + bytes wraps to at most the size |
| EndianStream.ReadStringWrapPassesCheck | src/sak/endian_stream.hpp:120-142 | a 10-byte vector holding the uint32_t length 0xFFFFFFFF: read_string<uint32_t>'s body read passes the check and overruns, where the model refuses |
| EndianStream.WriteWrapOverruns | src/sak/endian_stream.hpp:91-100 | write_vector of 0xFFFFFFFF bytes at position 4 of 10 bytes skips the resize and writes past the end |
| EndianStream.WriteCountTruncates | src/sak/endian_stream.hpp:91 | a value of 2^32 + 1 bytes is written as its first byte only |
| FixedEndianStream.FixedEndianStream.constructor | src/sak/endian_stream.cpp:31-36 | a non-null buffer of non-zero size; position 0 |
| FixedEndianStream.FixedEndianStream.FromStorage | src/sak/endian_stream.cpp:38-43 | the storage's pointer and size; position 0 |
| FixedEndianStream.FixedEndianStream.Size | src/sak/endian_stream.cpp:45-48 | size() is the constructor's size |
| FixedEndianStream.FixedEndianStream.Position | src/sak/endian_stream.cpp:50-53 | position() is the cursor, never past size() |
| FixedEndianStream.FixedEndianStream.Seek | src/sak/endian_stream.cpp:55-59 | seek(p) requires p <= size and sets the position to p |
| EndianBuffer.EndianBuffer.constructor | src/sak/endian_buffer.cpp:9-16 | a non-null buffer of non-zero size, position 0, nothing pushed |
| EndianBuffer.EndianBuffer.Size | src/sak/endian_buffer.cpp:66-69 | size() is the fixed size |
| EndianBuffer.EndianBuffer.Position | src/sak/endian_buffer.cpp:71-74 | position() is the number of bytes pushed, at most size() |
| EndianBuffer.EndianBuffer.Write | src/sak/endian_buffer.hpp:53-60 | write<T> pushes the big-endian bytes at the position, advances by sizeof(T), and writes only those bytes of the array |
| EndianBuffer.EndianBuffer.Read | src/sak/endian_buffer.hpp:64-70 | read<T> needs position >= sizeof(T); it pops the top sizeof(T) bytes and returns their value |
| EndianBuffer.EndianBuffer.WriteU8 | src/sak/endian_buffer.cpp:18-22 | write_u8 pushes one byte, and changes no other byte of the array |
| EndianBuffer.EndianBuffer.WriteU16 | src/sak/endian_buffer.cpp:24-28 | write_u16 pushes two big-endian bytes, and changes no other byte of the array |
| EndianBuffer.EndianBuffer.WriteU32 | src/sak/endian_buffer.cpp:30-34 | write_u32 pushes four big-endian bytes, and changes no other byte of the array |
| EndianBuffer.EndianBuffer.WriteU64 | src/sak/endian_buffer.cpp:36-40 | write_u64 pushes eight big-endian bytes, and changes no other byte of the array |
| EndianBuffer.EndianBuffer.ReadU8 | src/sak/endian_buffer.cpp:42-46 | read_u8 pops one byte |
| EndianBuffer.EndianBuffer.ReadU16 | src/sak/endian_buffer.cpp:48-52 | read_u16 pops two bytes and decodes them |
| EndianBuffer.EndianBuffer.ReadU32 | src/sak/endian_buffer.cpp:54-58 | read_u32 pops four bytes and decodes them |
| EndianBuffer.EndianBuffer.ReadU64 | src/sak/endian_buffer.cpp:60-64 | read_u64 pops eight bytes and decodes them |
| EndianBuffer.PopUndoesPush | src/sak/endian_buffer.hpp:53-70 | a read right after write<T>(v) returns v and restores the earlier contents and position |
| EndianBuffer.LastInFirstOut | test/src/test_endian_buffer.cpp:50-56 | popping k values after pushing k values returns them in reverse order and restores the original contents |
| Storage.EmptyStorage | src/sak/storage.hpp:33-36 | the default storage has a null pointer and size 0 |
| Storage.MakeMutable | src/sak/storage.hpp:41-47 | mutable_storage(data, size) needs non-null data and size > 0 |
| Storage.MakeConst | src/sak/storage.hpp:107-110 | const_storage(data, size) keeps both as given |
| Storage.MutableOffset | src/sak/storage.hpp:64-79 | s + k on a mutable storage is the offset view, still a valid mutable storage |
| Storage.OffsetView | src/sak/storage.hpp:144-159 | the bytes of s + k are the bytes of s from index k on |
| Storage.OffsetTwice | src/sak/storage.hpp:144-159 | (s + a) + b == s + (a + b) |
| Storage.Offset | src/sak/storage.hpp:144-159 | s + k points into the same array, is k bytes shorter, and ends where s ends |
| Storage.SplitStorage | src/sak/storage.hpp:171-191 | split_storage's loop yields the reference split: consecutive chunks of the split size; a split of 0 on an empty storage gives no chunks |
| Storage.SplitTiles | src/sak/storage.hpp:171-191 | the chunks start at the storage's start, each begins where the previous ends, all but the last have the split size, and they cover the storage exactly |
| Storage.SplitCount | src/sak/storage.hpp:171-191 | the number of chunks is ceil_division(size, split) |
| Storage.SplitCountBounds | src/sak/storage.hpp:171-191 | the chunks cover the size, and one chunk fewer would not |
| Storage.StorageSize | src/sak/storage.hpp:197-208 | storage_size is the sum of the sizes, modulo 2^32 |
| Storage.SplitSizeSum | test/src/test_storage.cpp:114-115 | storage_size of a split equals the original size |
| Storage.ZeroStorage | src/sak/storage.hpp:212-215 | zero_storage sets every byte of the region to 0 and nothing else |
| Storage.CopyStorage | src/sak/storage.hpp:218-230 | copy_storage writes the source's bytes at the destination's start and nothing else |
| Storage.IsSame | src/sak/storage.hpp:328-338 | is_same holds iff the start pointers and the sizes are equal |
| Storage.IsEqual | src/sak/storage.hpp:350-371 | is_equal holds iff the two regions hold the same bytes; same storages are equal |
| DuplexBuffer.DuplexBuffer.constructor | src/sak/duplex_buffer.cpp:32-37 | size zero bytes with no spare capacity |
| DuplexBuffer.DuplexBuffer.WithCapacity | src/sak/duplex_buffer.cpp:39-46 | a backing vector of (size + front + back) mod 2^32 zero bytes with the given fields; the buffer is consistent exactly when that uint32_t sum does not wrap |
| DuplexBuffer.DuplexBuffer.Copy | src/sak/duplex_buffer.cpp:48-53 | a copy of the vector and equal fields, so equal contents |
| DuplexBuffer.DuplexBuffer.Assign | src/sak/duplex_buffer.cpp:55-60 | operator= takes a copy of the other's vector and fields |
| DuplexBuffer.DuplexBuffer.Swap | src/sak/duplex_buffer.cpp:62-68 | swap exchanges the vectors and all three fields |
| DuplexBuffer.DuplexBuffer.Data | src/sak/duplex_buffer.cpp:70-78 | data() points into the vector, and the size() bytes from it are the window |
| DuplexBuffer.DuplexBuffer.Back | src/sak/duplex_buffer.cpp:90-98 | back() is exactly size() bytes past front() |
| DuplexBuffer.DuplexBuffer.Size | src/sak/duplex_buffer.cpp:141-144 | size() is the window length |
| DuplexBuffer.DuplexBuffer.Realloc | src/sak/duplex_buffer.cpp:193-207 | requires front + size + back to fit in uint32_t; a new vector of front zeros, the unchanged window, and back zeros; the capacities become the requested ones |
| DuplexBuffer.DuplexBuffer.ShrinkFront | src/sak/duplex_buffer.cpp:146-154 | requires k <= size; the window loses its first k bytes in place and the front capacity grows by k |
| DuplexBuffer.DuplexBuffer.ShrinkBack | src/sak/duplex_buffer.cpp:169-177 | requires k <= size; the window loses its last k bytes in place and the back capacity grows by k |
| DuplexBuffer.DuplexBuffer.ExpandFront | src/sak/duplex_buffer.cpp:156-167 | the old window is a suffix of the new one; within the front capacity the vector is kept and the new bytes are the k bytes before the window; beyond it the vector is reallocated with no front capacity left and zero bytes in front |
| DuplexBuffer.DuplexBuffer.ExpandBack | src/sak/duplex_buffer.cpp:179-190 | the old window is a prefix of the new one; within the back capacity the vector is kept and the new bytes are the k bytes after the window; beyond it the vector is reallocated with no back capacity left and zero bytes behind |
| DuplexBuffer.DuplexBuffer.GrowIntoFront | src/sak/duplex_buffer.cpp:163-166 | moving the front pointer k bytes left keeps the vector and prepends the k bytes before the window |
| DuplexBuffer.DuplexBuffer.GrowIntoBack | src/sak/duplex_buffer.cpp:186-189 | moving the back pointer k bytes right keeps the vector and appends the k bytes after the window |
| DuplexBuffer.DuplexBuffer.ResizeFront | src/sak/duplex_buffer.cpp:100-110 | size() becomes n; shrinking keeps the vector and the trailing n bytes and moves the front capacity up; growing keeps the old data as a suffix, in place with the bytes before the window while the front capacity suffices, else in a new vector with zero bytes in front and no front capacity |
| DuplexBuffer.DuplexBuffer.ResizeBack | src/sak/duplex_buffer.cpp:112-122 | size() becomes n; shrinking keeps the vector and the leading n bytes and moves the back capacity up; growing keeps the old data as a prefix, in place with the bytes after the window while the back capacity suffices, else in a new vector with zero bytes behind and no back capacity |
| DuplexBuffer.DuplexBuffer.Resize | src/sak/duplex_buffer.cpp:124-139 | the vector's bytes are kept and it grows only when smaller than the uint32_t total; the vector size and fields are those ResizeLayout gives; without wrap-around the buffer stays consistent |
| DuplexBuffer.ResizeFits | src/sak/duplex_buffer.cpp:124-139 | without wrap-around resize leaves a vector of max(old size, front + size + back) bytes, which the fields exactly fill, the back holding min_back plus the spare space |
| DuplexBuffer.ResizeWrapBreaksLayout | src/sak/duplex_buffer.cpp:128-138 | resize(0xFFFFFFFF, 1, 0) on a 10-byte vector does not grow it and records front 1, size 0xFFFFFFFF, back 10, which do not fill it |
| AppendBuffer.AppendBuffer.constructor | src/sak/buffer.cpp:3-5 | a new buffer holds 0 bytes |
| AppendBuffer.AppendBuffer.Write | src/sak/buffer.cpp:7-18 | write appends [start, end) after the held bytes, keeps them, and grows the vector only when too small, to exactly the needed length |
| AppendBuffer.AppendBuffer.Data | src/sak/buffer.cpp:20-23 | data() starts with the held bytes |
| AppendBuffer.AppendBuffer.Size | src/sak/buffer.cpp:25-28 | size() is the number of bytes held |
| AppendBuffer.AppendBuffer.Clear | src/sak/buffer.cpp:30-34 | clear sets size to 0 and empties the vector |
| AppendBuffer.AppendedIsConcat | src/sak/buffer.cpp:7-18 | a series of writes holds the chunks concatenated in order |
| BufferInputStream.BufferInputStream.constructor | src/sak/buffer_input_stream.cpp:11-17 | a non-empty, non-null storage; position 0 |
| BufferInputStream.BufferInputStream.Seek | src/sak/buffer_input_stream.cpp:20-24 | seek(p) requires p <= size and sets the position |
| BufferInputStream.BufferInputStream.ReadPosition | src/sak/buffer_input_stream.cpp:26-29 | read_position() is the cursor, at most size() |
| BufferInputStream.BufferInputStream.Read | src/sak/buffer_input_stream.cpp:31-40 | read(n) needs n > 0 and pos + n <= size, copies storage[pos..pos+n) into the destination only, and advances by n |
| BufferInputStream.BufferInputStream.BytesAvailable | src/sak/buffer_input_stream.cpp:42-45 | bytes_available() + read_position() == size() |
| BufferInputStream.BufferInputStream.Stopped | src/sak/buffer_input_stream.cpp:47-50 | stopped() is always true |
| BufferInputStream.BufferInputStream.Size | src/sak/buffer_input_stream.cpp:52-55 | size() is the storage's size |
| BufferInputStream.BufferInputStream.ReadToEnd | test/src/test_buffer_input_stream.cpp:32-46 | chunked reads until nothing is available yield exactly the rest of the storage |
| BufferInputStream.ReadAssertionWraps | src/sak/buffer_input_stream.cpp:33-35 | with the position in range, read's assertion passes the reads that fit and exactly the wrapping ones whose sum wraps to at most size |
| BufferInputStream.WrappingReadPassesAssertion | src/sak/buffer_input_stream.cpp:35 | at position 5 of 10 bytes, a read of 0xFFFFFFFF bytes passes: the sum wraps to 4 |
| RandomInputStream.Available | src/sak/random_input_stream.cpp:49-52 | size − position when in range; the uint32_t wrap-around when the position is past the end |
| RandomInputStream.RandomInputStream.constructor | src/sak/random_input_stream.cpp:12-21 | size > 0; exactly size bytes, the i-th the low byte of the i-th rand() result; position 0 |
| RandomInputStream.RandomInputStream.Data | src/sak/random_input_stream.cpp:23-26 | data() is the size() bytes read from |
| RandomInputStream.RandomInputStream.SeekAsWritten | src/sak/random_input_stream.cpp:28-32 | seek as written: requires pos >= size and sets the position |
| RandomInputStream.RandomInputStream.Seek | src/sak/random_input_stream.cpp:28-32 | corrected seek: requires pos <= size; afterwards bytes_available() == size − pos |
| RandomInputStream.RandomInputStream.ReadPosition | src/sak/random_input_stream.cpp:34-37 | read_position() is the cursor |
| RandomInputStream.RandomInputStream.Read | src/sak/random_input_stream.cpp:39-47 | read(n) needs n > 0 and pos + n <= size, copies data[pos..pos+n) and advances by n |
| RandomInputStream.RandomInputStream.BytesAvailable | src/sak/random_input_stream.cpp:49-52 | the cast difference; size − position when the position is in range |
| RandomInputStream.RandomInputStream.Stopped | src/sak/random_input_stream.cpp:54-57 | stopped() is always true |
| RandomInputStream.RandomInputStream.Size | src/sak/random_input_stream.cpp:59-62 | size() is the number of bytes held |
| RandomInputStream.RandomInputStream.ReadToEnd | test/src/test_random_input_stream.cpp:30-46 | chunked reads until exhaustion reproduce data() from the position on |
| RandomInputStream.SeekAsWrittenAdmitsOnlyWrappingReads | src/sak/random_input_stream.cpp:28-47 | from a position seek as written admits, read's assertion passes exactly when bytes + position wraps to at most size, and each such read starts past the end |
| RandomInputStream.WrappingReadPassesAssertion | src/sak/random_input_stream.cpp:39-47 | on 10 bytes, seek(0xFFFFFFFF) then read of 1 byte passes both assertions |
| RandomInputStream.ReadAssertionWithoutWrap | src/sak/random_input_stream.cpp:42 | without wrap-around read's assertion is the bound RandomInputStream.Read requires |
| RandomInputStream.SeekPastEndWraps | src/sak/random_input_stream.cpp:49-52 | 1143 bytes sought to 1144 report 4294967295 bytes available |
| RandomInputStream.SeekNeverWraps | src/sak/random_input_stream.cpp:49-52 | with position <= size the available count is exactly size − position |
| RandomBuffer.Filled | src/sak/random_buffer.cpp:16-46 | fill leaves exactly size bytes: with the seed embedded, its big-endian bytes first and drawn bytes from index 4; otherwise drawn bytes from index 0 |
| RandomBuffer.EmbeddedSeed | src/sak/random_buffer.cpp:56 | the seed read back is the one whose big-endian bytes are the first four |
| RandomBuffer.RandomBuffer.constructor | src/sak/random_buffer.hpp:16 | a new buffer holds no bytes |
| RandomBuffer.RandomBuffer.Fill | src/sak/random_buffer.cpp:16-46 | fill(size, embed) (embed needs size > 4) leaves a buffer of exactly the bytes Filled describes |
| RandomBuffer.RandomBuffer.Verify | src/sak/random_buffer.cpp:48-75 | verify (size > 4) is true iff every byte from index 4 equals the sequence regenerated from the embedded seed |
| RandomBuffer.FillThenVerify | test/src/test_random_buffer.cpp:17-23 | fill(n, true) followed by verify() is true for every seed |
| RandomBuffer.VerifiesIffFilled | src/sak/random_buffer.cpp:48-75 | verify accepts exactly the buffers fill(n, true) can produce with the seed they carry |
| RandomBuffer.TamperLastByte | test/src/test_random_buffer.cpp:25-30 | adding one to the last byte after fill(n, true) makes verify() false |
| ResourcePool.Pool.constructor | src/sak/resource_pool.hpp:79-82 | a pool with the given allocate and recycle functions and an empty free list |
| ResourcePool.Pool.Copy | src/sak/resource_pool.hpp:160-169 | the copy has as many unused resources as the original, each newly allocated |
| ResourcePool.Pool.Allocate | src/sak/resource_pool.hpp:197-229 | with free resources it hands out the most recently recycled one and drops it from the list; otherwise it calls the allocate function |
| ResourcePool.Pool.FreeUnused | src/sak/resource_pool.hpp:232-235 | free_unused empties the free list |
| ResourcePool.Pool.UnusedResources | src/sak/resource_pool.hpp:238-241 | unused_resources() is the free-list length |
| ResourcePool.Pool.Recycle | src/sak/resource_pool.hpp:245-253 | recycle calls the recycle function when set, then appends the resource to the free list |
| ResourcePool.Pool.Destroy | src/sak/resource_pool.hpp:298 | the pool's end of life: the weak reference handed-out resources hold expires |
| ResourcePool.Release | src/sak/resource_pool.hpp:286-295 | releasing a resource recycles it only while the pool exists; otherwise nothing happens |
| ResourcePool.AllocateReleaseAllocate | test/src/test_resource_pool.cpp:68-81 | allocate, release, allocate hands out the same resource, calling the allocate function at most once |
| ObjectId.ObjectId.Invalid | src/sak/object_id.cpp:34-37 | the default id is 0 with no parent |
| ObjectId.ObjectId.constructor | src/sak/object_id.hpp:44 | object_id(id) has that id and no parent |
| ObjectId.ObjectId.Copy | src/sak/object_id.cpp:44-47 | the copy has the same id and the same parent |
| ObjectId.ObjectId.SetParent | src/sak/object_id.cpp:49-53 | set_parent stores the parent and returns the same id |
| ObjectId.ObjectId.HasParent | src/sak/object_id.cpp:61-64 | has_parent iff the parent is non-null |
| ObjectId.AreRelated | src/sak/object_id.cpp:71-102 | the nested pointer walk (non-zero ids) returns true iff some id on a's chain equals some id on b's chain |
| ObjectId.Less | src/sak/object_id.cpp:104-121 | operator< is false for related ids and otherwise compares the numeric ids |
| ObjectId.RelatedReflexive | src/sak/object_id.cpp:84-89 | every id is related to itself |
| ObjectId.RelatedSymmetric | src/sak/object_id.cpp:71-102 | are_related(a, b) iff are_related(b, a) |
| ObjectId.RelatedToAncestor | src/sak/object_id.cpp:84-96 | every id is related to each of its ancestors |
| ObjectId.RelatedThroughAncestor | src/sak/object_id.cpp:84-96 | whatever an ancestor is related to, the id is related to |
| ObjectId.PrecedesIrreflexive | src/sak/object_id.cpp:104-108 | no id is less than itself |
| ObjectId.PrecedesAsymmetric | src/sak/object_id.cpp:111-120 | a < b excludes b < a |
| ObjectId.PrecedesTrichotomy | src/sak/object_id.cpp:104-121 | unrelated ids with different numbers are ordered one way; related ids neither way |
| ObjectId.PrecedesNotTransitive | src/sak/object_id.cpp:104-121 | [1] < [2] and [2] < [3, 1] but not [1] < [3, 1], so operator< is not a strict weak order |
| Aggregation.TypeCounter.constructor | src/sak/object.hpp:93 | the counter starts at 1 |
| Aggregation.TypeCounter.RegisterType | src/sak/object.hpp:91-95 | the n-th call returns the n-th type number |
| Aggregation.RegisteredTypesDistinct | src/sak/object.hpp:91-95 | successive calls return 1, 2, 3, …: distinct and non-zero below 65535 calls |
| Aggregation.RegisterTypeWraps | src/sak/object.hpp:91-95 | the uint16_t counter returns 0 on call 65536 |
| Aggregation.Object.constructor | src/sak/object.hpp:64-67 | a new object owns a fresh, empty entry vector |
| Aggregation.Object.GetObject | src/sak/object.hpp:117-143 | get_object<T>'s loop returns the reference lookup: the first entry whose chain reaches T before the root, or null |
| Aggregation.Object.SetObject | src/sak/object.hpp:99-113 | requires get_object<T>() null; the shared entries become o's entries, then the old ones, then (T, o), and o shares them |
| Aggregation.LookupIsFirstMatch | src/sak/object.hpp:117-142 | the lookup finds o iff o is in the first entry whose chain reaches T before the root |
| Aggregation.LookupAppend | src/sak/object.hpp:105-110 | a lookup in joined entries tries the first part and then the second |
| Aggregation.SetThenGet | test/src/test_object_xyz.cpp:118-133 | when neither o's entries nor this object's hold a T already, after set_object<T>(o) get_object<T>() returns o |
| Factories.Factory.constructor | test/src/test_object_registry.cpp:173 | a factory starts with its default setting |
| Factories.Factory.SetSetting | test/src/test_object_registry.cpp:175 | set_color changes the setting later builds use |
| Factories.Factory.Build | test/src/test_object_registry.cpp:177-180 | build makes an object of the factory's type with its current setting |
| ObjectRegistry.HasInCategory | src/sak/object_registry.hpp:137-144 | true exactly when the (category, type id) pair is among those the map holds a factory for |
| ObjectRegistry.FindFactory | src/sak/object_registry.hpp:167-189 | null iff the id is in none of its own, the current and the default categories; otherwise a factory stored under the id in one of them |
| ObjectRegistry.OwnCategoryFirst | src/sak/object_registry.hpp:174-177 | when the id's own category holds it, that factory is found whatever the current category |
| ObjectRegistry.CurrentBeforeDefault | src/sak/object_registry.hpp:178-185 | otherwise the current category is tried before the default one |
| ObjectRegistry.ObjectRegistry.constructor | src/sak/object_registry.hpp:52-54 | a new registry's current category is the default one; both maps are empty |
| ObjectRegistry.ObjectRegistry.SetCategory | src/sak/object_registry.hpp:70-73 | set_category sets the current category and nothing else |
| ObjectRegistry.ObjectRegistry.GetCategory | src/sak/object_registry.hpp:77-80 | get_category is the last value set |
| ObjectRegistry.ObjectRegistry.SetFactory | src/sak/object_registry.hpp:103-121 | requires a shared category and neither id registered; stores one new factory under both ids in that category |
| ObjectRegistry.ObjectRegistry.GetFactory | src/sak/object_registry.hpp:83-97 | get_factory returns the factory find_factory finds by the factory id |
| ObjectRegistry.ObjectRegistry.Create | src/sak/object_registry.hpp:124-133 | create builds with the factory find_factory finds by the object id |
| ObjectRegistry.TuneThenCreate | test/src/test_object_registry.cpp:184-200 | a setting changed on the factory get_factory returns shows in the next create |
| ObjectFactory.FactoryRegistry.constructor | src/sak/object_factory.hpp:58 | both lookup maps start empty |
| ObjectFactory.FactoryRegistry.SetFactory | src/sak/object_factory.hpp:68-87 | requires the object id absent from both maps; one new factory goes under the object id and under the factory id |
| ObjectFactory.FactoryRegistry.GetFactory | src/sak/object_factory.hpp:89-101 | requires the factory id registered; returns the registered instance |
| ObjectFactory.FactoryRegistry.Create | src/sak/object_factory.hpp:103-115 | requires the object id registered; returns what that factory builds |
| ObjectFactory.RegisterTuneCreate | src/sak/object_factory.hpp:68-115 | register, tune through get_factory, then create: the object carries the new setting |
| Ceiling.CeilBounds | src/sak/ceil_division.hpp:17-25 | r = ceil_division(n, d) satisfies r·d >= n and (r−1)·d < n |
| Ceiling.CeilIsLeast | src/sak/ceil_division.hpp:17-25 | no smaller k has k·d >= n |
| Ceiling.CeilUnique | src/sak/ceil_division.hpp:17-25 | any r with r·d >= n > (r−1)·d is ceil_division(n, d) |
| Ceiling.TestCases | test/src/test_ceil_division.cpp:12-17 | (0,1)→0, (1,1)→1, (1,2)→1, (2,1)→2, (10,3)→4, (3,10)→1 |
| Ceiling.CeilDivision | src/sak/ceil_division.hpp:17-25 | the result never exceeds the numerator and is 0 exactly for numerator 0 |
| Aligned.BitTrickIsPowerOfTwo | src/sak/is_aligned.hpp:21 | for a > 0, a & (a−1) == 0 iff a is a power of two |
| Aligned.IsAligned | src/sak/is_aligned.hpp:17-24 | the address is aligned iff rounding it down to a multiple of the alignment leaves it unchanged |
| Aligned.AlignedIffMultiple | src/sak/is_aligned.hpp:23 | an address is aligned iff it is a multiple of the alignment |
| Aligned.StepKeepsAligned | src/sak/is_aligned.hpp:23 | an aligned address plus the alignment is aligned |
| Aligned.DefaultAlignment | src/sak/platform.hpp:22 | the default alignment, 32, is a power of two |
| Aligned.ZeroIsAligned | test/src/test_is_aligned.cpp:10-21 | address 0 is aligned for every alignment |
| Aligned.EightByteExamples | test/src/test_is_aligned.cpp:10-21 | addresses 1..7 are not 8-aligned and 8 is |
| AlignedAllocator.Alignment | src/sak/aligned_allocator.hpp:89-92 | alignment() returns the (non-zero, power-of-two) Alignment |
| AlignedAllocator.DefaultIs32 | src/sak/aligned_allocator.hpp:51 | the default Alignment is 32 and valid |
| AlignedAllocator.FindAligned | src/sak/aligned_allocator.hpp:157-161 | find_aligned(p) is aligned and lies in (p, p + Alignment] |
| AlignedAllocator.AlignedMovesFullStep | src/sak/aligned_allocator.hpp:157-161 | an already aligned p moves forward a full Alignment |
| AlignedAllocator.FindAlignedIsNext | src/sak/aligned_allocator.hpp:157-161 | find_aligned(p) is the first aligned address after p |
| AlignedAllocator.SpaceNeeded | src/sak/aligned_allocator.hpp:133 | without overflow, the request is num·sizeof(T) + Alignment bytes |
| AlignedAllocator.Allocate | src/sak/aligned_allocator.hpp:131-151 | the returned start is find_aligned(raw), stores the offset in the byte before it (and changes nothing else), and its region fits in the raw block |
| AlignedAllocator.Deallocate | src/sak/aligned_allocator.hpp:195-202 | deallocate frees the returned pointer minus the stored offset |
| AlignedAllocator.AllocateThenDeallocate | src/sak/aligned_allocator.hpp:131-202 | deallocate of what allocate returned frees the raw block ::operator new gave |
| AlignedAllocator.Equal | src/sak/aligned_allocator.hpp:206-210 | any two allocators compare equal |
| AlignedAllocator.NotEqual | src/sak/aligned_allocator.hpp:212-216 | they never compare unequal |
| Buildbot.Segment | buildbot.py:23-26 | one tool option contributes a comma followed by its key (and, for a non-None value, "=value") |
| Buildbot.GetToolOptions | buildbot.py:18-28 | the loop returns ToolOptionsOf: "" without tool_options, the options' segments in the dict's iteration order, taken as document order (Python 3.7+), otherwise; an error if it is not a dict |
| Buildbot.OptionsTextAppend | buildbot.py:22-26 | the options text of two runs of options is the two texts joined |
| Buildbot.OptionsTextCons | buildbot.py:22-26 | the first option's segment comes first |
| Buildbot.OptionsTextLeadingComma | buildbot.py:22-26 | non-empty tool options always start with a comma |
| Buildbot.DistcleanArgs | buildbot.py:34-35 | "distclean" iff build_distclean is truthy |
| Buildbot.BundleArgs | buildbot.py:39-40 | "--bundle-path=" + path iff waf_bundle_path is present (and a string) |
| Buildbot.DependencyArgs | buildbot.py:42-45 | "--<project>-use-checkout=<checkout>" iff dependency_project is present (the checkout then required) |
| Buildbot.Configure | buildbot.py:31-51 | an argument list iff configure does not raise; a KeyError names a missing key; adding a non-string bundle path fails |
| Buildbot.ConfigureLayout | buildbot.py:31-51 | [python, waf], optional distclean, configure, --git-protocol=git@, optional bundle and checkout arguments, then --options=cxx_mkspec=… with the tool options |
| Buildbot.Build | buildbot.py:54-56 | always [python, waf, build, -v], whatever the properties |
| Buildbot.RunTests | buildbot.py:59-73 | [python, waf, -v, "--options=run_tests,run_always" + the valgrind option iff valgrind_run + the tool options] |
| Buildbot.Join | buildbot.py:86 | ",".join of zero, one or two parts |
| Buildbot.InstallOptions | buildbot.py:79-83 | install_path=… if present, then install_relative if truthy |
| Buildbot.Install | buildbot.py:76-88 | [python, waf, -v, install] plus one --options= argument exactly when install_path or install_relative applies |
| Buildbot.InstallOptionsArgument | buildbot.py:79-86 | the --options= argument in each of the three cases (path, relative, both) |
| Buildbot.Main | buildbot.py:95-114 | NoProgramName for an empty argv, where argv[0] raises IndexError; usage message for the wrong argument count; the unknown-command message; build on any properties; configure, run_tests and install raise NotAnObject for non-object properties, otherwise run their builder's command or raise its exception; every command run starts [python, waf] |

## Left out

- I/O and the environment are not modelled. This covers:
  - The process: `run_command` executes nothing, and `sys.exit` is the `Usage` outcome.
  - `print`, which becomes the message of an outcome.
  - `json.loads`, a parameter of `Buildbot.Main`.
  - `sys.executable`, a parameter of every builder.
  - The `std::cout` logging in `object_factory.hpp`.
- Randomness is not modelled:
  - `std::random_device`'s seed is an input of `Fill`.
  - `std::mt19937` through `uniform_int_distribution` is a generator parameter.
  - `rand()`'s results are an input sequence.
- Memory management is not modelled:
  - `::operator new`/`delete`: the raw block's address is an input, and deallocation is only the recovered address.
  - shared_ptr reference counting in `object.hpp` and `resource_pool.hpp`: the pool's deleter is the explicit `ResourcePool.Release`, and the pool's end of life is `ResourcePool.Pool.Destroy`.
  - The `object` destructor and the `resource_pool` move constructor, move assignment and copy assignment (resource_pool.hpp:96-101). Copy assignment is copy-and-swap: the pool takes a new impl built as `ResourcePool.Pool.Copy` builds it, and gives up its old impl, which ends as `ResourcePool.Pool.Destroy` does once no other owner holds it.
- `aligned_allocator`'s `rebind`, `address`, `max_size`, `construct` and `destroy` are C++ allocator plumbing with nothing to state; they are not modelled.
- `cast_storage` and the `storage(...)` factories (storage.hpp:235-321) only reinterpret a pointer and a size. `Storage.MakeMutable`/`Storage.MakeConst` stand for them.
- Pointer aliasing is not modelled where the C++ allows it. `Storage.CopyStorage` requires the two regions to be separate or in the same array, as its `CopyAllowed` predicate says. `BufferInputStream.BufferInputStream.Read` requires the destination range to lie in another array or not to overlap the bytes read, as memcpy does.
- Ordering of ids in the registries is not modelled. The registries' maps are keyed by the numeric type id. std::map's ordering by `operator<`, which is not a strict weak order (`ObjectId.PrecedesNotTransitive`), is not modelled.
- `object_category::default_id()` is a constructor parameter of the registry.
- `object_id`'s name (`set_name`, `name`) is commented out in object_id.cpp and is not modelled.
- object_id.cpp:39-42 builds an id from a `const char*`, which disagrees with the header's `uint16_t` constructor (object_id.hpp:44). The model follows the header.
- The `endian_stream.hpp` constructor's body is not in that file. The model assumes it starts at the given offset.
- The reads and writes of the fixed-size `endian_stream` (endian_stream.cpp) are declared in a header that is not part of this model.
- `buffer::resize`, which `random_buffer::fill` calls, is not part of this model. `RandomBuffer.RandomBuffer.Fill` gives a fresh block of exactly size bytes.
- The `input_stream`/`finite_input_stream` interfaces, `file_input_stream`, `error`, `easy_bind`, `optional_bind`, `is_big_endian` and the version files are not part of this model. `BigEndian` takes the host's byte order as a parameter; the streams and buffers built on it use the network order of `BigEndian.PutNetwork`/`GetNetwork`, which is what it gives on a little-endian host (see Findings).
- `buildbot.py`'s `coverage_settings` is not part of this model.
- JSON is not modelled in full:
  - floating-point values are left out;
  - `str()` of nested lists and dicts uses a repr without escaping quotes in strings;
  - an object's keys are taken to be distinct, as in the dict `json.loads` builds.
- Storage.SplitStorage: a split of 0 on a non-empty storage is outside the model. There the source's loop never ends (storage.hpp:182-189): next_size is 0, so remaining_size never falls and empty storages are pushed without end.
- Buildbot.GetToolOptions: modelled with Python 3.7+ semantics, where `items()` yields the options in document order. buildbot.py also reads as Python 2 (config.py:34 uses `raw_input`, config.py:47 a `print` statement). Under Python 2, `items()` yields hash order, a non-ASCII key or value makes `',{0}={1}'.format(...)` raise UnicodeEncodeError, and strings nested in a value print as `u'…'`, so `Buildbot.Segment`'s text differs. `Buildbot.Configure` and `Buildbot.RunTests` inherit this through `ToolOptionsOf`.
- Buildbot.Configure: a non-string `cxx_mkspec`, `dependency_project` or `dependency_checkout` is rendered with `str()` as `format` does. `--bundle-path=` concatenation with a non-string fails.
- Storage.StorageSize, RandomInputStream.Available and AlignedAllocator.SpaceNeeded model the 32-bit wrap-around explicitly.
- EndianStream.EndianStream.Write: positions are unbounded naturals. The uint32_t position and the vector's length limit do not wrap in the model.
- EndianStream.EndianStream.WriteVector: checks and grows over unbounded naturals. The source adds the uint32_t position and count, which can wrap and skip the resize, and cuts value.size() to uint32_t; EndianStream.WriteAsWritten models that, and Findings records it.
- EndianStream.EndianStream.WriteString: the same unwrapped bound and uncut count as WriteVector.
- EndianStream.EndianStream.WriteStringPrefixed: the characters are written with WriteString's unwrapped bound and uncut count.
- EndianStream.EndianStream.ReadVector: refuses a read by the unbounded position + bytes. The source's uint32_t sum wraps and lets reads through that copy past the end; EndianStream.ReadAsWritten models that, and Findings records it.
- EndianStream.EndianStream.ReadString: the same unwrapped bound as ReadVector.
- EndianStream.EndianStream.ReadStringPrefixed: the characters are read with ReadString's unwrapped bound (EndianStream.ReadStringWrapPassesCheck shows the source's wrap).
- EndianBuffer.EndianBuffer.Write: the bounds that endian_buffer.cpp leaves unchecked are preconditions, as the header's asserts are.
- AppendBuffer.AppendBuffer.Write: requires the new size to fit in 32 bits. The source's `m_size` would wrap instead.
- Aggregation.Object.GetObject: requires every entry's chain to reach T or the root. The source's pointer walk does not check this; a walk past the root would dereference null.
- EndianStream.EndianStream.Write: modelled for a little-endian host (endian_stream.hpp:63). It goes through the network-order `BigEndian.PutNetwork`/`GetNetwork`, while the source calls `big_endian`, whose byte order on a big-endian host is the reverse (Findings, first row).
- EndianStream.EndianStream.Read: modelled for a little-endian host (endian_stream.hpp:114). It goes through the network-order `BigEndian.PutNetwork`/`GetNetwork`, while the source calls `big_endian`, whose byte order on a big-endian host is the reverse (Findings, first row).
- EndianStream.EndianStream.WriteStringPrefixed: modelled for a little-endian host (the length prefix, endian_stream.hpp:68-73). It goes through the network-order `BigEndian.PutNetwork`/`GetNetwork`, while the source calls `big_endian`, whose byte order on a big-endian host is the reverse (Findings, first row).
- EndianStream.EndianStream.ReadStringPrefixed: modelled for a little-endian host (the length prefix, endian_stream.hpp:120-126). It goes through the network-order `BigEndian.PutNetwork`/`GetNetwork`, while the source calls `big_endian`, whose byte order on a big-endian host is the reverse (Findings, first row).
- EndianBuffer.EndianBuffer.Write: modelled for a little-endian host (endian_buffer.hpp:59). It goes through the network-order `BigEndian.PutNetwork`/`GetNetwork`, while the source calls `big_endian`, whose byte order on a big-endian host is the reverse (Findings, first row).
- EndianBuffer.EndianBuffer.Read: modelled for a little-endian host (endian_buffer.hpp:69). It goes through the network-order `BigEndian.PutNetwork`/`GetNetwork`, while the source calls `big_endian`, whose byte order on a big-endian host is the reverse (Findings, first row).
- EndianBuffer.EndianBuffer.WriteU16: modelled for a little-endian host (through write<T>). It goes through the network-order `BigEndian.PutNetwork`/`GetNetwork`, while the source calls `big_endian`, whose byte order on a big-endian host is the reverse (Findings, first row).
- EndianBuffer.EndianBuffer.WriteU32: modelled for a little-endian host (through write<T>). It goes through the network-order `BigEndian.PutNetwork`/`GetNetwork`, while the source calls `big_endian`, whose byte order on a big-endian host is the reverse (Findings, first row).
- EndianBuffer.EndianBuffer.WriteU64: modelled for a little-endian host (through write<T>). It goes through the network-order `BigEndian.PutNetwork`/`GetNetwork`, while the source calls `big_endian`, whose byte order on a big-endian host is the reverse (Findings, first row).
- EndianBuffer.EndianBuffer.ReadU16: modelled for a little-endian host (through read<T>). It goes through the network-order `BigEndian.PutNetwork`/`GetNetwork`, while the source calls `big_endian`, whose byte order on a big-endian host is the reverse (Findings, first row).
- EndianBuffer.EndianBuffer.ReadU32: modelled for a little-endian host (through read<T>). It goes through the network-order `BigEndian.PutNetwork`/`GetNetwork`, while the source calls `big_endian`, whose byte order on a big-endian host is the reverse (Findings, first row).
- EndianBuffer.EndianBuffer.ReadU64: modelled for a little-endian host (through read<T>). It goes through the network-order `BigEndian.PutNetwork`/`GetNetwork`, while the source calls `big_endian`, whose byte order on a big-endian host is the reverse (Findings, first row).
- RandomBuffer.Filled: modelled for a little-endian host (the embedded seed, random_buffer.cpp:38). It goes through the network-order `BigEndian.PutNetwork`/`GetNetwork`, while the source calls `big_endian`, whose byte order on a big-endian host is the reverse (Findings, first row).
- RandomBuffer.EmbeddedSeed: modelled for a little-endian host (random_buffer.cpp:56). It goes through the network-order `BigEndian.PutNetwork`/`GetNetwork`, while the source calls `big_endian`, whose byte order on a big-endian host is the reverse (Findings, first row).
- RandomBuffer.RandomBuffer.Fill: modelled for a little-endian host (random_buffer.cpp:38). It goes through the network-order `BigEndian.PutNetwork`/`GetNetwork`, while the source calls `big_endian`, whose byte order on a big-endian host is the reverse (Findings, first row).
- RandomBuffer.RandomBuffer.Verify: modelled for a little-endian host (random_buffer.cpp:56). It goes through the network-order `BigEndian.PutNetwork`/`GetNetwork`, while the source calls `big_endian`, whose byte order on a big-endian host is the reverse (Findings, first row).
- DuplexBuffer.DuplexBuffer.Realloc: requires front + size + back to fit in uint32_t. The source sums in uint32_t, and a wrapped total allocates a vector too small for the window it then copies.
- DuplexBuffer.DuplexBuffer.ExpandFront: requires the reallocated total k + size + back to fit in uint32_t, as Realloc does.
- DuplexBuffer.DuplexBuffer.ExpandBack: requires the reallocated total front + size + k to fit in uint32_t, as Realloc does.
- DuplexBuffer.DuplexBuffer.ResizeFront: requires the reallocated total to fit in uint32_t when it grows past the front capacity, as ExpandFront does.
- DuplexBuffer.DuplexBuffer.ResizeBack: requires the reallocated total to fit in uint32_t when it grows past the back capacity, as ExpandBack does.
- DuplexBuffer.DuplexBuffer.WithCapacity: models the wrapped uint32_t sum; after a wrap the buffer is not consistent, and no later operation is modelled on it.
- DuplexBuffer.DuplexBuffer.Resize: models the wrapped uint32_t sums; it promises a consistent buffer only when min_front + size + min_back does not wrap (DuplexBuffer.ResizeWrapBreaksLayout).
- RandomInputStream.RandomInputStream.Read: requires bytes + position <= size without wrap-around, as memcpy needs. The source's assertion adds in uint32_t and also lets through reads that copy from past the end (Findings).
- BufferInputStream.BufferInputStream.Read: requires bytes + position <= size without wrap-around, as memcpy needs. The source's assertion adds in uint32_t and also lets through reads that copy from past the end (Findings).

## Findings

| source | as written | input that shows it | evidently intended | confidence | as-written member | corrected member |
|---|---|---|---|---|---|---|
| src/sak/convert_endian.hpp:144 | a big-endian host selects `convert_endian<false>`, whose put/get (lines 98-133) are written out least significant byte first, so `big_endian` writes little-endian there | `big_endian::put16(0x1122)` on a big-endian host writes [0x22, 0x11] | network (big-endian) order on every host | high (reasoned from the code; not executed) | BigEndian.BigHostIsNotNetworkOrder | BigEndian.NetworkRoundTrip |
| src/sak/random_input_stream.cpp:30 | `seek` asserts `pos >= m_data.size()`, the reverse of buffer_input_stream's `pos <= size` | data of 1143 bytes: `seek(0)` fails the assertion, while `seek(1144)` passes and `bytes_available()` then returns 4294967295 | `assert(pos <= m_data.size())` | high (reasoned from the code; not executed) | RandomInputStream.SeekPastEndWraps | RandomInputStream.SeekNeverWraps |
| src/sak/random_input_stream.cpp:42 | read asserts `bytes + m_current_pos <= m_data.size()` with the sum in uint32_t | 10 bytes, `seek(0xFFFFFFFF)` then `read(buf, 1)`: the sum wraps to 0, both assertions pass, and memcpy reads from offset 0xFFFFFFFF | the bound without wrap-around, `bytes <= m_data.size() - m_current_pos` | high (reasoned from the code; not executed) | RandomInputStream.WrappingReadPassesAssertion | RandomInputStream.RandomInputStream.Read |
| src/sak/buffer_input_stream.cpp:35 | read asserts `bytes + m_current_pos <= m_buffer_storage.m_size` with the sum in uint32_t | a 10-byte storage at position 5, `read(buf, 0xFFFFFFFF)`: the sum wraps to 4 and the assertion passes | the bound without wrap-around, `bytes <= m_size - m_current_pos` | high (reasoned from the code; not executed) | BufferInputStream.WrappingReadPassesAssertion | BufferInputStream.BufferInputStream.Read |
| src/sak/endian_stream.hpp:148 | read_vector and read_string (line 132) refuse only when `m_vector.size() < m_position + bytes`, the sum in uint32_t | a 10-byte vector holding the uint32_t length 0xFFFFFFFF, then `read_string<uint32_t>`: at position 4 the sum 4 + 0xFFFFFFFF wraps to 3, the check passes, and copy_n reads 4 GiB from offset 4 | a check that cannot wrap, `bytes > m_vector.size() - m_position` | high (reasoned from the code; not executed) | EndianStream.ReadStringWrapPassesCheck | EndianStream.EndianStream.ReadVector |
| src/sak/endian_stream.hpp:94 | write_vector and write_string (line 80) resize only when `m_vector.size() < m_position + bytes`, the sum in uint32_t, and cut `value.size()` to uint32_t | 0xFFFFFFFF bytes at position 4 of a 10-byte vector: the sum wraps to 3, no resize happens, and copy_n writes past the end | a resize to the unwrapped end, with the full count | high (reasoned from the code; not executed) | EndianStream.WriteWrapOverruns | EndianStream.EndianStream.WriteVector |
