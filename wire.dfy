/** Byte-level codecs and the fixed-layout frames of the libcxl <-> PSLSE socket protocol.

    Every frame starts with one opcode byte.  The client (libcxl) writes its
    multi-byte fields little-endian (htole16/32/64); the emulator side reads the
    MMIO offset and flags in network order (ntohl), so the two byte orders are
    modelled separately here. */
module Wire {

  type Byte = bv8
  type Bytes = seq<bv8>

  // ---------------------------------------------------------------------------
  // Little-endian fields (htole*/le*toh on the client side)
  // ---------------------------------------------------------------------------

  function Le16(x: bv16): (r: Bytes)
    ensures |r| == 2
  {
    [(x & 0xFF) as bv8, (x >> 8) as bv8]
  }

  function Le32(x: bv32): (r: Bytes)
    ensures |r| == 4
  {
    [(x & 0xFF) as bv8, ((x >> 8) & 0xFF) as bv8, ((x >> 16) & 0xFF) as bv8, (x >> 24) as bv8]
  }

  function Le64(x: bv64): (r: Bytes)
    ensures |r| == 8
  {
    [(x & 0xFF) as bv8, ((x >> 8) & 0xFF) as bv8, ((x >> 16) & 0xFF) as bv8, ((x >> 24) & 0xFF) as bv8,
     ((x >> 32) & 0xFF) as bv8, ((x >> 40) & 0xFF) as bv8, ((x >> 48) & 0xFF) as bv8, (x >> 56) as bv8]
  }

  /** le16toh of two received bytes: the unique value whose encoding they are. */
  function FromLe16(s: Bytes): (x: bv16)
    requires |s| == 2
    ensures Le16(x) == s
  {
    (s[0] as bv16) | ((s[1] as bv16) << 8)
  }

  function FromLe32(s: Bytes): (x: bv32)
    requires |s| == 4
    ensures Le32(x) == s
  {
    (s[0] as bv32) | ((s[1] as bv32) << 8) | ((s[2] as bv32) << 16) | ((s[3] as bv32) << 24)
  }

  function FromLe64(s: Bytes): (x: bv64)
    requires |s| == 8
    ensures Le64(x) == s
  {
    (s[0] as bv64) | ((s[1] as bv64) << 8) | ((s[2] as bv64) << 16) | ((s[3] as bv64) << 24)
    | ((s[4] as bv64) << 32) | ((s[5] as bv64) << 40) | ((s[6] as bv64) << 48) | ((s[7] as bv64) << 56)
  }

  lemma LeRoundTrip(a: bv16, b: bv32, c: bv64)
    ensures FromLe16(Le16(a)) == a && FromLe32(Le32(b)) == b && FromLe64(Le64(c)) == c
  {
  }

  // ---------------------------------------------------------------------------
  // Network-order fields (ntohl / ntohll on the emulator side)
  // ---------------------------------------------------------------------------

  function Be32(x: bv32): (r: Bytes)
    ensures |r| == 4
  {
    [(x >> 24) as bv8, ((x >> 16) & 0xFF) as bv8, ((x >> 8) & 0xFF) as bv8, (x & 0xFF) as bv8]
  }

  /** The eight bytes of a doubleword in network order: the little-endian bytes reversed. */
  function Be64(x: bv64): (r: Bytes)
    ensures |r| == 8
  {
    var le := Le64(x);
    [le[7], le[6], le[5], le[4], le[3], le[2], le[1], le[0]]
  }

  /** ntohl applied to four bytes as they arrived: the first byte is the most significant. */
  function FromBe32(s: Bytes): (x: bv32)
    requires |s| == 4
    ensures Be32(x) == s
  {
    ((s[0] as bv32) << 24) | ((s[1] as bv32) << 16) | ((s[2] as bv32) << 8) | (s[3] as bv32)
  }

  /** ntohll applied to eight bytes as they arrived: the first byte is the most significant,
      so the value is the little-endian reading of the bytes reversed. */
  function FromBe64(s: Bytes): (x: bv64)
    requires |s| == 8
    ensures Be64(x) == s
  {
    FromLe64([s[7], s[6], s[5], s[4], s[3], s[2], s[1], s[0]])
  }

  function Bswap32(x: bv32): bv32 {
    ((x & 0xFF) << 24) | (((x >> 8) & 0xFF) << 16) | (((x >> 16) & 0xFF) << 8) | (x >> 24)
  }

  function Bswap64(x: bv64): bv64 {
    ((x & 0xFF) << 56) | (((x >> 8) & 0xFF) << 48) | (((x >> 16) & 0xFF) << 40) | (((x >> 24) & 0xFF) << 32)
    | (((x >> 32) & 0xFF) << 24) | (((x >> 40) & 0xFF) << 16) | (((x >> 48) & 0xFF) << 8) | (x >> 56)
  }

  /** A word written little-endian and read in network order arrives byte-swapped. */
  lemma CrossEndian32(a: bv32)
    ensures FromBe32(Le32(a)) == Bswap32(a)
  {
  }

  /** A doubleword written little-endian and read in network order arrives byte-swapped. */
  lemma CrossEndian64(d: bv64)
    ensures FromBe64(Le64(d)) == Bswap64(d)
  {
  }

  // ---------------------------------------------------------------------------
  // Opcodes
  // ---------------------------------------------------------------------------

  /** The PSLSE_* opcode bytes.  Their numeric values live in common/utils.h,
      which is not part of this model, so they are a parameter of the model. */
  datatype Opcodes = Opcodes(
    connect: Byte, query: Byte, maxInt: Byte, open: Byte, attach: Byte, detach: Byte,
    memoryRead: Byte, memoryWrite: Byte, memoryTouch: Byte, memSuccess: Byte, memFailure: Byte,
    mmioMap: Byte, mmioRead64: Byte, mmioWrite64: Byte, mmioRead32: Byte, mmioWrite32: Byte,
    mmioAck: Byte, mmioFail: Byte, interrupt: Byte)
  {
    /** The case labels of the client's inbound switch (libcxl/libcxl.c:442-540)
        are pairwise distinct, as any C switch requires. */
    predicate InboundDistinct() {
      && open !in {attach, detach, maxInt, query, memoryRead, memoryWrite, memoryTouch, mmioAck, interrupt}
      && attach !in {detach, maxInt, query, memoryRead, memoryWrite, memoryTouch, mmioAck, interrupt}
      && detach !in {maxInt, query, memoryRead, memoryWrite, memoryTouch, mmioAck, interrupt}
      && maxInt !in {query, memoryRead, memoryWrite, memoryTouch, mmioAck, interrupt}
      && query !in {memoryRead, memoryWrite, memoryTouch, mmioAck, interrupt}
      && memoryRead !in {memoryWrite, memoryTouch, mmioAck, interrupt}
      && memoryWrite !in {memoryTouch, mmioAck, interrupt}
      && memoryTouch !in {mmioAck, interrupt}
      && mmioAck != interrupt
    }
  }

  // ---------------------------------------------------------------------------
  // Client -> emulator frames (libcxl/libcxl.c)
  // ---------------------------------------------------------------------------

  /** The five tag bytes "PSLSE" that open the handshake. */
  const PslseTag: Bytes := [0x50, 0x53, 0x4C, 0x53, 0x45]

  /** Handshake: "PSLSE" followed by the protocol version byte. */
  function HandshakeFrame(version: Byte): (r: Bytes)
    ensures |r| == 6 && r[..5] == PslseTag && r[5] == version
  {
    PslseTag + [version]
  }

  /** The reply to the handshake: the connect opcode and the AFU bitmap,
      little-endian.  A different first byte is a bad acknowledge. */
  function DecodeConnectReply(ops: Opcodes, reply: Bytes): (map16: Option<bv16>)
    requires |reply| == 3
    ensures map16.Some? <==> reply[0] == ops.connect
    ensures map16.Some? ==> Le16(map16.value) == reply[1..]
  {
    if reply[0] != ops.connect then None else Some(FromLe16(reply[1..]))
  }

  function OpenFrame(ops: Opcodes, dbgId: Byte, afuType: Byte): (r: Bytes)
    ensures |r| == 3 && r[0] == ops.open && r[1] == dbgId && r[2] == afuType
  {
    [ops.open, dbgId, afuType]
  }

  function QueryFrame(ops: Opcodes, dbgId: Byte): (r: Bytes)
    ensures |r| == 2 && r[0] == ops.query && r[1] == dbgId
  {
    [ops.query, dbgId]
  }

  /** _req_max_int: opcode + LE16 interrupt count, 3 bytes. */
  function MaxIntFrame(ops: Opcodes, count: bv16): (r: Bytes)
    ensures |r| == 3 && r[0] == ops.maxInt && FromLe16(r[1..]) == count
  {
    [ops.maxInt] + Le16(count)
  }

  /** _pslse_attach: opcode + LE64 work element descriptor, 9 bytes. */
  function AttachFrame(ops: Opcodes, wed: bv64): (r: Bytes)
    ensures |r| == 9 && r[0] == ops.attach && FromLe64(r[1..]) == wed
  {
    [ops.attach] + Le64(wed)
  }

  /** _mmio_map: opcode + LE32 flags, 5 bytes. */
  function MmioMapFrame(ops: Opcodes, flags: bv32): (r: Bytes)
    ensures |r| == 5 && r[0] == ops.mmioMap && FromLe32(r[1..5]) == flags
  {
    [ops.mmioMap] + Le32(flags)
  }

  /** _mmio_write64: opcode + LE32 offset + LE64 data, 13 bytes. */
  function MmioWrite64Frame(ops: Opcodes, addr: bv32, data: bv64): (r: Bytes)
    ensures |r| == 13 && r[0] == ops.mmioWrite64
    ensures FromLe32(r[1..5]) == addr && FromLe64(r[5..]) == data
  {
    [ops.mmioWrite64] + Le32(addr) + Le64(data)
  }

  /** _mmio_write32: opcode + LE32 offset + LE32 data, 9 bytes. */
  function MmioWrite32Frame(ops: Opcodes, addr: bv32, data: bv32): (r: Bytes)
    ensures |r| == 9 && r[0] == ops.mmioWrite32
    ensures FromLe32(r[1..5]) == addr && FromLe32(r[5..]) == data
  {
    [ops.mmioWrite32] + Le32(addr) + Le32(data)
  }

  /** _mmio_read: the read opcode held in the request slot + LE32 offset, 5 bytes. */
  function MmioReadFrame(code: Byte, addr: bv32): (r: Bytes)
    ensures |r| == 5 && r[0] == code && FromLe32(r[1..5]) == addr
  {
    var r := [code] + Le32(addr);
    assert r[1..5] == Le32(addr);
    r
  }

  datatype Option<T> = None | Some(value: T)
}
