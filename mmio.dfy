/** The emulator's MMIO path (pslse/mmio.c).

    Only one MMIO access may be outstanding at the AFU, so the emulator keeps one FIFO list
    of MMIO events per AFU.  A client request is appended to the list as an IDLE event; the
    head event is driven to the AFU and becomes PENDING; the AFU's acknowledge makes it DONE
    and advances the list; the client collects the DONE event later, which frees it.  The
    AFU descriptor is read through the same list when the emulator starts.

    The heap is explicit: an event is a pointer (a `nat`, 0 being NULL) into the map of live
    events, and each event's `_next` link is a second map, so appending really walks the
    chain of links from the head to the tail. */
module PslseMmio {
  import opened Wire
  import AfuDescriptor

  type Ptr = nat

  const Null: Ptr := 0

  /** The three values of enum pslse_state that MMIO events take. */
  datatype EventState = Idle | Pending | Done

  /** struct mmio_event without its `_next` link.  rnw, dw and desc are 0/1 flags in the source. */
  datatype Access = Access(rnw: bool, dw: bool, addr: bv32, desc: bool, data: bv64, state: EventState)

  /** The call send_mmio makes into the PSL interface for the head event. */
  datatype PslCall =
    | PslMmioRead(dw: bool, addr: bv32, desc: bool)
    | PslMmioWrite(dw: bool, addr: bv32, data: bv64, desc: bool)

  /** What handle_mmio_ack did with one poll of the PSL interface. */
  datatype AckOutcome =
    | NoAck                         // psl_get_mmio_acknowledge reported nothing
    | Unexpected                    // an acknowledge with no PENDING head: warned and ignored
    | Completed(parityError: bool)  // the head is DONE; error_msg was called on a parity mismatch

  /** The emulator's copy of the AFU descriptor (struct mmio's `desc`). */
  datatype Desc = Desc(
    reqProgModel: bv16, numOfAfuCRs: bv16, numOfProcesses: bv16, numIntsPerProcess: bv16,
    afuCrLen: bv64, afuCrOffset: bv64, perProcessPsa: bv64, perProcessPsaOffset: bv64,
    afuEbLen: bv64, afuEbOffset: bv64)

  /** The errno read_descriptor leaves when it fails. */
  datatype Errno = ENODEV

  // ---------------------------------------------------------------------------
  // The PSL call for an event (pslse/mmio.c:196-231)
  // ---------------------------------------------------------------------------

  /** A read event is driven with psl_mmio_read and carries no data; a write event is driven
      with psl_mmio_write and carries its data. */
  function CallFor(a: Access): (c: PslCall)
    ensures c.PslMmioRead? <==> a.rnw
    ensures c.dw == a.dw && c.addr == a.addr && c.desc == a.desc
    ensures c.PslMmioWrite? ==> c.data == a.data
  {
    if a.rnw then PslMmioRead(a.dw, a.addr, a.desc) else PslMmioWrite(a.dw, a.addr, a.data, a.desc)
  }

  // ---------------------------------------------------------------------------
  // Client request payloads (pslse/mmio.c:319-382)
  // ---------------------------------------------------------------------------

  /** A 32-bit field as the client sends it: libcxl writes every multi-byte field with htole32,
      so its value is the little-endian reading of the four bytes. */
  function ClientWord32(s: Bytes): (x: bv32)
    requires |s| == 4
    ensures Le32(x) == s
  {
    FromLe32(s)
  }

  function ClientWord64(s: Bytes): (x: bv64)
    requires |s| == 8
    ensures Le64(x) == s
  {
    FromLe64(s)
  }

  /** Decoding a field recovers the value the client encoded, whatever the value. */
  lemma ClientWordsRoundTrip(x: bv32, d: bv64)
    ensures ClientWord32(Le32(x)) == x
    ensures ClientWord64(Le64(d)) == d
  {
    LeRoundTrip(0, x, d);
  }

  /** A word written by the client, copied into both halves of the 64-bit data. */
  function Duplicated(d32: bv32): bv64 {
    ((d32 as bv64) << 32) | (d32 as bv64)
  }

  /** Both halves of the duplicated data are the client's word. */
  lemma {:induction false} DuplicatedHalves(d32: bv32)
    ensures Duplicated(d32) >> 32 == d32 as bv64
    ensures Duplicated(d32) & 0xFFFF_FFFF == d32 as bv64
  {
    HighHalf(d32);
    LowHalf(d32);
  }

  lemma HighHalf(d32: bv32) ensures (((d32 as bv64) << 32) | (d32 as bv64)) >> 32 == d32 as bv64 {}
  lemma LowHalf(d32: bv32) ensures (((d32 as bv64) << 32) | (d32 as bv64)) & 0xFFFF_FFFF == d32 as bv64 {}

  /** The offset and the word data as pslse/mmio.c:334, :348 and :374 decode them, with
      ntohl: a network-order reading of bytes the client wrote little-endian. */
  function OffsetAsWritten(s: Bytes): (x: bv32)
    requires |s| == 4
    ensures Be32(x) == s
  {
    FromBe32(s)
  }

  /** The data of a doubleword write as pslse/mmio.c:341 decodes it, with ntohll. */
  function Data64AsWritten(s: Bytes): (x: bv64)
    requires |s| == 8
    ensures Be64(x) == s
  {
    FromBe64(s)
  }

  /** The word address an event takes for a client's byte offset (pslse/mmio.c:353, :375). */
  function WordAddress(offset: bv32): bv32 {
    offset / 4
  }

  /** How many bytes _handle_mmio_write reads after the opcode: the offset, then the data. */
  function WriteLength(dw: bool): nat {
    if dw then 12 else 8
  }

  /** The event _handle_mmio_write queues, as written: the four offset bytes and the data
      bytes are decoded in network order and the event takes the word address offset / 4;
      None when the socket runs dry first. */
  function DecodeWrite(dw: bool, s: Bytes): (r: Option<Access>)
    ensures r.Some? <==> |s| >= WriteLength(dw)
    ensures r.Some? ==> !r.value.rnw && r.value.dw == dw && !r.value.desc && r.value.state == Idle
    ensures r.Some? ==> r.value.addr == WordAddress(OffsetAsWritten(s[..4]))
    ensures r.Some? && dw ==> r.value.data == Data64AsWritten(s[4..12])
    ensures r.Some? && !dw ==> r.value.data == Duplicated(OffsetAsWritten(s[4..8]))
  {
    if |s| < 4 then None
    else
      var offset := OffsetAsWritten(s[..4]);
      if dw then
        if |s| < 12 then None
        else Some(Access(false, true, WordAddress(offset), false, Data64AsWritten(s[4..12]), Idle))
      else
        if |s| < 8 then None
        else Some(Access(false, false, WordAddress(offset), false, Duplicated(OffsetAsWritten(s[4..8])), Idle))
  }

  /** The event _handle_mmio_read queues, as written: the offset decoded in network order,
      data 0. */
  function DecodeRead(dw: bool, s: Bytes): (r: Option<Access>)
    ensures r.Some? <==> |s| >= 4
    ensures r.Some? ==> r.value.rnw && r.value.dw == dw && !r.value.desc && r.value.state == Idle
    ensures r.Some? ==> r.value.addr == WordAddress(OffsetAsWritten(s[..4])) && r.value.data == 0
  {
    if |s| < 4 then None else Some(Access(true, dw, WordAddress(OffsetAsWritten(s[..4])), false, 0, Idle))
  }

  /** As written, a 64-bit write frame from libcxl is queued byte-swapped: the word address is
      the swapped offset over 4 and the data is the swapped doubleword. */
  lemma {:induction false} DecodesWrite64Frame(ops: Opcodes, addr: bv32, data: bv64)
    ensures DecodeWrite(true, MmioWrite64Frame(ops, addr, data)[1..])
      == Some(Access(false, true, WordAddress(Bswap32(addr)), false, Bswap64(data), Idle))
  {
    var f := MmioWrite64Frame(ops, addr, data);
    assert f[1..][..4] == f[1..5] == Le32(addr);
    assert f[1..][4..12] == f[5..] == Le64(data);
    CrossEndian32(addr);
    CrossEndian64(data);
  }

  /** As written, a 32-bit write frame is queued with the swapped word in both halves. */
  lemma {:induction false} DecodesWrite32Frame(ops: Opcodes, addr: bv32, d32: bv32)
    ensures DecodeWrite(false, MmioWrite32Frame(ops, addr, d32)[1..])
      == Some(Access(false, false, WordAddress(Bswap32(addr)), false, Duplicated(Bswap32(d32)), Idle))
  {
    var f := MmioWrite32Frame(ops, addr, d32);
    assert f[1..][..4] == f[1..5] == Le32(addr);
    assert f[1..][4..8] == f[5..] == Le32(d32);
    CrossEndian32(addr);
    CrossEndian32(d32);
  }

  /** As written, a read frame of either width is queued at the swapped offset over 4. */
  lemma {:induction false} DecodesReadFrame(code: Byte, addr: bv32, dw: bool)
    ensures DecodeRead(dw, MmioReadFrame(code, addr)[1..]) == Some(Access(true, dw, WordAddress(Bswap32(addr)), false, 0, Idle))
  {
    var f := MmioReadFrame(code, addr);
    assert f[1..][..4] == f[1..5] == Le32(addr);
    CrossEndian32(addr);
  }

  /** The decoding the client's encoding calls for: every field little-endian. */
  function IntendedWrite(dw: bool, s: Bytes): (r: Option<Access>)
    ensures r.Some? <==> |s| >= WriteLength(dw)
    ensures r.Some? ==> !r.value.rnw && r.value.dw == dw && !r.value.desc && r.value.state == Idle
    ensures r.Some? ==> Le32(r.value.addr * 4 + (ClientWord32(s[..4]) % 4)) == s[..4]
    ensures r.Some? && dw ==> Le64(r.value.data) == s[4..12]
  {
    if |s| < 4 then None
    else
      var offset := ClientWord32(s[..4]);
      if dw then
        if |s| < 12 then None
        else Some(Access(false, true, offset / 4, false, ClientWord64(s[4..12]), Idle))
      else
        if |s| < 8 then None
        else Some(Access(false, false, offset / 4, false, Duplicated(ClientWord32(s[4..8])), Idle))
  }

  function IntendedRead(dw: bool, s: Bytes): (r: Option<Access>)
    ensures r.Some? <==> |s| >= 4
    ensures r.Some? ==> Le32(r.value.addr * 4 + (ClientWord32(s[..4]) % 4)) == s[..4]
  {
    if |s| < 4 then None else Some(Access(true, dw, ClientWord32(s[..4]) / 4, false, 0, Idle))
  }

  /** With the intended decoding, the frames libcxl sends arrive as the requests the client
      made: a 64-bit write of `data` at byte offset `addr` is queued at word address addr / 4
      with that data. */
  lemma {:induction false} IntendedDecodesWrite64Frame(ops: Opcodes, addr: bv32, data: bv64)
    ensures IntendedWrite(true, MmioWrite64Frame(ops, addr, data)[1..])
      == Some(Access(false, true, addr / 4, false, data, Idle))
  {
    var f := MmioWrite64Frame(ops, addr, data);
    assert f[1..][..4] == f[1..5];
    assert f[1..][4..12] == f[5..];
    ClientWordsRoundTrip(addr, data);
  }

  /** A 32-bit write is then queued with the client's word in both halves. */
  lemma {:induction false} IntendedDecodesWrite32Frame(ops: Opcodes, addr: bv32, d32: bv32)
    ensures IntendedWrite(false, MmioWrite32Frame(ops, addr, d32)[1..])
      == Some(Access(false, false, addr / 4, false, Duplicated(d32), Idle))
  {
    var f := MmioWrite32Frame(ops, addr, d32);
    assert f[1..][..4] == f[1..5];
    assert f[1..][4..8] == f[5..];
    ClientWordsRoundTrip(addr, 0);
    ClientWordsRoundTrip(d32, 0);
  }

  /** A read of either width is then queued at word address addr / 4. */
  lemma {:induction false} IntendedDecodesReadFrame(code: Byte, addr: bv32, dw: bool)
    ensures IntendedRead(dw, MmioReadFrame(code, addr)[1..]) == Some(Access(true, dw, addr / 4, false, 0, Idle))
  {
    var f := MmioReadFrame(code, addr);
    assert f[1..][..4] == f[1..5];
    ClientWordsRoundTrip(addr, 0);
  }

  /** As written, a write of 1 to byte offset 8 is queued at word address 0x0200_0000 with
      data 0x0100_0000_0000_0000; the intended decoding queues word address 2 and data 1. */
  lemma {:induction false} OffsetAsWrittenMisreads(ops: Opcodes)
    ensures DecodeWrite(true, MmioWrite64Frame(ops, 8, 1)[1..])
      == Some(Access(false, true, 0x0200_0000, false, 0x0100_0000_0000_0000, Idle))
    ensures IntendedWrite(true, MmioWrite64Frame(ops, 8, 1)[1..]) == Some(Access(false, true, 2, false, 1, Idle))
  {
    var f := MmioWrite64Frame(ops, 8, 1);
    assert f[1..][..4] == [8, 0, 0, 0];
    assert f[1..][4..12] == [1, 0, 0, 0, 0, 0, 0, 0];
  }

  // ---------------------------------------------------------------------------
  // The acknowledge a client collects (pslse/mmio.c:421-450)
  // ---------------------------------------------------------------------------

  /** The bytes handle_mmio_done puts for a DONE event: the ack opcode, then for a read the
      data copied from memory, 8 bytes for a doubleword and the first 4 for a word.  The copy
      is of host memory; the model takes a little-endian host. */
  function DoneReply(ops: Opcodes, a: Access): (r: Bytes)
    ensures |r| >= 1 && r[0] == ops.mmioAck
    ensures |r| == (if !a.rnw then 1 else if a.dw then 9 else 5)
  {
    if !a.rnw then [ops.mmioAck]
    else if a.dw then [ops.mmioAck] + Le64(a.data)
    else [ops.mmioAck] + Le64(a.data)[..4]
  }

  /** The first four bytes of a little-endian doubleword are its low word. */
  lemma {:induction false} Le64LowWord(d: bv64)
    ensures Le64(d)[..4] == Le32((d & 0xFFFF_FFFF) as bv32)
  {
    LowByte0(d);
    LowByte1(d);
    LowByte2(d);
    LowByte3(d);
  }

  lemma LowByte0(d: bv64) ensures (d & 0xFF) as bv8 == ((d & 0xFFFF_FFFF) as bv32 & 0xFF) as bv8 {}
  lemma LowByte1(d: bv64) ensures ((d >> 8) & 0xFF) as bv8 == ((((d & 0xFFFF_FFFF) as bv32) >> 8) & 0xFF) as bv8 {}
  lemma LowByte2(d: bv64) ensures ((d >> 16) & 0xFF) as bv8 == ((((d & 0xFFFF_FFFF) as bv32) >> 16) & 0xFF) as bv8 {}
  lemma LowByte3(d: bv64) ensures ((d >> 24) & 0xFF) as bv8 == (((d & 0xFFFF_FFFF) as bv32) >> 24) as bv8 {}

  /** libcxl decodes the acknowledge of a doubleword read with le64toh
      (libcxl/libcxl.c:176-187): on a little-endian host it gets back the doubleword the AFU
      returned. */
  lemma {:induction false} ClientReadsDoubleReply(ops: Opcodes, a: Access)
    requires a.rnw && a.dw
    ensures FromLe64(DoneReply(ops, a)[1..]) == a.data
  {
    assert DoneReply(ops, a)[1..] == Le64(a.data);
    LeRoundTrip(0, 0, a.data);
  }

  /** ... and of a word read with le32toh (libcxl/libcxl.c:188-199): the low word. */
  lemma {:induction false} ClientReadsWordReply(ops: Opcodes, a: Access)
    requires a.rnw && !a.dw
    ensures FromLe32(DoneReply(ops, a)[1..]) == (a.data & 0xFFFF_FFFF) as bv32
  {
    var low := (a.data & 0xFFFF_FFFF) as bv32;
    Le64LowWord(a.data);
    assert DoneReply(ops, a)[1..] == Le32(low);
    LeRoundTrip(0, low, 0);
  }

  // ---------------------------------------------------------------------------
  // The AFU descriptor (pslse/mmio.c:119-182, 458-468)
  // ---------------------------------------------------------------------------

  /** Register 0x00 of the descriptor, split into four 16-bit fields. */
  datatype Reg0 = Reg0(reqProgModel: bv16, numOfAfuCRs: bv16, numOfProcesses: bv16, numIntsPerProcess: bv16)

  function Reg0Value(f: Reg0): bv64 {
    ((f.numIntsPerProcess as bv64) << 48) | ((f.numOfProcesses as bv64) << 32)
    | ((f.numOfAfuCRs as bv64) << 16) | (f.reqProgModel as bv64)
  }

  /** The split of pslse/mmio.c:136-141 loses nothing: the four fields put back in their lanes
      give the register again. */
  function DecodeReg0(data: bv64): (f: Reg0)
    ensures Reg0Value(f) == data
  {
    Reg0((data & 0xFFFF) as bv16, ((data >> 16) & 0xFFFF) as bv16,
         ((data >> 32) & 0xFFFF) as bv16, ((data >> 48) & 0xFFFF) as bv16)
  }

  /** ... and any four fields are recovered from the register they make. */
  lemma DecodeReg0Inverts(f: Reg0)
    ensures DecodeReg0(Reg0Value(f)) == f
  {
  }

  /** The word addresses of the seven doublewords read_descriptor queues, in queue order:
      the byte addresses 0x00, 0x20, 0x28, 0x30, 0x38, 0x40 and 0x48 shifted right by two. */
  const DescriptorWords: seq<bv32> := [0x00, 0x08, 0x0A, 0x0C, 0x0E, 0x10, 0x12]

  /** The i-th of those reads as _add_desc queues it: a doubleword read of the descriptor at
      the word address, carrying no data. */
  function DescriptorRead(i: nat): Access
    requires i < 7
  {
    Access(true, true, DescriptorWords[i], true, 0, Idle)
  }

  /** The events after the first `n` descriptor reads are queued at the addresses `block`. */
  function Queued(events: map<Ptr, Access>, block: seq<Ptr>, n: nat): map<Ptr, Access>
    requires n <= |block| <= 7
  {
    if n == 0 then events else Queued(events, block, n - 1)[block[n - 1] := DescriptorRead(n - 1)]
  }

  lemma {:induction false} NotYetQueued(events: map<Ptr, Access>, block: seq<Ptr>, n: nat)
    requires n <= |block| <= 7
    requires forall i :: 0 <= i < |block| ==> block[i] !in events
    requires forall i, j :: 0 <= i < j < |block| ==> block[i] != block[j]
    ensures forall j :: n <= j < |block| ==> block[j] !in Queued(events, block, n)
  {
    if n > 0 {
      NotYetQueued(events, block, n - 1);
    }
  }

  /** One more element of `s` taken onto a list laid after `q`. */
  lemma PrefixStep(q: seq<Ptr>, s: seq<Ptr>, i: nat)
    requires i < |s|
    ensures s[..i + 1] == s[..i] + [s[i]]
    ensures q + s[..i + 1] == (q + s[..i]) + [s[i]]
  {
    assert s[..i + 1] == s[..i] + [s[i]];
  }

  /** The PSA_REQUIRED bit (a parameter) of the descriptor's per-process area register. */
  predicate PsaRequired(d: Desc, psaRequired: bv64) {
    d.perProcessPsa & psaRequired != 0
  }

  /** The descriptor built from the seven read values: register 0x00 split into its fields,
      every other register kept whole. */
  function DescriptorFrom(d: seq<bv64>): (r: Desc)
    requires |d| == 7
    ensures Reg0Value(Reg0(r.reqProgModel, r.numOfAfuCRs, r.numOfProcesses, r.numIntsPerProcess)) == d[0]
    ensures [r.afuCrLen, r.afuCrOffset, r.perProcessPsa, r.perProcessPsaOffset, r.afuEbLen, r.afuEbOffset] == d[1..]
  {
    var f := DecodeReg0(d[0]);
    Desc(f.reqProgModel, f.numOfAfuCRs, f.numOfProcesses, f.numIntsPerProcess, d[1], d[2], d[3], d[4], d[5], d[6])
  }

  /** The checks at the end of read_descriptor: a descriptor is rejected with ENODEV unless it
      allows at least one process and its programming model, bit 15 aside, is 0x0010. */
  function CheckDescriptor(d: Desc): (r: Option<Errno>)
    ensures r.None? <==> d.numOfProcesses != 0 && d.reqProgModel & 0x7FFF == 0x0010
  {
    if d.numOfProcesses == 0 then Some(ENODEV)
    else if d.reqProgModel & 0x7FFF != 0x0010 then Some(ENODEV)
    else None
  }

  /** dedicated_mode_support; PROG_MODEL_MASK and PROG_MODEL_DEDICATED are parameters. */
  predicate DedicatedModeSupport(d: Desc, progModelMask: bv16, progModelDedicated: bv16) {
    d.reqProgModel & progModelMask == progModelDedicated
  }

  /** directed_mode_support; PROG_MODEL_DIRECTED is a parameter. */
  predicate DirectedModeSupport(d: Desc, progModelMask: bv16, progModelDirected: bv16) {
    d.reqProgModel & progModelMask == progModelDirected
  }

  /** With the 15-bit programming-model mask the check itself uses, a descriptor that
      read_descriptor accepts supports exactly the mode whose code is 0x0010: any other
      dedicated or directed code is reported unsupported. */
  lemma AcceptedDescriptorMode(d: Desc, dedicated: bv16, directed: bv16)
    requires CheckDescriptor(d).None?
    ensures DedicatedModeSupport(d, 0x7FFF, dedicated) <==> dedicated == 0x0010
    ensures DirectedModeSupport(d, 0x7FFF, directed) <==> directed == 0x0010
  {
  }

  /** The seven values the emulator reads when the test AFU answers its descriptor reads
      from its register file (a doubleword read at word address w returns `get_reg(w, true)`):
      they are registers 0, 4, 5, 6, 7, 8 and 9, the ones the AFU's descriptor fields fill. */
  function AfuAnswers(regs: AfuDescriptor.Regs): (d: seq<bv64>)
    requires AfuDescriptor.Complete(regs)
    ensures d == [regs[0], regs[4], regs[5], regs[6], regs[7], regs[8], regs[9]]
  {
    var w := DescriptorWords;
    [AfuDescriptor.GetReg(regs, w[0], true), AfuDescriptor.GetReg(regs, w[1], true),
     AfuDescriptor.GetReg(regs, w[2], true), AfuDescriptor.GetReg(regs, w[3], true),
     AfuDescriptor.GetReg(regs, w[4], true), AfuDescriptor.GetReg(regs, w[5], true),
     AfuDescriptor.GetReg(regs, w[6], true)]
  }

  /** The emulator's copy of the descriptor agrees with the test AFU's own getters for the
      four fields of register 0x00 ... */
  lemma {:induction false} EmulatorSeesAfuReg0(regs: AfuDescriptor.Regs)
    requires AfuDescriptor.Complete(regs)
    ensures var d := DescriptorFrom(AfuAnswers(regs));
      && d.reqProgModel == AfuDescriptor.RegProgModelOf(regs)
      && d.numOfAfuCRs == AfuDescriptor.NumOfAfuCRsOf(regs)
      && d.numOfProcesses == AfuDescriptor.NumOfProcessOf(regs)
      && d.numIntsPerProcess == AfuDescriptor.NumIntsPerProcessOf(regs)
  {
    assert AfuAnswers(regs)[0] == regs[0];
    Reg0Fields(regs[0]);
  }

  /** ... and holds the AFU's offsets and its per-process area register as they are. */
  lemma {:induction false} EmulatorSeesAfuRegisters(regs: AfuDescriptor.Regs)
    requires AfuDescriptor.Complete(regs)
    ensures var d := DescriptorFrom(AfuAnswers(regs));
      && d.afuCrOffset == AfuDescriptor.AfuCrOffsetOf(regs)
      && d.perProcessPsa == regs[6]
      && d.perProcessPsaOffset == AfuDescriptor.PerProcessPsaOffsetOf(regs)
      && d.afuEbOffset == AfuDescriptor.AfuEbOffsetOf(regs)
  {
    var a := AfuAnswers(regs);
    assert a[1..] == [regs[4], regs[5], regs[6], regs[7], regs[8], regs[9]];
  }

  /** The four 16-bit fields of register 0x00 as the emulator and the test AFU extract them. */
  lemma Reg0Fields(data: bv64)
    ensures DecodeReg0(data).reqProgModel == (data & 0xFFFF) as bv16
    ensures DecodeReg0(data).numOfAfuCRs == ((data >> 16) & 0xFFFF) as bv16
    ensures DecodeReg0(data).numOfProcesses == ((data >> 32) & 0xFFFF) as bv16
    ensures DecodeReg0(data).numIntsPerProcess == ((data >> 48) & 0xFFFF) as bv16
  {
  }

  // ---------------------------------------------------------------------------
  // The event list (struct mmio's `list` and each event's `_next`)
  // ---------------------------------------------------------------------------

  /** The shape pslse/mmio.c keeps its events in: the links chain `queue` from `head` to NULL
      through live events, each at most once; only the head may be PENDING and nothing on the
      list is DONE; every live event off the list is DONE, waiting for its client. */
  ghost predicate Linked(events: map<Ptr, Access>, link: map<Ptr, Ptr>, head: Ptr, queue: seq<Ptr>) {
    && Null !in events
    && link.Keys == events.Keys
    && Chain(link, head, queue)
    && (forall i, j :: 0 <= i < j < |queue| ==> queue[i] != queue[j])
    && (forall i :: 0 < i < |queue| ==> events[queue[i]].state == Idle)
    && (queue != [] ==> events[queue[0]].state != Done)
    && (forall p :: p in events && p !in queue ==> events[p].state == Done)
  }

  /** The links alone: `queue` is the chain from `head` to NULL. */
  ghost predicate Chain(link: map<Ptr, Ptr>, head: Ptr, queue: seq<Ptr>) {
    && (forall i :: 0 <= i < |queue| ==> queue[i] != Null && queue[i] in link)
    && head == (if queue == [] then Null else queue[0])
    && (forall i :: 0 <= i < |queue| - 1 ==> link[queue[i]] == queue[i + 1])
    && (queue != [] ==> link[queue[|queue| - 1]] == Null)
  }

  /** Following a link from a list event leads to the next list event, and only the tail
      links to NULL. */
  lemma LinkFrom(link: map<Ptr, Ptr>, head: Ptr, queue: seq<Ptr>, k: nat)
    requires Chain(link, head, queue) && k < |queue|
    ensures queue[k] in link
    ensures link[queue[k]] == Null <==> k == |queue| - 1
    ensures k < |queue| - 1 ==> link[queue[k]] == queue[k + 1]
  {
    if k < |queue| - 1 {
      assert queue[k + 1] != Null;
    }
  }

  /** The loop of _add_event (pslse/mmio.c:85-88): follow the links from the head of a
      non-empty list until one is NULL; that event is the tail. */
  method FindTail(link: map<Ptr, Ptr>, head: Ptr, ghost queue: seq<Ptr>) returns (tail: Ptr)
    requires Chain(link, head, queue) && queue != []
    ensures tail == queue[|queue| - 1]
  {
    tail := head;
    ghost var k := 0;
    LinkFrom(link, head, queue, 0);
    while link[tail] != Null
      invariant 0 <= k < |queue| && tail == queue[k] && tail in link
      decreases |queue| - k
    {
      LinkFrom(link, head, queue, k);
      tail := link[tail];
      k := k + 1;
      LinkFrom(link, head, queue, k);
    }
    LinkFrom(link, head, queue, k);
  }

  /** The links after `e` is put at the end of `queue`. */
  function Appended(link: map<Ptr, Ptr>, queue: seq<Ptr>, e: Ptr): map<Ptr, Ptr> {
    if queue == [] then link[e := Null] else link[queue[|queue| - 1] := e][e := Null]
  }

  /** Appending a fresh IDLE event keeps the list well formed. */
  lemma AppendKeepsLinked(events: map<Ptr, Access>, link: map<Ptr, Ptr>, head: Ptr, queue: seq<Ptr>,
                          e: Ptr, a: Access)
    requires Linked(events, link, head, queue)
    requires e != Null && e !in events && a.state == Idle
    ensures Linked(events[e := a], Appended(link, queue, e), if head == Null then e else head, queue + [e])
  {
    var q := queue + [e];
    var l := Appended(link, queue, e);
    forall i | 0 <= i < |q| - 1
      ensures l[q[i]] == q[i + 1]
    {
      if i < |queue| - 1 {
        assert queue[i] != queue[|queue| - 1];
      }
    }
  }

  /** Making an IDLE head PENDING keeps the list well formed. */
  lemma SendKeepsLinked(events: map<Ptr, Access>, link: map<Ptr, Ptr>, head: Ptr, queue: seq<Ptr>)
    requires Linked(events, link, head, queue)
    requires head != Null && events[head].state == Idle
    ensures Linked(events[head := events[head].(state := Pending)], link, head, queue)
  {
    var ev := events[head := events[head].(state := Pending)];
    forall i | 0 < i < |queue|
      ensures ev[queue[i]].state == Idle
    {
      assert queue[i] != queue[0];
    }
  }

  /** Completing the PENDING head and moving the list to its successor keeps it well formed,
      whatever data the acknowledge brought. */
  lemma AckKeepsLinked(events: map<Ptr, Access>, link: map<Ptr, Ptr>, head: Ptr, queue: seq<Ptr>, data: bv64)
    requires Linked(events, link, head, queue)
    requires head != Null && events[head].state == Pending
    ensures Linked(events[head := events[head].(data := data, state := Done)], link, link[head], queue[1..])
  {
    var ev := events[head := events[head].(data := data, state := Done)];
    var q := queue[1..];
    ChainTail(link, head, queue);
    forall i | 0 <= i < |q|
      ensures ev[q[i]].state == events[q[i]].state
    {
      assert q[i] == queue[i + 1] && queue[i + 1] != queue[0];
    }
    forall p | p in ev && p !in q
      ensures ev[p].state == Done
    {
      if p != head {
        NotInTail(queue, p);
      }
    }
  }

  /** Dropping the head of a chain leaves the chain from the head's link. */
  lemma ChainTail(link: map<Ptr, Ptr>, head: Ptr, queue: seq<Ptr>)
    requires Chain(link, head, queue) && queue != []
    ensures Chain(link, link[head], queue[1..])
  {
    var q := queue[1..];
    LinkFrom(link, head, queue, 0);
    forall i | 0 <= i < |q| - 1
      ensures link[q[i]] == q[i + 1]
    {
      assert q[i] == queue[i + 1];
    }
  }

  /** What is neither the head nor in the rest of a list is not in the list. */
  lemma NotInTail(queue: seq<Ptr>, p: Ptr)
    requires queue != [] && p != queue[0] && p !in queue[1..]
    ensures p !in queue
  {
    forall i | 0 < i < |queue|
      ensures queue[i] != p
    {
      assert queue[i] == queue[1..][i - 1];
    }
  }

  /** Freeing DONE events keeps the list well formed: none of them is on it. */
  lemma FreeKeepsLinked(events: map<Ptr, Access>, link: map<Ptr, Ptr>, head: Ptr, queue: seq<Ptr>, gone: set<Ptr>)
    requires Linked(events, link, head, queue)
    requires forall p :: p in gone ==> p in events && events[p].state == Done
    ensures Linked(events - gone, link - gone, head, queue)
  {
    forall i | 0 <= i < |queue|
      ensures queue[i] !in gone
    {
      if i > 0 {
        assert events[queue[i]].state == Idle;
      }
    }
  }

  /** The data of seven live events, in order. */
  function DataOf(events: map<Ptr, Access>, evs: seq<Ptr>): (d: seq<bv64>)
    requires |evs| == 7 && forall i :: 0 <= i < 7 ==> evs[i] in events
    ensures |d| == 7 && forall i :: 0 <= i < 7 ==> d[i] == events[evs[i]].data
  {
    [events[evs[0]].data, events[evs[1]].data, events[evs[2]].data, events[evs[3]].data,
     events[evs[4]].data, events[evs[5]].data, events[evs[6]].data]
  }

  // ---------------------------------------------------------------------------
  // The MMIO tracking structure (struct mmio)
  // ---------------------------------------------------------------------------

  class Mmio {
    /** Every live mmio_event: on the list, or DONE and waiting for its client. */
    var events: map<Ptr, Access>
    /** Each live event's `_next`. */
    var link: map<Ptr, Ptr>
    /** mmio->list, the oldest event not yet acknowledged. */
    var list: Ptr
    /** The MMIO flags latched by the first map request. */
    var flags: bv32
    var desc: Desc
    /** The events reachable from `list` through `link`, in list order. */
    ghost var queue: seq<Ptr>

    ghost predicate Valid()
      reads this
    {
      Linked(events, link, list, queue)
    }

    /** mmio_init: an empty list, no flags latched, a zeroed descriptor. */
    constructor ()
      ensures Valid()
      ensures events == map[] && queue == [] && list == Null && flags == 0
      ensures desc == Desc(0, 0, 0, 0, 0, 0, 0, 0, 0, 0)
    {
      events := map[];
      link := map[];
      list := Null;
      flags := 0;
      desc := Desc(0, 0, 0, 0, 0, 0, 0, 0, 0, 0);
      queue := [];
    }

    /** _add_event: a new IDLE event at the end of the list.  `block` is what malloc returned:
        NULL, and nothing is queued, or an address no live event has.  Every event already
        live keeps its place and its contents; only the old tail's link changes. */
    method AddEvent(rnw: bool, dw: bool, addr: bv32, desc: bool, data: bv64, block: Ptr) returns (e: Ptr)
      requires Valid()
      requires block == Null || block !in events
      modifies this
      ensures Valid()
      ensures e == block
      ensures block == Null ==> unchanged(this)
      ensures block != Null ==> events == old(events)[e := Access(rnw, dw, addr, desc, data, Idle)]
      ensures block != Null ==> queue == old(queue) + [e]
      ensures block != Null ==> list == (if old(list) == Null then e else old(list))
      ensures block != Null ==> link == Appended(old(link), old(queue), e)
      ensures unchanged(`flags, `desc)
    {
      e := block;
      if e == Null {
        return;
      }
      var a := Access(rnw, dw, addr, desc, data, Idle);
      var ev, l, h, q := events, link, list, queue;
      AppendKeepsLinked(ev, l, h, q, e, a);
      var l' := l[e := Null];
      if h != Null {
        var tail := FindTail(l, h, q);
        l' := l[tail := e][e := Null];
      }
      events, link, list, queue := ev[e := a], l', if h == Null then e else h, q + [e];
    }

    /** send_mmio: nothing happens when the list is empty or its head is already PENDING.
        Otherwise the head is offered to the AFU, and it becomes PENDING only when the PSL
        interface accepts it (`pslOk`). */
    method SendMmio(pslOk: bool) returns (call: Option<PslCall>)
      requires Valid()
      modifies this
      ensures Valid()
      ensures unchanged(`queue, `list, `link)
      ensures unchanged(`flags, `desc)
      ensures old(list) == Null ==> call == None && unchanged(this)
      ensures old(list) != Null && old(events)[old(list)].state == Pending ==> call == None && unchanged(this)
      ensures old(list) != Null && old(events)[old(list)].state == Idle ==>
        && call == Some(CallFor(old(events)[old(list)]))
        && events == (if pslOk then old(events)[old(list) := old(events)[old(list)].(state := Pending)] else old(events))
    {
      if list == Null || events[list].state == Pending {
        return None;
      }
      var a := events[list];
      call := Some(CallFor(a));
      if pslOk {
        SendKeepsLinked(events, link, list, queue);
        events := events[list := a.(state := Pending)];
      }
    }

    /** handle_mmio_ack.  `acked` is whether psl_get_mmio_acknowledge returned an
        acknowledge, with `readData` and `readParity`; `parity` is generate_parity with odd
        parity, whose body is not part of this model.  An acknowledge without a PENDING head is
        ignored.  Otherwise a read keeps the data (a parity mismatch, when parity is enabled,
        is reported and the data kept all the same), the head becomes DONE and leaves the list. */
    method HandleMmioAck(acked: bool, readData: bv64, readParity: bv32, parityEnabled: bool,
                         parity: bv64 -> bv8) returns (outcome: AckOutcome)
      requires Valid()
      modifies this
      ensures Valid()
      ensures unchanged(`flags, `desc)
      ensures !acked ==> outcome == NoAck
      ensures acked && (old(list) == Null || old(events)[old(list)].state != Pending) ==> outcome == Unexpected
      ensures outcome.NoAck? || outcome.Unexpected? ==>
        unchanged(this)
      ensures acked && old(list) != Null && old(events)[old(list)].state == Pending ==>
        var a := old(events)[old(list)];
        && outcome == Completed(a.rnw && parityEnabled && readParity != parity(readData) as bv32)
        && events == old(events)[old(list) := a.(data := if a.rnw then readData else a.data, state := Done)]
        && queue == old(queue)[1..]
        && list == old(link)[old(list)]
        && link == old(link)
    {
      if !acked {
        return NoAck;
      }
      if list == Null || events[list].state != Pending {
        return Unexpected;
      }
      var head := list;
      var a := events[head];
      var parityError := false;
      if a.rnw {
        if parityEnabled {
          var p := parity(readData);
          if readParity != p as bv32 {
            parityError := true;
          }
        }
        a := a.(data := readData);
      }
      CompleteHead(a.data);
      outcome := Completed(parityError);
    }

    /** The end of handle_mmio_ack (pslse/mmio.c:271-274): the PENDING head, with `data`,
        becomes DONE and the list moves on to its successor. */
    method CompleteHead(data: bv64)
      requires Valid()
      requires list != Null && events[list].state == Pending
      modifies this
      ensures Valid()
      ensures events == old(events)[old(list) := old(events)[old(list)].(data := data, state := Done)]
      ensures list == old(link)[old(list)] && queue == old(queue)[1..]
      ensures unchanged(`link, `flags, `desc)
    {
      AckKeepsLinked(events, link, list, queue, data);
      var head := list;
      events := events[head := events[head].(data := data, state := Done)];
      list := link[head];
      queue := queue[1..];
    }

    /** handle_mmio_map.  `psaRequired` is PSA_REQUIRED; `incoming` is what the client's socket
        still holds, and `rest` what it holds afterwards.  The map fails without reading when
        the descriptor's per-process area does not have the bit set, and fails and drops the
        client when the flags cannot be read.  The flags are decoded with ntohl.  The first
        nonzero flags latch; flags that differ from the latched ones fail and leave them in
        place.  The one-byte answer is put in every case; a failed put drops the client. */
    method HandleMmioMap(ops: Opcodes, psaRequired: bv64, incoming: Bytes, putOk: bool)
      returns (ok: bool, sent: Bytes, dropped: bool, rest: Bytes)
      requires Valid()
      modifies this
      ensures Valid()
      ensures unchanged(`events, `link, `list, `queue, `desc)
      ensures sent == [if ok then ops.mmioAck else ops.mmioFail]
      ensures !PsaRequired(desc, psaRequired) ==>
        !ok && flags == old(flags) && dropped == !putOk && rest == incoming
      ensures PsaRequired(desc, psaRequired) && |incoming| < 4 ==> !ok && flags == old(flags) && dropped && rest == []
      ensures PsaRequired(desc, psaRequired) && |incoming| >= 4 ==>
        var f := FromBe32(incoming[..4]);
        && (ok <==> old(flags) == 0 || old(flags) == f)
        && flags == (if old(flags) == 0 then f else old(flags))
        && dropped == !putOk
        && rest == incoming[4..]
    {
      dropped := false;
      rest := incoming;
      if !PsaRequired(desc, psaRequired) {
        ok := false;
      } else if |incoming| < 4 {
        dropped := true;
        ok := false;
        rest := [];
      } else {
        var f := FromBe32(incoming[..4]);
        rest := incoming[4..];
        ok := true;
        if flags == 0 {
          flags := f;
        } else if flags != f {
          ok := false;
        }
      }
      sent := [if ok then ops.mmioAck else ops.mmioFail];
      if !putOk {
        dropped := true;
      }
    }

    /** _handle_mmio_write: read the offset and the data, then queue the write; a short read
        drops the client, ends the stream and queues nothing. */
    method HandleMmioWrite(dw: bool, incoming: Bytes, block: Ptr) returns (e: Ptr, dropped: bool, rest: Bytes)
      requires Valid()
      requires block == Null || block !in events
      modifies this
      ensures Valid()
      ensures dropped <==> |incoming| < WriteLength(dw)
      ensures dropped ==> e == Null && rest == [] && unchanged(this)
      ensures !dropped ==> e == block && rest == incoming[WriteLength(dw)..]
      ensures !dropped && e != Null ==>
        events == old(events)[e := DecodeWrite(dw, incoming).value] && queue == old(queue) + [e]
      ensures !dropped && e == Null ==> unchanged(this)
      ensures unchanged(`flags, `desc)
    {
      var request := DecodeWrite(dw, incoming);
      if request.None? {
        return Null, true, [];
      }
      var a := request.value;
      e := AddEvent(a.rnw, a.dw, a.addr, a.desc, a.data, block);
      dropped := false;
      rest := incoming[WriteLength(dw)..];
    }

    /** _handle_mmio_read: read the offset, then queue the read. */
    method HandleMmioRead(dw: bool, incoming: Bytes, block: Ptr) returns (e: Ptr, dropped: bool, rest: Bytes)
      requires Valid()
      requires block == Null || block !in events
      modifies this
      ensures Valid()
      ensures dropped <==> |incoming| < 4
      ensures dropped ==> e == Null && rest == [] && unchanged(this)
      ensures !dropped ==> e == block && rest == incoming[4..]
      ensures !dropped && e != Null ==>
        events == old(events)[e := DecodeRead(dw, incoming).value] && queue == old(queue) + [e]
      ensures !dropped && e == Null ==> unchanged(this)
      ensures unchanged(`flags, `desc)
    {
      var request := DecodeRead(dw, incoming);
      if request.None? {
        return Null, true, [];
      }
      var a := request.value;
      e := AddEvent(a.rnw, a.dw, a.addr, a.desc, a.data, block);
      dropped := false;
      rest := incoming[4..];
    }

    /** handle_mmio: a client that is not CLIENT_VALID gets a one-byte failure, and nothing is
        read or queued; otherwise the request is read and queued. */
    method HandleMmio(ops: Opcodes, clientValid: bool, rnw: bool, dw: bool, incoming: Bytes,
                      putOk: bool, block: Ptr) returns (e: Ptr, sent: Bytes, dropped: bool, rest: Bytes)
      requires Valid()
      requires block == Null || block !in events
      modifies this
      ensures Valid()
      ensures unchanged(`flags, `desc)
      ensures !clientValid ==> e == Null && sent == [ops.mmioFail] && dropped == !putOk && rest == incoming
      ensures !clientValid ==> unchanged(this)
      ensures clientValid ==> sent == []
      ensures clientValid ==>
        var request := if rnw then DecodeRead(dw, incoming) else DecodeWrite(dw, incoming);
        var n := if rnw then 4 else WriteLength(dw);
        && (dropped <==> request.None?)
        && (request.None? ==> e == Null && rest == [] && unchanged(this))
        && (request.Some? ==> e == block && rest == incoming[n..])
        && (request.Some? && block != Null ==> events == old(events)[e := request.value] && queue == old(queue) + [e])
    {
      if !clientValid {
        return Null, [ops.mmioFail], !putOk, incoming;
      }
      sent := [];
      if rnw {
        e, dropped, rest := HandleMmioRead(dw, incoming, block);
      } else {
        e, dropped, rest := HandleMmioWrite(dw, incoming, block);
      }
    }

    /** handle_mmio_done for the event a client points at (`access`, NULL when it has none).
        NULL gives NULL; an event not yet DONE is handed back untouched; a DONE event is
        answered to the client and freed, and NULL is returned.  A failed put drops the client. */
    method HandleMmioDone(ops: Opcodes, access: Ptr, putOk: bool) returns (r: Ptr, sent: Bytes, dropped: bool)
      requires Valid()
      requires access == Null || access in events
      modifies this
      ensures Valid()
      ensures unchanged(`queue, `list, `flags, `desc)
      ensures access == Null ==> r == Null && sent == [] && !dropped && unchanged(this)
      ensures access != Null && old(events)[access].state != Done ==>
        r == access && sent == [] && !dropped && unchanged(this)
      ensures access != Null && old(events)[access].state == Done ==>
        && r == Null
        && sent == DoneReply(ops, old(events)[access])
        && dropped == !putOk
        && events == old(events) - {access}
        && link == old(link) - {access}
    {
      if access == Null {
        return Null, [], false;
      }
      if events[access].state != Done {
        return access, [], false;
      }
      sent := DoneReply(ops, events[access]);
      dropped := !putOk;
      FreeKeepsLinked(events, link, list, queue, {access});
      events := events - {access};
      link := link - {access};
      r := Null;
    }

    /** The first half of read_descriptor: the seven doubleword descriptor reads of
        pslse/mmio.c:126-132 queued in turn, written here as one loop over their addresses.
        `block` holds the seven addresses malloc returned; the source dereferences them
        without a NULL check, so they must be real. */
    method QueueDescriptorReads(block: seq<Ptr>) returns (evs: seq<Ptr>)
      requires Valid()
      requires |block| == 7
      requires forall i :: 0 <= i < 7 ==> block[i] != Null && block[i] !in events
      requires forall i, j :: 0 <= i < j < 7 ==> block[i] != block[j]
      modifies this
      ensures Valid()
      ensures evs == block
      ensures queue == old(queue) + evs
      ensures events == Queued(old(events), block, 7)
      ensures unchanged(`flags, `desc)
    {
      evs := [];
      for i := 0 to 7
        invariant Valid()
        invariant evs == block[..i]
        invariant queue == old(queue) + evs
        invariant events == Queued(old(events), block, i)
        invariant forall j :: i <= j < 7 ==> block[j] !in events
        invariant unchanged(`flags, `desc)
      {
        QueueDescriptorRead(i, block[i]);
        PrefixStep(old(queue), block, i);
        evs := evs + [block[i]];
        NotYetQueued(old(events), block, i + 1);
      }
    }

    /** One _add_desc of read_descriptor: the read of descriptor register `i` joins the list. */
    method QueueDescriptorRead(i: nat, block: Ptr)
      requires Valid()
      requires i < 7 && block != Null && block !in events
      modifies this
      ensures Valid()
      ensures events == old(events)[block := DescriptorRead(i)]
      ensures queue == old(queue) + [block]
      ensures unchanged(`flags, `desc)
    {
      var e := AddEvent(true, true, DescriptorWords[i], true, 0, block);
    }

    /** The second half of read_descriptor, once every queued read is DONE (the source
        waits for each in turn): the descriptor is stored, the seven events freed, and the
        descriptor checked; -1 with ENODEV when it is rejected. */
    method CompleteDescriptorRead(evs: seq<Ptr>) returns (rc: int, errno: Option<Errno>)
      requires Valid()
      requires |evs| == 7
      requires forall i :: 0 <= i < 7 ==> evs[i] in events && events[evs[i]].state == Done
      modifies this
      ensures Valid()
      ensures desc == DescriptorFrom(DataOf(old(events), evs))
      ensures events == old(events) - (set i | 0 <= i < 7 :: evs[i])
      ensures errno == CheckDescriptor(desc)
      ensures rc == (if errno.None? then 0 else -1)
      ensures unchanged(`queue, `list, `flags)
    {
      var d := DescriptorFrom(DataOf(events, evs));
      FreeDone(set i | 0 <= i < 7 :: evs[i]);
      desc := d;
      errno := CheckDescriptor(d);
      rc := if errno.None? then 0 else -1;
    }

    /** free() of DONE events: they leave the table and their links with them. */
    method FreeDone(gone: set<Ptr>)
      requires Valid()
      requires forall p :: p in gone ==> p in events && events[p].state == Done
      modifies this
      ensures Valid()
      ensures events == old(events) - gone && link == old(link) - gone
      ensures unchanged(`queue, `list, `flags, `desc)
    {
      FreeKeepsLinked(events, link, list, queue, gone);
      events, link := events - gone, link - gone;
    }
  }
}
