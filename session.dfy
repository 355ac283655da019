/** The libcxl handle (`struct cxl_afu_h`) as a value, and the state changes of the
    poller thread (`_psl_loop`) and of the public calls as functions of it.

    The socket is abstract: bytes the client sends are appended to `sent` (only
    sends that succeed are recorded), and `incoming` is the rest of the byte
    stream from the emulator.  A receive of n bytes fails when the descriptor has
    been closed or fewer than n bytes remain; the stream is then over.  Whether a
    send succeeds is an input of each step.

    The handle's fields are grouped into small records: the session flags, the four
    request slots, the MMIO request, the remaining scalar fields, the event store,
    the application's memory and the socket. */
module CxlSession {
  import opened Wire
  import opened CxlEvents

  /** LIBCXL_REQ_*: the life of one request slot. */
  datatype ReqState = Idle | Request | Pending

  /** The request kind held in `mmio.type`. */
  datatype MmioKind = MapKind | Write64Kind | Write32Kind | Read64Kind | Read32Kind

  /** The result of `bytes_ready` on the socket. */
  datatype Ready = NoData | DataReady | ReadyFailed

  /** The value left in `mmio.data` when an MMIO read fails. */
  const ReadSentinel64: bv64 := 0xFEED_B00F_FEED_B00F
  const ReadSentinel32: bv64 := 0xFEED_B00F

  datatype Flags = Flags(
    isOpen: bool,            // afu->opened
    attached: bool,
    mapped: bool,
    polling: bool)           // the poller thread is still in its loop

  datatype Slots = Slots(open: ReqState, attach: ReqState, mmio: ReqState, intReq: ReqState)

  /** `afu->mmio`: the request kind, the 32-bit offset and the data word. */
  datatype MmioReq = MmioReq(kind: MmioKind, addr: bv32, data: bv64)

  datatype Params = Params(
    wed: bv64,               // attach.wed
    maxReq: bv16,            // int_req.max
    context: Byte,
    irqsMin: bv16,
    irqsMax: bv16)

  /** The application's memory as the AFU sees it, and the addresses the memory probe
      reports as accessible. */
  datatype Memory = Memory(bytes: map<nat, Byte>, valid: set<bv64>)

  /** The client's end of the socket. */
  datatype Link = Link(
    fdOpen: bool,            // false once the client has called close(fd)
    sent: Bytes,
    incoming: Bytes)

  /** `buffer4` is byte 4 of the poller's receive buffer `buffer` (libcxl/libcxl.c:392).  Only
      the 8-byte address receives and memory-write payloads of five bytes or more write it;
      before the first of those it holds whatever the stack held. */
  datatype Session = Session(flags: Flags, slots: Slots, mmio: MmioReq, params: Params,
                             events: Store, memory: Memory, link: Link, buffer4: Byte)

  // ---------------------------------------------------------------------------
  // Socket primitives
  // ---------------------------------------------------------------------------

  /** `put_bytes_silent` succeeds: the caller's flag says so and the descriptor is open. */
  predicate CanSend(l: Link, ok: bool) {
    ok && l.fdOpen
  }

  /** The link after a successful send of `frame`. */
  function Sent(l: Link, frame: Bytes): (r: Link)
    ensures r.fdOpen == l.fdOpen && r.incoming == l.incoming
    ensures |r.sent| == |l.sent| + |frame| && r.sent[..|l.sent|] == l.sent && r.sent[|l.sent|..] == frame
  {
    l.(sent := l.sent + frame)
  }

  /** `get_bytes_silent` of n bytes succeeds: the descriptor is open and n bytes remain. */
  predicate CanTake(l: Link, n: nat) {
    l.fdOpen && n <= |l.incoming|
  }

  /** The n bytes a successful receive delivers. */
  function Next(l: Link, n: nat): (r: Bytes)
    requires CanTake(l, n)
    ensures |r| == n && l.incoming == r + Skip(l, n).incoming
  {
    l.incoming[..n]
  }

  /** The link after a successful receive of n bytes. */
  function Skip(l: Link, n: nat): (r: Link)
    requires CanTake(l, n)
    ensures r.fdOpen == l.fdOpen && r.sent == l.sent && |r.incoming| == |l.incoming| - n
  {
    l.(incoming := l.incoming[n..])
  }

  /** A failed receive: the stream is over. */
  function Over(l: Link): (r: Link)
    ensures r.incoming == [] && r.fdOpen == l.fdOpen && r.sent == l.sent
  {
    l.(incoming := [])
  }

  /** `opened = 0; attached = 0`. */
  function Closed(s: Session): (r: Session)
    ensures !r.flags.isOpen && !r.flags.attached
    ensures r.flags.polling == s.flags.polling
  {
    s.(flags := s.flags.(isOpen := false, attached := false))
  }

  /** A request send that failed: the client also closes the socket. */
  function Dropped(s: Session): (r: Session)
    ensures !r.flags.isOpen && !r.flags.attached && !r.link.fdOpen
    ensures r.flags.polling == s.flags.polling
  {
    Closed(s).(link := s.link.(fdOpen := false))
  }

  // ---------------------------------------------------------------------------
  // Request senders (libcxl/libcxl.c:236-387)
  // ---------------------------------------------------------------------------

  /** `_req_max_int`: on success the 3-byte frame is on the wire and the slot is PENDING;
      on failure the session is dropped, the slot IDLE and the requested count reset. */
  function ReqMaxInt(ops: Opcodes, s: Session, ok: bool): (r: Session)
    ensures r.slots == s.slots.(intReq := if CanSend(s.link, ok) then Pending else Idle)
    ensures CanSend(s.link, ok) ==> r.link.sent == s.link.sent + MaxIntFrame(ops, s.params.maxReq) && r.flags == s.flags
    ensures !CanSend(s.link, ok) ==>
      r.link.sent == s.link.sent && !r.link.fdOpen && !r.flags.isOpen && !r.flags.attached && r.params.maxReq == 0
    ensures r.events == s.events && r.memory == s.memory && r.mmio == s.mmio && r.link.incoming == s.link.incoming
    ensures r.flags.polling == s.flags.polling
  {
    if CanSend(s.link, ok) then s.(link := Sent(s.link, MaxIntFrame(ops, s.params.maxReq)), slots := s.slots.(intReq := Pending))
    else Dropped(s).(slots := s.slots.(intReq := Idle), params := s.params.(maxReq := 0))
  }

  /** `_pslse_attach`: the 9-byte frame carrying the work element descriptor. */
  function PslseAttach(ops: Opcodes, s: Session, ok: bool): (r: Session)
    ensures r.slots == s.slots.(attach := if CanSend(s.link, ok) then Pending else Idle)
    ensures CanSend(s.link, ok) ==> r.link.sent == s.link.sent + AttachFrame(ops, s.params.wed) && r.flags == s.flags
    ensures !CanSend(s.link, ok) ==> r.link.sent == s.link.sent && !r.link.fdOpen && !r.flags.isOpen && !r.flags.attached
    ensures r.events == s.events && r.memory == s.memory && r.mmio == s.mmio && r.params == s.params
    ensures r.link.incoming == s.link.incoming
    ensures r.flags.polling == s.flags.polling
  {
    if CanSend(s.link, ok) then s.(link := Sent(s.link, AttachFrame(ops, s.params.wed)), slots := s.slots.(attach := Pending))
    else Dropped(s).(slots := s.slots.(attach := Idle))
  }

  /** The opcode that starts the frame for each request kind. */
  function MmioOpcode(ops: Opcodes, kind: MmioKind): Byte {
    match kind
    case MapKind => ops.mmioMap
    case Write64Kind => ops.mmioWrite64
    case Write32Kind => ops.mmioWrite32
    case Read64Kind => ops.mmioRead64
    case Read32Kind => ops.mmioRead32
  }

  /** The frame for the MMIO request in the slot: `_mmio_map` sends the low 32 bits of the
      data as flags, `_mmio_write32` the low 32 bits of the data, `_mmio_read` the opcode
      matching the kind.  Every frame but the map carries the offset after the opcode. */
  function MmioFrame(ops: Opcodes, m: MmioReq): (r: Bytes)
    ensures |r| >= 5 && r[0] == MmioOpcode(ops, m.kind)
    ensures m.kind != MapKind ==> FromLe32(r[1..5]) == m.addr
  {
    match m.kind
    case MapKind => MmioMapFrame(ops, (m.data & 0xFFFF_FFFF) as bv32)
    case Write64Kind => MmioWrite64Frame(ops, m.addr, m.data)
    case Write32Kind => MmioWrite32Frame(ops, m.addr, (m.data & 0xFFFF_FFFF) as bv32)
    case Read64Kind => MmioReadFrame(ops.mmioRead64, m.addr)
    case Read32Kind => MmioReadFrame(ops.mmioRead32, m.addr)
  }

  predicate IsRead(kind: MmioKind) {
    kind == Read64Kind || kind == Read32Kind
  }

  /** The `mmio.type` switch of the poller and the sender it selects; a failed read
      send also leaves the 64-bit sentinel in the data field. */
  function SendMmio(ops: Opcodes, s: Session, ok: bool): (r: Session)
    ensures r.slots == s.slots.(mmio := if CanSend(s.link, ok) then Pending else Idle)
    ensures CanSend(s.link, ok) ==> r.link.sent == s.link.sent + MmioFrame(ops, s.mmio) && r.flags == s.flags && r.mmio == s.mmio
    ensures !CanSend(s.link, ok) ==> r.link.sent == s.link.sent && !r.link.fdOpen && !r.flags.isOpen && !r.flags.attached
    ensures !CanSend(s.link, ok) ==>
      r.mmio == s.mmio.(data := if IsRead(s.mmio.kind) then ReadSentinel64 else s.mmio.data)
    ensures r.events == s.events && r.memory == s.memory && r.params == s.params && r.link.incoming == s.link.incoming
    ensures r.flags.polling == s.flags.polling
  {
    if CanSend(s.link, ok) then s.(link := Sent(s.link, MmioFrame(ops, s.mmio)), slots := s.slots.(mmio := Pending))
    else if IsRead(s.mmio.kind) then Dropped(s).(slots := s.slots.(mmio := Idle), mmio := s.mmio.(data := ReadSentinel64))
    else Dropped(s).(slots := s.slots.(mmio := Idle))
  }

  /** The three request tests at the top of a poller iteration: a slot in REQUEST is
      sent, any other slot is left alone. */
  function PollInt(ops: Opcodes, s: Session, ok: bool): (r: Session)
    ensures s.slots.intReq != Request ==> r == s
    ensures r.events == s.events && r.memory == s.memory && r.params.context == s.params.context
    ensures r.slots.attach == s.slots.attach && r.slots.mmio == s.slots.mmio && r.slots.intReq != Request
    ensures r.flags.polling == s.flags.polling
  {
    if s.slots.intReq == Request then ReqMaxInt(ops, s, ok) else s
  }

  function PollAttach(ops: Opcodes, s: Session, ok: bool): (r: Session)
    ensures s.slots.attach != Request ==> r == s
    ensures r.events == s.events && r.memory == s.memory && r.params == s.params
    ensures r.slots.intReq == s.slots.intReq && r.slots.mmio == s.slots.mmio && r.slots.attach != Request
    ensures r.flags.polling == s.flags.polling
  {
    if s.slots.attach == Request then PslseAttach(ops, s, ok) else s
  }

  function PollMmio(ops: Opcodes, s: Session, ok: bool): (r: Session)
    ensures s.slots.mmio != Request ==> r == s
    ensures r.events == s.events && r.memory == s.memory && r.params == s.params
    ensures r.slots.intReq == s.slots.intReq && r.slots.attach == s.slots.attach && r.slots.mmio != Request
    ensures r.flags.polling == s.flags.polling
  {
    if s.slots.mmio == Request then SendMmio(ops, s, ok) else s
  }

  /** The first half of a poller iteration: every slot in REQUEST is sent, in the order
      int_req, attach, mmio; afterwards no slot is in REQUEST. */
  function SendRequests(ops: Opcodes, s: Session, intOk: bool, attachOk: bool, mmioOk: bool): (r: Session)
    ensures r.events == s.events && r.memory == s.memory && r.params.context == s.params.context
    ensures r.slots.intReq != Request && r.slots.attach != Request && r.slots.mmio != Request
    ensures r.slots.open == s.slots.open && r.flags.polling == s.flags.polling
  {
    PollMmio(ops, PollAttach(ops, PollInt(ops, s, intOk), attachOk), mmioOk)
  }

  /** Three requests sent in one iteration reach the wire back to back, in slot order. */
  lemma {:induction false} SendRequestsInOrder(ops: Opcodes, s: Session)
    requires s.link.fdOpen
    requires s.slots.intReq == Request && s.slots.attach == Request && s.slots.mmio == Request
    ensures var r := SendRequests(ops, s, true, true, true);
      && r.link.sent == s.link.sent + MaxIntFrame(ops, s.params.maxReq) + AttachFrame(ops, s.params.wed) + MmioFrame(ops, s.mmio)
      && r.slots.intReq == Pending && r.slots.attach == Pending && r.slots.mmio == Pending
  {
    var s1 := PollInt(ops, s, true);
    var s2 := PollAttach(ops, s1, true);
    assert s2.link.sent == s.link.sent + MaxIntFrame(ops, s.params.maxReq) + AttachFrame(ops, s.params.wed);
  }

  /** Once a send has failed, the socket is closed and every later request of the same
      iteration fails too: the slots go back to IDLE and nothing more is sent. */
  lemma {:induction false} FailedSendFailsTheRest(ops: Opcodes, s: Session, attachOk: bool, mmioOk: bool)
    requires s.slots.intReq == Request && s.slots.attach == Request && s.slots.mmio == Request
    ensures var r := SendRequests(ops, s, false, attachOk, mmioOk);
      && r.slots.intReq == Idle && r.slots.attach == Idle && r.slots.mmio == Idle
      && r.link.sent == s.link.sent && !r.flags.isOpen && !r.link.fdOpen
  {
    var s1 := PollInt(ops, s, false);
    assert !s1.link.fdOpen && s1.link.sent == s.link.sent;
    var s2 := PollAttach(ops, s1, attachOk);
    assert !s2.link.fdOpen && s2.link.sent == s.link.sent;
  }

  // ---------------------------------------------------------------------------
  // Handlers for emulator messages (libcxl/libcxl.c:78-234)
  // ---------------------------------------------------------------------------

  /** `size` bytes of application memory starting at `addr`; a byte never written reads as 0. */
  function ReadBytes(memory: map<nat, Byte>, addr: nat, size: nat): (r: Bytes)
    ensures |r| == size
    decreases size
  {
    if size == 0 then []
    else [if addr in memory then memory[addr] else 0] + ReadBytes(memory, addr + 1, size - 1)
  }

  /** `memcpy` of `data` into application memory at `addr`. */
  function WriteBytes(memory: map<nat, Byte>, addr: nat, data: Bytes): (r: map<nat, Byte>)
    decreases |data|
  {
    if |data| == 0 then memory
    else WriteBytes(memory[addr := data[0]], addr + 1, data[1..])
  }

  /** Addresses outside the written range keep their contents. */
  lemma {:induction false} WriteBytesOutside(memory: map<nat, Byte>, addr: nat, data: Bytes, b: nat)
    requires b < addr || addr + |data| <= b
    ensures (b in WriteBytes(memory, addr, data)) == (b in memory)
    ensures b in memory ==> WriteBytes(memory, addr, data)[b] == memory[b]
    decreases |data|
  {
    if |data| > 0 {
      WriteBytesOutside(memory[addr := data[0]], addr + 1, data[1..], b);
    }
  }

  /** A MEMORY_WRITE followed by a MEMORY_READ of the same range returns the written bytes. */
  lemma {:induction false} WriteThenRead(memory: map<nat, Byte>, addr: nat, data: Bytes)
    ensures ReadBytes(WriteBytes(memory, addr, data), addr, |data|) == data
    decreases |data|
  {
    if |data| > 0 {
      var m1 := memory[addr := data[0]];
      WriteThenRead(m1, addr + 1, data[1..]);
      WriteBytesOutside(m1, addr + 1, data[1..], addr);
    }
  }

  /** A reply to a memory request that could not be delivered drops the session
      (without closing the socket). */
  function Reply(s: Session, frame: Bytes, ok: bool): (r: Session)
    ensures CanSend(s.link, ok) ==> r.link.sent == s.link.sent + frame && r.flags == s.flags
    ensures !CanSend(s.link, ok) ==> r.link == s.link && !r.flags.isOpen && !r.flags.attached
    ensures r.link.incoming == s.link.incoming && r.link.fdOpen == s.link.fdOpen
    ensures r.events == s.events && r.memory == s.memory && r.slots == s.slots && r.mmio == s.mmio && r.params == s.params
    ensures r.flags.polling == s.flags.polling
  {
    if CanSend(s.link, ok) then s.(link := Sent(s.link, frame)) else Closed(s)
  }

  /** `_handle_dsi` applied to the session's store. */
  function Fault(s: Session, addr: bv64, cell: Ptr): (r: Session)
    requires Fresh(s.events, cell)
    ensures Wf(s.events) ==> Wf(r.events)
    ensures r.flags.polling == s.flags.polling
  {
    s.(events := RecordFault(s.events, s.params.context, addr, cell))
  }

  /** The reply to MEMORY_READ: MEM_SUCCESS and the `size` bytes at a probed address,
      MEM_FAILURE alone otherwise. */
  function ReadReply(success: Byte, failure: Byte, memory: Memory, addr: bv64, size: nat): (r: Bytes)
    ensures addr in memory.valid ==>
      |r| > 0 && r[0] == success && r[1..] == ReadBytes(memory.bytes, addr as nat, size)
    ensures addr !in memory.valid ==> r == [failure]
  {
    if addr !in memory.valid then [failure]
    else
      var data := ReadBytes(memory.bytes, addr as nat, size);
      assert ([success] + data)[1..] == data;
      [success] + data
  }

  /** `_handle_read`: a probed address answers MEM_SUCCESS followed by the bytes; otherwise
      the fault is recorded and MEM_FAILURE is sent. */
  function HandleRead(ops: Opcodes, s: Session, addr: bv64, size: Byte, ok: bool, cell: Ptr): (r: Session)
    requires Fresh(s.events, cell)
    ensures r.events == if addr in s.memory.valid then s.events else RecordFault(s.events, s.params.context, addr, cell)
    ensures CanSend(s.link, ok) ==>
      r.link.sent == s.link.sent + ReadReply(ops.memSuccess, ops.memFailure, s.memory, addr, size as nat)
    ensures !CanSend(s.link, ok) ==> !r.flags.isOpen && !r.flags.attached
    ensures r.memory == s.memory && r.link.incoming == s.link.incoming
    ensures Wf(s.events) ==> Wf(r.events)
    ensures r.flags.polling == s.flags.polling
  {
    Reply(if addr in s.memory.valid then s else Fault(s, addr, cell), ReadReply(ops.memSuccess, ops.memFailure, s.memory, addr, size as nat), ok)
  }

  /** `_handle_write`. */
  function HandleWrite(ops: Opcodes, s: Session, addr: bv64, data: Bytes, ok: bool, cell: Ptr): (r: Session)
    requires Fresh(s.events, cell)
    ensures r.events == if addr in s.memory.valid then s.events else RecordFault(s.events, s.params.context, addr, cell)
    ensures r.memory.bytes == if addr in s.memory.valid then WriteBytes(s.memory.bytes, addr as nat, data) else s.memory.bytes
    ensures CanSend(s.link, ok) ==> r.link.sent == s.link.sent + [if addr in s.memory.valid then ops.memSuccess else ops.memFailure]
    ensures !CanSend(s.link, ok) ==> !r.flags.isOpen && !r.flags.attached
    ensures r.memory.valid == s.memory.valid && r.link.incoming == s.link.incoming && r.buffer4 == s.buffer4
    ensures Wf(s.events) ==> Wf(r.events)
    ensures r.flags.polling == s.flags.polling
  {
    if addr !in s.memory.valid then Reply(Fault(s, addr, cell), [ops.memFailure], ok)
    else Reply(s.(memory := s.memory.(bytes := WriteBytes(s.memory.bytes, addr as nat, data))), [ops.memSuccess], ok)
  }

  /** `_handle_touch`. */
  function HandleTouch(ops: Opcodes, s: Session, addr: bv64, ok: bool, cell: Ptr): (r: Session)
    requires Fresh(s.events, cell)
    ensures r.events == if addr in s.memory.valid then s.events else RecordFault(s.events, s.params.context, addr, cell)
    ensures CanSend(s.link, ok) ==> r.link.sent == s.link.sent + [if addr in s.memory.valid then ops.memSuccess else ops.memFailure]
    ensures !CanSend(s.link, ok) ==> !r.flags.isOpen && !r.flags.attached
    ensures r.memory == s.memory && r.link.incoming == s.link.incoming
    ensures Wf(s.events) ==> Wf(r.events)
    ensures r.flags.polling == s.flags.polling
  {
    if addr !in s.memory.valid then Reply(Fault(s, addr, cell), [ops.memFailure], ok)
    else Reply(s, [ops.memSuccess], ok)
  }

  /** `_handle_ack`: a READ64 ack carries 8 little-endian bytes, a READ32 ack 4, other
      kinds none.  A failed receive drops the session and leaves the sentinel.  The slot
      ends IDLE in every case. */
  function HandleAck(s: Session): (r: Session)
    ensures r.slots == s.slots.(mmio := Idle) && r.events == s.events && r.mmio.kind == s.mmio.kind
    ensures s.mmio.kind == Read64Kind && CanTake(s.link, 8) ==>
      Le64(r.mmio.data) == s.link.incoming[..8] && r.link.incoming == s.link.incoming[8..] && r.flags == s.flags
    ensures s.mmio.kind == Read32Kind && CanTake(s.link, 4) ==>
      r.mmio.data >> 32 == 0 && Le32(r.mmio.data as bv32) == s.link.incoming[..4]
      && r.link.incoming == s.link.incoming[4..] && r.flags == s.flags
    ensures s.mmio.kind == Read64Kind && !CanTake(s.link, 8) ==>
      !r.flags.isOpen && !r.flags.attached && r.mmio.data == ReadSentinel64 && r.link.incoming == []
    ensures s.mmio.kind == Read32Kind && !CanTake(s.link, 4) ==>
      !r.flags.isOpen && !r.flags.attached && r.mmio.data == ReadSentinel32 && r.link.incoming == []
    ensures !IsRead(s.mmio.kind) ==> r == s.(slots := s.slots.(mmio := Idle))
    ensures r.flags.polling == s.flags.polling
  {
    var s' := s.(slots := s.slots.(mmio := Idle));
    if s.mmio.kind == Read64Kind then
      if CanTake(s.link, 8) then s'.(link := Skip(s.link, 8), mmio := s.mmio.(data := FromLe64(Next(s.link, 8))))
      else Closed(s').(link := Over(s.link), mmio := s.mmio.(data := ReadSentinel64))
    else if s.mmio.kind == Read32Kind then
      if CanTake(s.link, 4) then s'.(link := Skip(s.link, 4), mmio := s.mmio.(data := FromLe32(Next(s.link, 4)) as bv64))
      else Closed(s').(link := Over(s.link), mmio := s.mmio.(data := ReadSentinel32))
    else s'
  }

  /** `_handle_interrupt`: the frame's four payload bytes are always consumed; the first two
      are the interrupt number, little-endian. */
  function HandleInterrupt(s: Session, cell: Ptr): (r: Session)
    requires Fresh(s.events, cell)
    ensures CanTake(s.link, 4) ==>
      && r.link.incoming == s.link.incoming[4..] && r.flags == s.flags
      && r.events == RecordInterrupt(s.events, s.params.context, FromLe16(s.link.incoming[..2]), cell)
    ensures !CanTake(s.link, 4) ==> r.link.incoming == [] && !r.flags.isOpen && !r.flags.attached && r.events == s.events
    ensures r.slots == s.slots && r.mmio == s.mmio && r.memory == s.memory
    ensures Wf(s.events) ==> Wf(r.events)
    ensures r.flags.polling == s.flags.polling
  {
    if !CanTake(s.link, 4) then Closed(s).(link := Over(s.link))
    else s.(link := Skip(s.link, 4), events := RecordInterrupt(s.events, s.params.context, FromLe16(Next(s.link, 4)[..2]), cell))
  }

  /** What a receive of `n` bytes into a buffer of `room` bytes does: it fails when the
      link cannot supply them (touching nothing, in this model), and it writes past the
      buffer's end when `n` exceeds `room`, which C leaves undefined. */
  datatype Receipt = Received(bytes: Bytes, link: Link) | Short | Overrun

  function ReceiveInto(l: Link, n: nat, room: nat): (r: Receipt)
    ensures r.Short? <==> !CanTake(l, n)
    ensures r.Overrun? <==> CanTake(l, n) && n > room
    ensures r.Received? ==> n <= room && l.incoming == r.bytes + r.link.incoming && |r.bytes| == n
    ensures r.Received? ==> r.link.fdOpen == l.fdOpen && r.link.sent == l.sent
  {
    if !CanTake(l, n) then Short
    else if n > room then Overrun
    else Received(Next(l, n), Skip(l, n))
  }

  /** `_handle_interrupt` as written receives the frame's four payload bytes into the
      two-byte `data`, so every interrupt the link delivers overruns it.  `HandleInterrupt`
      is that receive into a buffer of the payload's size. */
  lemma InterruptReceiveOverruns(s: Session, cell: Ptr)
    requires Fresh(s.events, cell) && CanTake(s.link, 4)
    ensures ReceiveInto(s.link, 4, 2) == Overrun
    ensures ReceiveInto(s.link, 4, 4) == Received(s.link.incoming[..4], HandleInterrupt(s, cell).link)
  {
  }

  /** The QUERY reply: four bytes, the minimum then the maximum interrupt count,
      each little-endian.  (The source decodes other offsets; see `QueryAsWritten`.) */
  function DecodeQuery(payload: Bytes): (r: (bv16, bv16))
    requires |payload| == 4
    ensures Le16(r.0) + Le16(r.1) == payload
  {
    (FromLe16(payload[..2]), FromLe16(payload[2..]))
  }

  /** The QUERY case as written: the four bytes land in buffer[0..3], but the minimum is
      taken from buffer[1..2] and the maximum from buffer[3..4], so the maximum's high
      byte is whatever an earlier receive left in buffer[4]. */
  function QueryAsWritten(payload: Bytes, stale4: Byte): (r: (bv16, bv16))
    requires |payload| == 4
    ensures Le16(r.0) == payload[1..3] && Le16(r.1) == [payload[3], stale4]
  {
    (FromLe16(payload[1..3]), FromLe16([payload[3], stale4]))
  }

  /** The emulator reports minimum 1 and maximum 2: the code as written reads 512 and a
      maximum that depends on an unrelated earlier byte. */
  lemma QueryAsWrittenMisreads(stale4: Byte)
    ensures DecodeQuery([1, 0, 2, 0]) == (1, 2)
    ensures QueryAsWritten([1, 0, 2, 0], stale4) == (0x0200, (stale4 as bv16) << 8)
  {
    var r := QueryAsWritten([1, 0, 2, 0], stale4);
    assert Le16(r.0) == [0, 2];
    assert Le16(r.1) == [0, stale4];
  }

  // ---------------------------------------------------------------------------
  // One poller iteration (libcxl/libcxl.c:389-546)
  // ---------------------------------------------------------------------------

  /** The inputs of one iteration that the model does not compute: the outcome of each
      send, what `bytes_ready` reports, and the address an allocation would return. */
  datatype TickInput = TickInput(intOk: bool, attachOk: bool, mmioOk: bool, ready: Ready, replyOk: bool, cell: Ptr)

  /** Leaving the loop: a socket error, or the loop test finding the session closed. */
  function StopPolling(s: Session): (r: Session)
    ensures !r.flags.polling && !r.flags.attached
  {
    s.(flags := s.flags.(polling := false, attached := false))
  }

  /** A receive in the dispatch that fails: the session is marked closed. */
  function Lost(s: Session): (r: Session)
    ensures !r.flags.isOpen && r.link.incoming == []
    ensures r.flags.polling == s.flags.polling
  {
    s.(link := Over(s.link), flags := s.flags.(isOpen := false))
  }

  /** The opcodes the client's receive switch has a case for. */
  predicate Handled(ops: Opcodes, op: Byte) {
    op in {ops.open, ops.attach, ops.detach, ops.maxInt, ops.query, ops.memoryRead, ops.memoryWrite,
           ops.memoryTouch, ops.mmioAck, ops.interrupt}
  }

  /** The opcodes of the dispatch that only update the handle's own fields. */
  predicate IsControl(ops: Opcodes, op: Byte) {
    op in {ops.open, ops.attach, ops.detach, ops.maxInt, ops.query}
  }

  /** The cases OPEN, ATTACH, DETACH, MAX_INT and QUERY of the dispatch. */
  function Control(ops: Opcodes, s: Session, op: Byte): (r: Session)
    ensures !IsControl(ops, op) ==> r == s
    ensures r.events == s.events && r.memory == s.memory && r.buffer4 == s.buffer4
    ensures ops.InboundDistinct() && op == ops.query ==> r == QueryReply(s)
    ensures r.flags.polling == s.flags.polling
  {
    if op == ops.open then
      if CanTake(s.link, 1) then
        s.(link := Skip(s.link, 1), params := s.params.(context := Next(s.link, 1)[0]), slots := s.slots.(open := Idle))
      else Lost(s).(slots := s.slots.(open := Idle))
    else if op == ops.attach then s.(slots := s.slots.(attach := Idle))
    else if op == ops.detach then s.(flags := s.flags.(attached := false))
    else if op == ops.maxInt then
      if CanTake(s.link, 2) then
        s.(link := Skip(s.link, 2), params := s.params.(irqsMax := FromLe16(Next(s.link, 2))), slots := s.slots.(intReq := Idle))
      else Lost(s)
    else if op == ops.query then QueryReply(s)
    else s
  }

  /** The QUERY case: four bytes into buffer[0..3], decoded as the source decodes them. */
  function QueryReply(s: Session): (r: Session)
    ensures CanTake(s.link, 4) ==>
      && (r.params.irqsMin, r.params.irqsMax) == QueryAsWritten(s.link.incoming[..4], s.buffer4)
      && r.link.incoming == s.link.incoming[4..] && r.flags == s.flags
    ensures !CanTake(s.link, 4) ==> !r.flags.isOpen && r.link.incoming == [] && r.params == s.params
    ensures r.events == s.events && r.memory == s.memory && r.buffer4 == s.buffer4 && r.slots == s.slots
    ensures r.flags.polling == s.flags.polling
  {
    if CanTake(s.link, 4) then
      var q := QueryAsWritten(Next(s.link, 4), s.buffer4);
      s.(link := Skip(s.link, 4), params := s.params.(irqsMin := q.0, irqsMax := q.1))
    else Lost(s)
  }

  /** The dispatch on the opcode byte, after it has been received.  An opcode outside the
      switch is ignored. */
  function Dispatch(ops: Opcodes, s: Session, op: Byte, replyOk: bool, cell: Ptr): (r: Session)
    requires Fresh(s.events, cell)
    ensures Wf(s.events) ==> Wf(r.events)
    ensures !Handled(ops, op) ==> r == s
    ensures r.flags.polling == s.flags.polling
  {
    if IsControl(ops, op) then Control(ops, s, op)
    else if op == ops.memoryRead || op == ops.memoryWrite || op == ops.memoryTouch then
      MemoryRequest(ops, s, op, replyOk, cell)
    else if op == ops.mmioAck then HandleAck(s)
    else if op == ops.interrupt then HandleInterrupt(s, cell)
    else s
  }

  /** MEMORY_READ / MEMORY_WRITE / MEMORY_TOUCH: a size byte and a little-endian 64-bit
      address, then the handler.  The address lands in buffer[0..7]. */
  function MemoryRequest(ops: Opcodes, s: Session, op: Byte, replyOk: bool, cell: Ptr): (r: Session)
    requires Fresh(s.events, cell)
    ensures Wf(s.events) ==> Wf(r.events)
    ensures r.flags.polling == s.flags.polling
  {
    if !CanTake(s.link, 1) then Lost(s)
    else
      var l1 := Skip(s.link, 1);
      if !CanTake(l1, 8) then Lost(s.(link := l1))
      else MemoryAccess(ops, s.(link := Skip(l1, 8), buffer4 := Next(l1, 8)[4]), op, Next(s.link, 1)[0],
                        FromLe64(Next(l1, 8)), replyOk, cell)
  }

  /** The memory request once its header is in: a write first receives its `size`
      payload bytes, into buffer[0..size-1]. */
  function MemoryAccess(ops: Opcodes, s: Session, op: Byte, size: Byte, addr: bv64, replyOk: bool, cell: Ptr): (r: Session)
    requires Fresh(s.events, cell)
    ensures Wf(s.events) ==> Wf(r.events)
    ensures r.flags.polling == s.flags.polling
  {
    if op == ops.memoryRead then HandleRead(ops, s, addr, size, replyOk, cell)
    else if op == ops.memoryWrite then MemoryWrite(ops, s, size, addr, replyOk, cell)
    else HandleTouch(ops, s, addr, replyOk, cell)
  }

  /** MEMORY_WRITE once its header is in: the `size` payload bytes land in buffer[0..size-1],
      so a payload of five bytes or more leaves its byte 4 behind. */
  function MemoryWrite(ops: Opcodes, s: Session, size: Byte, addr: bv64, replyOk: bool, cell: Ptr): (r: Session)
    requires Fresh(s.events, cell)
    ensures Wf(s.events) ==> Wf(r.events)
    ensures !CanTake(s.link, size as nat) ==> !r.flags.isOpen && r.link.incoming == [] && r.memory == s.memory
    ensures CanTake(s.link, size as nat) ==>
      r.buffer4 == if size >= 5 then s.link.incoming[4] else s.buffer4
    ensures r.flags.polling == s.flags.polling
  {
    if !CanTake(s.link, size as nat) then Lost(s)
    else
      var payload := Next(s.link, size as nat);
      HandleWrite(ops, s.(link := Skip(s.link, size as nat), buffer4 := if size >= 5 then payload[4] else s.buffer4),
                  addr, payload, replyOk, cell)
  }

  /** The second half of an iteration: poll the socket, then read and dispatch one message.
      A socket error, or no opcode byte, ends the session and the loop. */
  function Receive(ops: Opcodes, s: Session, ready: Ready, replyOk: bool, cell: Ptr): (r: Session)
    requires Fresh(s.events, cell)
    ensures ready == NoData ==> r == s
    ensures ready == ReadyFailed || (ready == DataReady && !CanTake(s.link, 1)) ==>
      !r.flags.polling && !r.flags.isOpen && !r.flags.attached && !r.flags.mapped
    ensures s.flags.polling && !r.flags.polling ==> !r.flags.attached
    ensures Wf(s.events) ==> Wf(r.events)
  {
    match ready
    case NoData => s
    case ReadyFailed => StopPolling(s.(flags := Flags(false, false, false, s.flags.polling)))
    case DataReady =>
      if !CanTake(s.link, 1) then StopPolling(s.(link := Over(s.link), flags := Flags(false, false, false, s.flags.polling)))
      else Dispatch(ops, s.(link := Skip(s.link, 1)), Next(s.link, 1)[0], replyOk, cell)
  }

  /** One pass of `while (afu->opened) { ... }`, starting with the loop test.  A stopped
      poller does nothing more, and a poller leaving the loop clears `attached`. */
  function Tick(ops: Opcodes, s: Session, input: TickInput): (r: Session)
    requires Fresh(s.events, input.cell)
    ensures !s.flags.polling ==> r == s
    ensures s.flags.polling && !s.flags.isOpen ==> !r.flags.polling && !r.flags.attached
    ensures !r.flags.polling ==> !r.flags.attached || r == s
    ensures Wf(s.events) ==> Wf(r.events)
  {
    if !s.flags.polling then s
    else if !s.flags.isOpen then StopPolling(s)
    else Receive(ops, SendRequests(ops, s, input.intOk, input.attachOk, input.mmioOk), input.ready, input.replyOk, input.cell)
  }

  /** An allocation choice for a run of iterations: the address after both slots.  In a
      well-formed store every live event is one of the slots, so it is free. */
  function Alloc(st: Store): (cell: Ptr)
    ensures Wf(st) ==> Fresh(st, cell)
  {
    (if st.irq < st.dsi then st.dsi else st.irq) + 1
  }

  /** The poller thread over a finite sequence of iterations, stopping early when it leaves
      its loop; each iteration allocates with `Alloc`. */
  function Run(ops: Opcodes, s: Session, inputs: seq<TickInput>): (r: Session)
    requires Wf(s.events)
    ensures Wf(r.events)
    ensures !s.flags.polling ==> r == s
    ensures s.flags.polling && !r.flags.polling ==> !r.flags.attached
    decreases |inputs|
  {
    if |inputs| == 0 || !s.flags.polling then s
    else Run(ops, Tick(ops, s, inputs[0].(cell := Alloc(s.events))), inputs[1..])
  }

  /** Running two stretches of iterations one after the other is running their concatenation. */
  lemma {:induction false} RunAppend(ops: Opcodes, s: Session, a: seq<TickInput>, b: seq<TickInput>)
    requires Wf(s.events)
    ensures Run(ops, s, a + b) == Run(ops, Run(ops, s, a), b)
    decreases |a|
  {
    if |a| > 0 && s.flags.polling {
      assert (a + b)[0] == a[0];
      assert (a + b)[1..] == a[1..] + b;
      RunAppend(ops, Tick(ops, s, a[0].(cell := Alloc(s.events))), a[1..], b);
    } else if |a| == 0 {
      assert a + b == b;
    }
  }

  /** A session that was closed ends the poller at its next loop test, detached. */
  lemma ClosedSessionStopsPoller(ops: Opcodes, s: Session, inputs: seq<TickInput>)
    requires Wf(s.events) && s.flags.polling && !s.flags.isOpen && |inputs| > 0
    ensures var r := Run(ops, s, inputs); !r.flags.polling && !r.flags.attached
  {
  }

  // ---------------------------------------------------------------------------
  // Public calls, split at their wait for the poller (libcxl/libcxl.c:1137-1403)
  // ---------------------------------------------------------------------------

  datatype Status = Success | NoDevice | InvalidArgument

  /** `cxl_afu_attach_full` up to its wait: request the interrupt count. */
  function AttachFullBegin(s: Session, numInterrupts: bv16): (r: Session)
    ensures r.slots == s.slots.(intReq := Request) && r.params == s.params.(maxReq := numInterrupts)
    ensures r.flags == s.flags && r.link == s.link && r.mmio == s.mmio
  {
    s.(params := s.params.(maxReq := numInterrupts), slots := s.slots.(intReq := Request))
  }

  /** `cxl_afu_attach` up to its wait. */
  function AttachBegin(s: Session, wed: bv64): (r: (Status, Session))
    ensures r.0 == NoDevice <==> !s.flags.isOpen || s.flags.attached
    ensures r.0 != InvalidArgument
    ensures r.0 == NoDevice ==> r.1 == s
    ensures r.0 == Success ==> r.1.slots == s.slots.(attach := Request) && r.1.params == s.params.(wed := wed)
    ensures r.1.flags == s.flags && r.1.link == s.link && r.1.mmio == s.mmio && r.1.events == s.events
  {
    if !s.flags.isOpen || s.flags.attached then (NoDevice, s)
    else (Success, s.(slots := s.slots.(attach := Request), params := s.params.(wed := wed)))
  }

  /** `cxl_afu_attach` after the attach slot is IDLE again: attached, and 0 in every case. */
  function AttachComplete(s: Session): (r: Session)
    requires s.slots.attach == Idle
    ensures r.flags == s.flags.(attached := true) && r.slots == s.slots && r.link == s.link
  {
    s.(flags := s.flags.(attached := true))
  }

  /** `cxl_mmio_map` up to its wait; `allowedFlags` is CXL_MMIO_FLAGS. */
  function MapBegin(s: Session, flags: bv32, allowedFlags: bv32): (r: (Status, Session))
    ensures r.0 == NoDevice <==> !s.flags.isOpen || !s.flags.attached || flags & !allowedFlags != 0
    ensures r.0 != InvalidArgument
    ensures r.0 == NoDevice ==> r.1 == s
    ensures r.0 == Success ==>
      r.1.mmio == MmioReq(MapKind, s.mmio.addr, flags as bv64) && r.1.slots == s.slots.(mmio := Request)
    ensures r.1.flags == s.flags && r.1.link == s.link && r.1.events == s.events
  {
    if !s.flags.isOpen || !s.flags.attached || flags & !allowedFlags != 0 then (NoDevice, s)
    else (Success, s.(mmio := s.mmio.(kind := MapKind, data := flags as bv64), slots := s.slots.(mmio := Request)))
  }

  /** `cxl_mmio_map` after the wait: mapped, and 0 in every case. */
  function MapComplete(s: Session): (r: Session)
    requires s.slots.mmio == Idle
    ensures r.flags == s.flags.(mapped := true) && r.slots == s.slots && r.link == s.link
  {
    s.(flags := s.flags.(mapped := true))
  }

  /** The checks shared by the four MMIO calls: the offset must be 8-byte aligned (EINVAL,
      checked first) and the handle mapped (ENODEV); the slot is then set up with the
      offset truncated to 32 bits.  Reads leave the data field as it was. */
  function MmioBegin(s: Session, kind: MmioKind, offset: bv64, data: bv64): (r: (Status, Session))
    requires kind != MapKind
    ensures offset & 7 != 0 ==> r == (InvalidArgument, s)
    ensures offset & 7 == 0 && !s.flags.mapped ==> r == (NoDevice, s)
    ensures r.0 == Success <==> offset & 7 == 0 && s.flags.mapped
    ensures r.0 == Success ==>
      && r.1.slots == s.slots.(mmio := Request) && r.1.mmio.kind == kind
      && r.1.mmio.addr as bv64 == offset & 0xFFFF_FFFF
      && r.1.mmio.data == (if IsRead(kind) then s.mmio.data else data)
    ensures r.1.flags == s.flags && r.1.link == s.link && r.1.events == s.events && r.1.params == s.params
  {
    if offset & 7 != 0 then (InvalidArgument, s)
    else if !s.flags.mapped then (NoDevice, s)
    else
      var addr := (offset & 0xFFFF_FFFF) as bv32;
      var m := if IsRead(kind) then MmioReq(kind, addr, s.mmio.data) else MmioReq(kind, addr, data);
      (Success, s.(mmio := m, slots := s.slots.(mmio := Request)))
  }

  /** After the wait: a session dropped meanwhile turns the call into ENODEV. */
  function MmioComplete(s: Session): (r: Status)
    requires s.slots.mmio == Idle
    ensures r == Success <==> s.flags.isOpen
    ensures r != InvalidArgument
  {
    if s.flags.isOpen then Success else NoDevice
  }

  /** `*data = (uint32_t) afu->mmio.data` of a 32-bit read. */
  function ReadResult32(s: Session): (r: bv32)
    ensures r as bv64 == s.mmio.data & 0xFFFF_FFFF
  {
    (s.mmio.data & 0xFFFF_FFFF) as bv32
  }

  // ---------------------------------------------------------------------------
  // Properties across steps
  // ---------------------------------------------------------------------------

  /** A mapped handle accepts an aligned 64-bit write, and the next iteration with a
      working socket puts the 13-byte frame with the truncated offset and the data on
      the wire and leaves the slot PENDING. */
  lemma {:induction false} WriteReachesWire(ops: Opcodes, s: Session, offset: bv64, data: bv64)
    requires s.flags.mapped && s.link.fdOpen && offset & 7 == 0
    requires s.slots.intReq != Request && s.slots.attach != Request
    ensures var (st, s1) := MmioBegin(s, Write64Kind, offset, data);
      var r := SendRequests(ops, s1, true, true, true);
      && st == Success
      && r.link.sent == s.link.sent + MmioWrite64Frame(ops, (offset & 0xFFFF_FFFF) as bv32, data)
      && r.slots.mmio == Pending
  {
    var (st, s1) := MmioBegin(s, Write64Kind, offset, data);
    assert s1.mmio == MmioReq(Write64Kind, (offset & 0xFFFF_FFFF) as bv32, data);
    var s2 := PollAttach(ops, PollInt(ops, s1, true), true);
    assert s2 == s1;
  }

  /** An MMIO ack for a pending 64-bit read, received by a poller iteration, completes the
      read with the value the emulator encoded and consumes exactly the frame. */
  lemma {:induction false} ReadAckRoundTrip(ops: Opcodes, s: Session, v: bv64, rest: Bytes, replyOk: bool, cell: Ptr)
    requires ops.InboundDistinct() && Fresh(s.events, cell)
    requires s.mmio.kind == Read64Kind && s.link.fdOpen
    requires s.link.incoming == [ops.mmioAck] + Le64(v) + rest
    ensures var r := Receive(ops, s, DataReady, replyOk, cell);
      r.mmio.data == v && r.slots.mmio == Idle && r.link.incoming == rest && r.flags == s.flags
  {
    var s1 := s.(link := Skip(s.link, 1));
    assert Next(s.link, 1)[0] == ops.mmioAck;
    assert s1.link.incoming == Le64(v) + rest;
    var r := HandleAck(s1);
    assert s1.link.incoming[..8] == Le64(v);
    LeRoundTrip(0, 0, v);
    assert Le64(r.mmio.data) == Le64(v);
    assert FromLe64(Le64(r.mmio.data)) == FromLe64(Le64(v));
    assert r.link.incoming == rest;
  }

  /** An interrupt frame received with the `irq` slot empty stores the little-endian
      interrupt number with the current context, whatever the two bytes that follow it. */
  lemma {:induction false} InterruptRoundTrip(ops: Opcodes, s: Session, irq: bv16, pad: Bytes, rest: Bytes,
                                              replyOk: bool, cell: Ptr)
    requires ops.InboundDistinct() && Fresh(s.events, cell)
    requires s.events.irq == NULL && s.link.fdOpen && |pad| == 2
    requires s.link.incoming == [ops.interrupt] + Le16(irq) + pad + rest
    ensures var r := Receive(ops, s, DataReady, replyOk, cell);
      && r.events.irq == cell && cell in r.events.heap && r.events.heap[cell] == AfuInterrupt(s.params.context as bv16, irq)
      && r.link.incoming == rest
  {
    var s1 := s.(link := Skip(s.link, 1));
    assert Next(s.link, 1)[0] == ops.interrupt;
    assert s1.link.incoming == Le16(irq) + pad + rest;
    assert s1.link.incoming[..2] == Le16(irq);
    LeRoundTrip(irq, 0, 0);
    var r := HandleInterrupt(s1, cell);
    assert r.link.incoming == rest;
  }

  /** The poller takes a QUERY reply as written: for the emulator's minimum 1 and
      maximum 2 the handle keeps 0x0200 as the minimum, and a maximum whose high byte is
      whatever an earlier receive left in buffer[4]. */
  lemma {:induction false} QueryMisreadThroughPoller(ops: Opcodes, s: Session, rest: Bytes, replyOk: bool, cell: Ptr)
    requires ops.InboundDistinct() && Fresh(s.events, cell) && s.link.fdOpen
    requires s.link.incoming == [ops.query, 1, 0, 2, 0] + rest
    ensures var r := Receive(ops, s, DataReady, replyOk, cell);
      && r.params.irqsMin == 0x0200 && r.params.irqsMax == (s.buffer4 as bv16) << 8
      && r.link.incoming == rest && r.flags == s.flags
  {
    var s1 := s.(link := Skip(s.link, 1));
    assert Next(s.link, 1)[0] == ops.query;
    assert s1.link.incoming == [1, 0, 2, 0] + rest;
    assert s1.link.incoming[..4] == [1, 0, 2, 0];
    QueryAsWrittenMisreads(s.buffer4);
  }

  /** The attach request's life: REQUEST from the call, PENDING after the iteration that
      sends it, IDLE after the iteration that receives the emulator's ATTACH, and the
      call then completes with the handle attached. */
  lemma {:induction false} AttachLifecycle(ops: Opcodes, s: Session, wed: bv64, rest: Bytes, cell: Ptr)
    requires ops.InboundDistinct() && Fresh(s.events, cell)
    requires s.flags.isOpen && !s.flags.attached && s.flags.polling && s.link.fdOpen
    requires s.slots.intReq != Request && s.slots.mmio != Request
    requires s.link.incoming == [ops.attach] + rest
    ensures var (st, s1) := AttachBegin(s, wed);
      && st == Success && s1.slots.attach == Request
      && var s2 := Tick(ops, s1, TickInput(true, true, true, NoData, true, cell));
         && s2.slots.attach == Pending && s2.link.sent == s.link.sent + AttachFrame(ops, wed)
         && var s3 := Tick(ops, s2, TickInput(true, true, true, DataReady, true, cell));
            && s3.slots.attach == Idle && s3.link.incoming == rest
            && AttachComplete(s3).flags.attached
  {
    var (st, s1) := AttachBegin(s, wed);
    var s1' := SendRequests(ops, s1, true, true, true);
    assert s1' == PslseAttach(ops, s1, true);
    var s2 := Tick(ops, s1, TickInput(true, true, true, NoData, true, cell));
    assert s2 == s1';
    assert s2.flags == s.flags;
    var s2' := SendRequests(ops, s2, true, true, true);
    assert s2' == s2;
    assert Next(s2.link, 1)[0] == ops.attach;
  }
}
