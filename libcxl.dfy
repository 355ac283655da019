/** The libcxl handle as the C code keeps it: one object whose fields the caller's thread
    and the poller thread update in place.  Every method is proved to change the handle
    exactly as the matching function of `CxlSession` changes the session value, so the
    properties proved there carry over to the object. */
module Libcxl {
  import opened Wire
  import opened CxlEvents
  import opened CxlSession

  /** `struct cxl_afu_h`, with its fields grouped as in `CxlSession.Session`. */
  class Handle {
    var flags: Flags
    var slots: Slots
    var mmio: MmioReq
    var params: Params
    var events: Store
    var memory: Memory
    var link: Link
    var buffer4: Byte

    /** The handle's fields as a session value. */
    function Snap(): Session
      reads this
    {
      Session(flags, slots, mmio, params, events, memory, link, buffer4)
    }

    constructor (s: Session)
      ensures Snap() == s
    {
      flags, slots, mmio, params, events, memory, link, buffer4 := s.flags, s.slots, s.mmio, s.params, s.events, s.memory, s.link, s.buffer4;
    }

    /** `opened = 0; attached = 0`. */
    method Close()
      modifies this
      ensures Snap() == Closed(old(Snap()))
    {
      flags := flags.(isOpen := false, attached := false);
    }

    /** A failed request send: the client also closes the socket. */
    method Drop()
      modifies this
      ensures Snap() == Dropped(old(Snap()))
    {
      Close();
      link := link.(fdOpen := false);
    }

    // -------------------------------------------------------------------------
    // Request senders (libcxl/libcxl.c:236-387)
    // -------------------------------------------------------------------------

    /** `_req_max_int`. */
    method ReqMaxInt(ops: Opcodes, ok: bool)
      modifies this
      ensures Snap() == CxlSession.ReqMaxInt(ops, old(Snap()), ok)
    {
      if CanSend(link, ok) {
        link := Sent(link, MaxIntFrame(ops, params.maxReq));
        slots := slots.(intReq := Pending);
      } else {
        Drop();
        params := params.(maxReq := 0);
        slots := slots.(intReq := Idle);
      }
    }

    /** `_pslse_attach`. */
    method PslseAttach(ops: Opcodes, ok: bool)
      modifies this
      ensures Snap() == CxlSession.PslseAttach(ops, old(Snap()), ok)
    {
      if CanSend(link, ok) {
        link := Sent(link, AttachFrame(ops, params.wed));
        slots := slots.(attach := Pending);
      } else {
        Drop();
        slots := slots.(attach := Idle);
      }
    }

    /** The `mmio.type` switch: `_mmio_map`, `_mmio_write64`, `_mmio_write32` or `_mmio_read`. */
    method SendMmio(ops: Opcodes, ok: bool)
      modifies this
      ensures Snap() == CxlSession.SendMmio(ops, old(Snap()), ok)
    {
      var frame := MmioFrame(ops, mmio);
      if CanSend(link, ok) {
        link := Sent(link, frame);
        slots := slots.(mmio := Pending);
      } else {
        Drop();
        slots := slots.(mmio := Idle);
        if IsRead(mmio.kind) {
          mmio := mmio.(data := ReadSentinel64);
        }
      }
    }

    /** The request half of a poller iteration. */
    method SendRequests(ops: Opcodes, intOk: bool, attachOk: bool, mmioOk: bool)
      modifies this
      ensures Snap() == CxlSession.SendRequests(ops, old(Snap()), intOk, attachOk, mmioOk)
    {
      if slots.intReq == Request {
        ReqMaxInt(ops, intOk);
      }
      if slots.attach == Request {
        PslseAttach(ops, attachOk);
      }
      if slots.mmio == Request {
        SendMmio(ops, mmioOk);
      }
    }

    // -------------------------------------------------------------------------
    // Handlers (libcxl/libcxl.c:78-234)
    // -------------------------------------------------------------------------

    /** `_handle_dsi`; `cell` is what calloc returns. */
    method HandleDsi(addr: bv64, cell: Ptr)
      requires Fresh(events, cell)
      modifies this
      ensures Snap() == Fault(old(Snap()), addr, cell)
    {
      if events.dsi != NULL {
        return;
      }
      var e := DataStorage(params.context as bv16, PageOf(addr), FaultDsisr);
      var first := if events.first == NULL then cell else events.first;
      events := Store(events.irq, cell, first, events.heap[cell := e]);
    }

    /** The reply of a memory handler; a failed send drops the session. */
    method Reply(frame: Bytes, ok: bool)
      modifies this
      ensures Snap() == CxlSession.Reply(old(Snap()), frame, ok)
    {
      if CanSend(link, ok) {
        link := Sent(link, frame);
      } else {
        Close();
      }
    }

    /** `_handle_read`. */
    method HandleRead(ops: Opcodes, addr: bv64, size: Byte, ok: bool, cell: Ptr)
      requires Fresh(events, cell)
      modifies this
      ensures Snap() == CxlSession.HandleRead(ops, old(Snap()), addr, size, ok, cell)
    {
      var frame := ReadReply(ops.memSuccess, ops.memFailure, memory, addr, size as nat);
      if addr !in memory.valid {
        HandleDsi(addr, cell);
      }
      Reply(frame, ok);
    }

    /** `_handle_write`. */
    method HandleWrite(ops: Opcodes, addr: bv64, data: Bytes, ok: bool, cell: Ptr)
      requires Fresh(events, cell)
      modifies this
      ensures Snap() == CxlSession.HandleWrite(ops, old(Snap()), addr, data, ok, cell)
    {
      if addr !in memory.valid {
        HandleDsi(addr, cell);
        Reply([ops.memFailure], ok);
      } else {
        memory := memory.(bytes := WriteBytes(memory.bytes, addr as nat, data));
        Reply([ops.memSuccess], ok);
      }
    }

    /** `_handle_touch`. */
    method HandleTouch(ops: Opcodes, addr: bv64, ok: bool, cell: Ptr)
      requires Fresh(events, cell)
      modifies this
      ensures Snap() == CxlSession.HandleTouch(ops, old(Snap()), addr, ok, cell)
    {
      if addr !in memory.valid {
        HandleDsi(addr, cell);
        Reply([ops.memFailure], ok);
      } else {
        Reply([ops.memSuccess], ok);
      }
    }

    /** `_handle_ack`. */
    method HandleAck()
      modifies this
      ensures Snap() == CxlSession.HandleAck(old(Snap()))
    {
      if mmio.kind == Read64Kind {
        if CanTake(link, 8) {
          mmio := mmio.(data := FromLe64(Next(link, 8)));
          link := Skip(link, 8);
        } else {
          Close();
          link := Over(link);
          mmio := mmio.(data := ReadSentinel64);
        }
      }
      if mmio.kind == Read32Kind {
        if CanTake(link, 4) {
          mmio := mmio.(data := FromLe32(Next(link, 4)) as bv64);
          link := Skip(link, 4);
        } else {
          Close();
          link := Over(link);
          mmio := mmio.(data := ReadSentinel32);
        }
      }
      slots := slots.(mmio := Idle);
    }

    /** `_handle_interrupt`; `cell` is what calloc returns. */
    method HandleInterrupt(cell: Ptr)
      requires Fresh(events, cell)
      modifies this
      ensures Snap() == CxlSession.HandleInterrupt(old(Snap()), cell)
    {
      if !CanTake(link, 4) {
        Close();
        link := Over(link);
        return;
      }
      var data := Next(link, 4);
      link := Skip(link, 4);
      var irq := FromLe16(data[..2]);
      if events.irq != NULL {
        return;
      }
      events := events.(irq := cell, heap := events.heap[cell := AfuInterrupt(params.context as bv16, irq)]);
      if events.first == NULL {
        events := events.(first := cell);
      }
    }

    // -------------------------------------------------------------------------
    // The poller thread (libcxl/libcxl.c:389-546)
    // -------------------------------------------------------------------------

    /** A failed receive inside the dispatch. */
    method Lose()
      modifies this
      ensures Snap() == Lost(old(Snap()))
    {
      link := Over(link);
      flags := flags.(isOpen := false);
    }

    /** The three memory requests: size byte, address, then the handler. */
    method MemoryRequest(ops: Opcodes, op: Byte, replyOk: bool, cell: Ptr)
      requires Fresh(events, cell)
      modifies this
      ensures Snap() == CxlSession.MemoryRequest(ops, old(Snap()), op, replyOk, cell)
    {
      if !CanTake(link, 1) {
        Lose();
        return;
      }
      var size := Next(link, 1)[0];
      link := Skip(link, 1);
      if !CanTake(link, 8) {
        Lose();
        return;
      }
      var addr := FromLe64(Next(link, 8));
      buffer4 := Next(link, 8)[4];
      link := Skip(link, 8);
      MemoryAccess(ops, op, size, addr, replyOk, cell);
    }

    /** The memory request once its size and address are in. */
    method MemoryAccess(ops: Opcodes, op: Byte, size: Byte, addr: bv64, replyOk: bool, cell: Ptr)
      requires Fresh(events, cell)
      modifies this
      ensures Snap() == CxlSession.MemoryAccess(ops, old(Snap()), op, size, addr, replyOk, cell)
    {
      if op == ops.memoryRead {
        HandleRead(ops, addr, size, replyOk, cell);
      } else if op == ops.memoryWrite {
        MemoryWrite(ops, size, addr, replyOk, cell);
      } else {
        HandleTouch(ops, addr, replyOk, cell);
      }
    }

    /** MEMORY_WRITE once its header is in: receive the payload, then write it. */
    method MemoryWrite(ops: Opcodes, size: Byte, addr: bv64, replyOk: bool, cell: Ptr)
      requires Fresh(events, cell)
      modifies this
      ensures Snap() == CxlSession.MemoryWrite(ops, old(Snap()), size, addr, replyOk, cell)
    {
      if !CanTake(link, size as nat) {
        Lose();
        return;
      }
      var data := Next(link, size as nat);
      if size >= 5 {
        buffer4 := data[4];
      }
      link := Skip(link, size as nat);
      HandleWrite(ops, addr, data, replyOk, cell);
    }

    /** The cases of the poller's switch that only update the handle's own fields. */
    method Control(ops: Opcodes, op: Byte)
      modifies this
      ensures Snap() == CxlSession.Control(ops, old(Snap()), op)
    {
      if op == ops.open {
        if CanTake(link, 1) {
          params := params.(context := Next(link, 1)[0]);
          link := Skip(link, 1);
        } else {
          Lose();
        }
        slots := slots.(open := Idle);
      } else if op == ops.attach {
        slots := slots.(attach := Idle);
      } else if op == ops.detach {
        flags := flags.(attached := false);
      } else if op == ops.maxInt {
        if CanTake(link, 2) {
          params := params.(irqsMax := FromLe16(Next(link, 2)));
          link := Skip(link, 2);
          slots := slots.(intReq := Idle);
        } else {
          Lose();
        }
      } else if op == ops.query {
        QueryReply();
      }
    }

    /** The QUERY case of the poller's switch. */
    method QueryReply()
      modifies this
      ensures Snap() == CxlSession.QueryReply(old(Snap()))
    {
      if CanTake(link, 4) {
        var q := QueryAsWritten(Next(link, 4), buffer4);
        params := params.(irqsMin := q.0, irqsMax := q.1);
        link := Skip(link, 4);
      } else {
        Lose();
      }
    }

    /** The `switch (buffer[0])` of the poller, after the opcode byte has been received. */
    method Dispatch(ops: Opcodes, op: Byte, replyOk: bool, cell: Ptr)
      requires Fresh(events, cell)
      modifies this
      ensures Snap() == CxlSession.Dispatch(ops, old(Snap()), op, replyOk, cell)
    {
      if IsControl(ops, op) {
        Control(ops, op);
      } else if op == ops.memoryRead || op == ops.memoryWrite || op == ops.memoryTouch {
        MemoryRequest(ops, op, replyOk, cell);
      } else if op == ops.mmioAck {
        HandleAck();
      } else if op == ops.interrupt {
        HandleInterrupt(cell);
      }
    }

    /** One pass of the poller loop, starting with its loop test. */
    method Tick(ops: Opcodes, input: TickInput)
      requires Fresh(events, input.cell)
      modifies this
      ensures Snap() == CxlSession.Tick(ops, old(Snap()), input)
    {
      if !flags.polling {
        return;
      }
      if !flags.isOpen {
        flags := flags.(polling := false, attached := false);
        return;
      }
      SendRequests(ops, input.intOk, input.attachOk, input.mmioOk);
      match input.ready {
        case NoData =>
        case ReadyFailed =>
          flags := Flags(false, false, false, false);
        case DataReady =>
          if !CanTake(link, 1) {
            link := Over(link);
            flags := Flags(false, false, false, false);
          } else {
            var op := Next(link, 1)[0];
            link := Skip(link, 1);
            Dispatch(ops, op, input.replyOk, input.cell);
          }
      }
    }

    /** `_psl_loop` over a finite sequence of iterations: the loop runs until the session is
        closed or the iterations are used up. */
    method PslLoop(ops: Opcodes, inputs: seq<TickInput>)
      requires Wf(events)
      modifies this
      ensures Snap() == Run(ops, old(Snap()), inputs)
    {
      var i := 0;
      while i < |inputs| && flags.polling
        invariant 0 <= i <= |inputs|
        invariant Wf(events)
        invariant Run(ops, Snap(), inputs[i..]) == Run(ops, old(Snap()), inputs)
        decreases |inputs| - i
      {
        assert inputs[i..][0] == inputs[i] && inputs[i..][1..] == inputs[i + 1..];
        Tick(ops, inputs[i].(cell := Alloc(events)));
        i := i + 1;
      }
    }

    // -------------------------------------------------------------------------
    // Public calls (libcxl/libcxl.c:1137-1403), each up to its wait for the poller
    // -------------------------------------------------------------------------

    /** `cxl_afu_attach_full` up to its wait. */
    method AttachFull(numInterrupts: bv16)
      modifies this
      ensures Snap() == AttachFullBegin(old(Snap()), numInterrupts)
    {
      params := params.(maxReq := numInterrupts);
      slots := slots.(intReq := Request);
    }

    /** `cxl_afu_attach` up to its wait. */
    method Attach(wed: bv64) returns (st: Status)
      modifies this
      ensures (st, Snap()) == AttachBegin(old(Snap()), wed)
    {
      if !flags.isOpen || flags.attached {
        return NoDevice;
      }
      slots := slots.(attach := Request);
      params := params.(wed := wed);
      return Success;
    }

    /** `cxl_afu_attach` once the attach slot is IDLE again. */
    method AttachDone()
      requires slots.attach == Idle
      modifies this
      ensures Snap() == AttachComplete(old(Snap()))
    {
      flags := flags.(attached := true);
    }

    /** `cxl_mmio_map` up to its wait. */
    method MmioMap(mapFlags: bv32, allowedFlags: bv32) returns (st: Status)
      modifies this
      ensures (st, Snap()) == MapBegin(old(Snap()), mapFlags, allowedFlags)
    {
      if !flags.isOpen || !flags.attached || mapFlags & !allowedFlags != 0 {
        return NoDevice;
      }
      mmio := mmio.(kind := MapKind, data := mapFlags as bv64);
      slots := slots.(mmio := Request);
      return Success;
    }

    /** `cxl_mmio_map` once the mmio slot is IDLE again. */
    method MmioMapDone()
      requires slots.mmio == Idle
      modifies this
      ensures Snap() == MapComplete(old(Snap()))
    {
      flags := flags.(mapped := true);
    }

    /** The prologue shared by `cxl_mmio_write64`, `cxl_mmio_read64`, `cxl_mmio_write32`
        and `cxl_mmio_read32`. */
    method MmioRequest(kind: MmioKind, offset: bv64, data: bv64) returns (st: Status)
      requires kind != MapKind
      modifies this
      ensures (st, Snap()) == MmioBegin(old(Snap()), kind, offset, data)
    {
      if offset & 7 != 0 {
        return InvalidArgument;
      }
      if !flags.mapped {
        return NoDevice;
      }
      mmio := mmio.(kind := kind, addr := (offset & 0xFFFF_FFFF) as bv32);
      if !IsRead(kind) {
        mmio := mmio.(data := data);
      }
      slots := slots.(mmio := Request);
      return Success;
    }

    /** The epilogue of `cxl_mmio_read64`: the data word is returned whether or not the
        session survived. */
    method MmioRead64Done() returns (st: Status, data: bv64)
      requires slots.mmio == Idle
      ensures st == MmioComplete(Snap()) && data == mmio.data
    {
      data := mmio.data;
      st := if flags.isOpen then Success else NoDevice;
    }

    /** The epilogue of `cxl_mmio_read32`. */
    method MmioRead32Done() returns (st: Status, data: bv32)
      requires slots.mmio == Idle
      ensures st == MmioComplete(Snap()) && data == ReadResult32(Snap())
    {
      data := ReadResult32(Snap());
      st := if flags.isOpen then Success else NoDevice;
    }

    /** `cxl_event_pending`. */
    function IsEventPending(): (r: bool)
      reads this
      ensures r <==> events.first != NULL
    {
      EventPending(events)
    }

    /** `cxl_read_event`, once the wait has ended or when it does not wait. */
    method ReadEvent(bufferIsNull: bool) returns (out: ReadOutcome)
      modifies this
      ensures (out, events) == CxlEvents.ReadEvent(old(events), old(flags.isOpen), bufferIsNull)
      ensures Snap() == old(Snap()).(events := events)
    {
      if bufferIsNull {
        return Invalid;
      }
      if events.first == NULL {
        out := if flags.isOpen then Blocked else Undefined;
        return;
      }
      if events.first !in events.heap {
        return Undefined;
      }
      out := Copied(events.heap[events.first]);
      if events.first == events.irq {
        events := events.(heap := events.heap - {events.irq}, first := events.dsi);
      } else if events.first == events.dsi {
        events := events.(heap := events.heap - {events.dsi}, first := events.irq);
      }
    }

    /** `cxl_read_expected_event`. */
    method ReadExpectedEvent(bufferIsNull: bool, kind: EventKind, irq: bv16) returns (out: ExpectOutcome)
      modifies this
      ensures (out, events) == CxlEvents.ReadExpectedEvent(old(events), old(flags.isOpen), bufferIsNull, kind, irq)
      ensures Snap() == old(Snap()).(events := events)
    {
      var got := ReadEvent(bufferIsNull);
      match got {
        case Invalid => out := Failed;
        case Blocked => out := Waiting;
        case Undefined => out := UndefinedRead;
        case Copied(e) =>
          if KindOf(e) != kind || (e.AfuInterrupt? && e.irq != irq) {
            out := Mismatch;
          } else {
            out := Matched(e);
          }
      }
    }
  }
}
