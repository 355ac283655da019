/** The client's event store: at most one data-storage fault (`dsi`) and one
    AFU interrupt (`irq`) are held, and `first_event` names the one handed out
    by the next read.

    Pointers are modelled as addresses: 0 is NULL and `heap` holds the events
    currently allocated.  The allocator is an oracle: each allocation is given
    a non-NULL address that is not allocated at that moment, so a freed
    address may come back. */
module CxlEvents {

  type Ptr = nat

  const NULL: Ptr := 0

  /** Clears the offset inside a 4 KiB page. */
  const FourKMask: bv64 := 0xFFFF_FFFF_FFFF_F000

  /** The DSISR value recorded for every data-storage fault. */
  const FaultDsisr: bv64 := 0x4000_0000_4000_0000

  /** `struct cxl_event` as far as the model needs it: the process element of the
      header and the payload of the two kinds the client produces. */
  datatype Event =
    | AfuInterrupt(pe: bv16, irq: bv16)
    | DataStorage(pe: bv16, addr: bv64, dsisr: bv64)

  /** The `header.type` a caller can ask for; `OtherKind` stands for every other CXL_EVENT_* code. */
  datatype EventKind = AfuInterruptKind | DataStorageKind | OtherKind

  function KindOf(e: Event): EventKind {
    if e.AfuInterrupt? then AfuInterruptKind else DataStorageKind
  }

  datatype Store = Store(irq: Ptr, dsi: Ptr, first: Ptr, heap: map<Ptr, Event>)

  const Empty: Store := Store(NULL, NULL, NULL, map[])

  /** What the store keeps between operations: NULL is never allocated, every live event is
      one of the two slots, and `first_event` is NULL or one of the slots. */
  predicate Wf(st: Store) {
    && NULL !in st.heap
    && (forall p :: p in st.heap ==> p == st.irq || p == st.dsi)
    && (st.first == NULL || st.first == st.irq || st.first == st.dsi)
  }

  /** An allocation result the oracle may hand out. */
  predicate Fresh(st: Store, cell: Ptr) {
    cell != NULL && cell !in st.heap
  }

  /** The start of the 4 KiB page holding `addr`. */
  function PageOf(addr: bv64): (page: bv64)
    ensures page & 0xFFF == 0 && page | (addr & 0xFFF) == addr
  {
    addr & FourKMask
  }

  /** `_handle_dsi`: a fault is recorded only when the `dsi` slot is NULL; it carries the
      page of the faulting address and the fixed DSISR, and becomes `first_event` only
      when nothing else is pending. */
  function RecordFault(st: Store, context: bv8, addr: bv64, cell: Ptr): (r: Store)
    requires Fresh(st, cell)
    ensures st.dsi != NULL ==> r == st
    ensures st.dsi == NULL ==>
      && r.dsi == cell && r.irq == st.irq && cell in r.heap && r.heap == st.heap[cell := r.heap[cell]]
      && r.heap[cell].DataStorage? && r.heap[cell].pe == context as bv16 && r.heap[cell].dsisr == FaultDsisr
    ensures st.dsi == NULL ==> r.heap[cell].addr == PageOf(addr)
    ensures r.first == (if st.dsi == NULL && st.first == NULL then cell else st.first)
    ensures Wf(st) ==> Wf(r)
  {
    if st.dsi != NULL then st
    else
      var e := DataStorage(context as bv16, PageOf(addr), FaultDsisr);
      Store(st.irq, cell, if st.first == NULL then cell else st.first, st.heap[cell := e])
  }

  /** The interrupt half of `_handle_interrupt`, after its payload has been read:
      a second interrupt is dropped while the `irq` slot is not NULL. */
  function RecordInterrupt(st: Store, context: bv8, irq: bv16, cell: Ptr): (r: Store)
    requires Fresh(st, cell)
    ensures st.irq != NULL ==> r == st
    ensures st.irq == NULL ==>
      r.irq == cell && r.dsi == st.dsi && r.heap == st.heap[cell := AfuInterrupt(context as bv16, irq)]
    ensures r.first == (if st.irq == NULL && st.first == NULL then cell else st.first)
    ensures Wf(st) ==> Wf(r)
  {
    if st.irq != NULL then st
    else
      Store(cell, st.dsi, if st.first == NULL then cell else st.first,
            st.heap[cell := AfuInterrupt(context as bv16, irq)])
  }

  /** `cxl_event_pending`. */
  function EventPending(st: Store): bool {
    st.first != NULL
  }

  datatype ReadOutcome =
    | Invalid            // EINVAL: no buffer to copy into
    | Blocked            // the session is open and nothing is pending: the call keeps waiting
    | Undefined          // the copy reads through NULL or through a freed event
    | Copied(e: Event)

  /** `cxl_read_event`: copy the head event, free it and make the other slot the head.
      Neither slot pointer is reset, so a consumed slot keeps its stale address. */
  function ReadEvent(st: Store, sessionOpen: bool, bufferIsNull: bool): (r: (ReadOutcome, Store))
    ensures r.1.irq == st.irq && r.1.dsi == st.dsi
    ensures bufferIsNull ==> r.0 == Invalid
    ensures !bufferIsNull && st.first != NULL && st.first in st.heap ==>
      r.0 == Copied(st.heap[st.first])
    ensures r.0.Copied? ==>
      && r.1.heap == (if st.first == st.irq || st.first == st.dsi then st.heap - {st.first} else st.heap)
      && r.1.first == (if st.first == st.irq then st.dsi else if st.first == st.dsi then st.irq else st.first)
    ensures !r.0.Copied? ==> r.1 == st
    ensures r.0 == Blocked <==> !bufferIsNull && sessionOpen && st.first == NULL
  {
    if bufferIsNull then (Invalid, st)
    else if st.first == NULL then (if sessionOpen then Blocked else Undefined, st)
    else if st.first !in st.heap then (Undefined, st)
    else
      var e := st.heap[st.first];
      if st.first == st.irq then (Copied(e), Store(st.irq, st.dsi, st.dsi, st.heap - {st.irq}))
      else if st.first == st.dsi then (Copied(e), Store(st.irq, st.dsi, st.irq, st.heap - {st.dsi}))
      else (Copied(e), st)
  }

  /** Reading keeps the store well formed: the new head is always one of the two slots. */
  lemma ReadPreservesWf(st: Store, sessionOpen: bool, bufferIsNull: bool)
    requires Wf(st)
    ensures Wf(ReadEvent(st, sessionOpen, bufferIsNull).1)
  {
  }

  /** `cxl_event_pending` reports exactly when a read does not wait. */
  lemma PendingIffReadDoesNotWait(st: Store, sessionOpen: bool)
    ensures ReadEvent(st, sessionOpen, false).0 != Blocked <==> EventPending(st) || !sessionOpen
  {
  }

  /** `cxl_read_expected_event`: 0 when the copied event has the requested kind and, for an
      interrupt, the requested number; -1 otherwise.  Blocked and Undefined pass through. */
  datatype ExpectOutcome = Matched(e: Event) | Mismatch | Failed | Waiting | UndefinedRead

  function ReadExpectedEvent(st: Store, sessionOpen: bool, bufferIsNull: bool, kind: EventKind, irq: bv16)
    : (r: (ExpectOutcome, Store))
    ensures r.1 == ReadEvent(st, sessionOpen, bufferIsNull).1
    ensures r.0.Matched? <==>
      var out := ReadEvent(st, sessionOpen, bufferIsNull).0;
      out.Copied? && KindOf(out.e) == kind && (out.e.AfuInterrupt? ==> out.e.irq == irq)
    ensures r.0.Matched? ==> r.0.e == ReadEvent(st, sessionOpen, bufferIsNull).0.e
    ensures r.0 == Failed <==> bufferIsNull
  {
    var (out, st') := ReadEvent(st, sessionOpen, bufferIsNull);
    match out {
      case Invalid => (Failed, st')
      case Blocked => (Waiting, st')
      case Undefined => (UndefinedRead, st')
      case Copied(e) =>
        if KindOf(e) != kind then (Mismatch, st')
        else if e.AfuInterrupt? && e.irq != irq then (Mismatch, st')
        else (Matched(e), st')
    }
  }

  // ---------------------------------------------------------------------------
  // Consequences of never resetting the slots
  // ---------------------------------------------------------------------------

  /** Once a fault has been recorded, every later fault is dropped: no operation of the
      store sets `dsi` back to NULL. */
  lemma FaultSlotSticky(st: Store, context: bv8, addr: bv64, irq: bv16, cell: Ptr, sessionOpen: bool)
    requires st.dsi != NULL && Fresh(st, cell)
    ensures RecordFault(st, context, addr, cell) == st
    ensures RecordInterrupt(st, context, irq, cell).dsi != NULL
    ensures ReadEvent(st, sessionOpen, false).1.dsi != NULL
  {
  }

  /** A fault is read, then an interrupt arrives and is read: `first_event` is left on the
      freed fault, so an event is reported pending and the next read copies freed memory. */
  lemma PhantomFaultAfterInterrupt(context: bv8, addr: bv64, irq: bv16, d: Ptr, i: Ptr)
    requires d != NULL && i != NULL
    ensures
      var s1 := RecordFault(Empty, context, addr, d);
      var (out1, s2) := ReadEvent(s1, true, false);
      out1.Copied? && out1.e.DataStorage? && s2.first == NULL && d !in s2.heap
      && Fresh(s2, i)
      && var s3 := RecordInterrupt(s2, context, irq, i);
         var (out2, s4) := ReadEvent(s3, true, false);
         out2 == Copied(AfuInterrupt(context as bv16, irq))
         && EventPending(s4) && s4.first == d && d !in s4.heap
         && ReadEvent(s4, true, false).0 == Undefined
  {
    var s1 := RecordFault(Empty, context, addr, d);
    var (out1, s2) := ReadEvent(s1, true, false);
    assert s2.first == NULL && s2.heap == map[];
    var s3 := RecordInterrupt(s2, context, irq, i);
    assert s3.first == i == s3.irq && s3.dsi == d;
    var (out2, s4) := ReadEvent(s3, true, false);
    assert s4.first == d;
    assert s4.heap == map[];
  }
}
