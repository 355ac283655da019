# pslse core, modelled in Dafny

PSLSE emulates the PSL layer of a CAPI-attached accelerator (an AFU) so that host
software can be developed without the hardware. Three programs talk over TCP sockets:

* the application links **libcxl**. Its API calls (`cxl_afu_open_dev`,
  `cxl_afu_attach`, `cxl_mmio_map`, `cxl_mmio_read64`, …) fill request slots of a handle.
  A poller thread (`_psl_loop`) sends those requests to the emulator, and it answers the
  emulator's memory reads, writes and touches, MMIO acknowledges and interrupts.
* the **PSLSE server**'s `pslse/mmio.c` queues the clients' MMIO requests on a FIFO
  linked list. It drives them to the AFU one at a time and returns each acknowledge to
  its client. It also reads and validates the AFU descriptor.
* the **test AFU** (`test/afu/AFU.cpp`, with its descriptor file parser
  `test/afu/Descriptor.cpp`) answers job control, LLCMD context commands, MMIO and
  tagged buffer/response events.

The model follows that structure, one Dafny module per concern:

| file | module | what it holds |
|---|---|---|
| `wire.dfy` | `Wire` | byte order (little- and big-endian words) and the frames libcxl sends |
| `position.dfy` | `AfuPosition` | the AFU position bit, `(major, minor)` and the device-name parsing of `cxl_afu_open_dev` |
| `events.dfy` | `CxlEvents` | the `dsi`/`irq`/`first_event` store of a libcxl handle |
| `session.dfy` | `CxlSession` | a libcxl handle as a value: the request slots, the poller's iteration, the API calls |
| `libcxl.dfy` | `Libcxl` | class `Handle`: the same operations as methods on fields updated in place, each proved equal to its `CxlSession` function |
| `descriptor.dfy` | `AfuDescriptor` | the test AFU's descriptor registers, getters, `get_reg` and the file parser (class `Descriptor` over an array) |
| `contexts.dfy` | `AfuContexts` | the `context_to_mc` map as a key-sorted sequence, and the round-robin walk |
| `afu.dfy` | `SimAfu` | the test AFU as a functional state machine: one function per member function |
| `afu_object.dfy` | `AfuObject` | class `Afu`: the AFU object's fields and one method per member function, each proved against `SimAfu` |
| `mmio.dfy` | `PslseMmio` | class `Mmio`: the event list of `pslse/mmio.c` as a table of events plus their `_next` links, with the list shape kept as an invariant |

Socket traffic is modelled as byte sequences. What a client sends is appended to a `sent`
sequence, and a receive consumes a prefix of the `incoming` sequence; the emulator's handlers
return what they leave in it. A flag states whether each send succeeds. Values the code does not compute are parameters: the header constants
(`PSLSE_*` opcodes, `CXL_MMIO_FLAGS`, `PSA_REQUIRED`, `PROG_MODEL_*`, `MASK_IS_*`,
`PSL_JOB_*`, `PSL_LLCMD_*`, `DESCRIPTOR_NUM_REGS`), allocation results, and what the PSL
interface calls and the machine controllers report. Machine words are `bv8`…`bv64`, so
C's unsigned wrap-around and truncating casts are exact.

## Model

| member | source | states |
|---|---|---|
| Wire.FromLe16 | libcxl/libcxl.c:215-216 | decoding two bytes little-endian gives the value whose encoding they are |
| Wire.FromLe32 | libcxl/libcxl.c:196-197 | decoding four bytes little-endian gives the value whose encoding they are |
| Wire.FromLe64 | libcxl/libcxl.c:184-185 | decoding eight bytes little-endian gives the value whose encoding they are |
| Wire.LeRoundTrip | libcxl/libcxl.c:245-246 | decode after encode is the identity for 16-, 32- and 64-bit words |
| Wire.FromBe32 | pslse/mmio.c:334 | `ntohl`: decoding four bytes in network order inverts the big-endian encoding |
| Wire.FromBe64 | pslse/mmio.c:341 | `ntohll`: the same for eight bytes |
| Wire.CrossEndian32 | pslse/mmio.c:334 | reading a little-endian 32-bit encoding in network order gives the byte-swapped word |
| Wire.CrossEndian64 | pslse/mmio.c:341 | reading a little-endian 64-bit encoding in network order gives the byte-swapped doubleword |
| Wire.HandshakeFrame | libcxl/libcxl.c:599-601 | the connect frame is 6 bytes: "PSLSE" then the version byte |
| Wire.DecodeConnectReply | libcxl/libcxl.c:605-618 | the 3-byte reply is accepted exactly when it starts with PSLSE_CONNECT, and then the AFU map is its little-endian 16-bit tail |
| Wire.OpenFrame | libcxl/libcxl.c:781-786 | the open frame is 3 bytes: PSLSE_OPEN, the debug id, the AFU type character |
| Wire.QueryFrame | libcxl/libcxl.c:686-690 | the query frame is 2 bytes: PSLSE_QUERY and the debug id |
| Wire.MaxIntFrame | libcxl/libcxl.c:242-247 | the max-interrupt frame is 3 bytes: PSLSE_MAX_INT, then the count, little-endian |
| Wire.AttachFrame | libcxl/libcxl.c:266-271 | the attach frame is 9 bytes: PSLSE_ATTACH, then the WED, little-endian |
| Wire.MmioMapFrame | libcxl/libcxl.c:290-296 | the map frame is 5 bytes: PSLSE_MMIO_MAP, then the flags, little-endian |
| Wire.MmioWrite64Frame | libcxl/libcxl.c:308-323 | the 64-bit write frame is 13 bytes: opcode, little-endian offset, little-endian data |
| Wire.MmioWrite32Frame | libcxl/libcxl.c:336-351 | the 32-bit write frame is 9 bytes: opcode, little-endian offset, little-endian data |
| Wire.MmioReadFrame | libcxl/libcxl.c:364-375 | a read frame is 5 bytes: the read opcode, then the little-endian offset |
| AfuPosition.Bit | libcxl/libcxl.c:766-768 | the position of AFU k is a single set bit |
| AfuPosition.Above | libcxl/libcxl.c:665-673 | the mask of positions above k does not contain k's bit |
| AfuPosition.ShiftBit | libcxl/libcxl.c:767-768 | shifting bit k right n times gives bit k+n, or 0 once it falls off the 16 bits |
| AfuPosition.Position | libcxl/libcxl.c:766-768 | `0x8000 >> 4*major >> minor` is 0 exactly when 4·major+minor ≥ 16, and is otherwise the bit of that index |
| AfuPosition.PositionInjective | libcxl/libcxl.c:766-768 | distinct (major, minor) pairs in 0..3 give distinct positions |
| AfuPosition.DebugId | libcxl/libcxl.c:683 | the debug id carries the major number in its high nibble and the minor number in its low nibble |
| AfuPosition.DecodePosition | libcxl/libcxl.c:661-673 | position 0 is ENODEV; otherwise the two scans find (major, minor) in 0..3 naming the highest set bit of the position |
| AfuPosition.ScanAdapters | libcxl/libcxl.c:665-669 | the adapter scan stops at the first nibble, from the top, that holds a set bit, with the AFU mask at that nibble's top bit |
| AfuPosition.ScanAfus | libcxl/libcxl.c:670-673 | the AFU scan then stops at the highest set bit of that nibble |
| AfuPosition.DecodeOfPosition | libcxl/libcxl.c:661-673 | round trip: the scans of `_new_afu` recover the (major, minor) that `_pslse_open` encoded (with lines 766-768) |
| AfuPosition.OpenPosition | libcxl/libcxl.c:766-783 | an AFU opens exactly when its bit is in the AFU map; it then gets that position and debug id |
| AfuPosition.AfterLastSlash | libcxl/libcxl.c:1045-1046 | `strrchr(path, '/') + 1`: None when there is no slash, otherwise exactly the text after the last slash |
| AfuPosition.ParseDevName | libcxl/libcxl.c:1044-1059 | the device name is accepted exactly when characters 3 and 5 after the last slash are digits 0-3; it then gives those numbers and character 6 as the AFU type; no slash or a missing character is undefined behaviour |
| CxlEvents.PageOf | libcxl/libcxl.c:52-93 | `addr & FOURK_MASK`: the page start has zero low 12 bits and together with them gives the address back |
| CxlEvents.RecordFault | libcxl/libcxl.c:78-100 | a fault is stored only when `dsi` is NULL, with the page address and DSISR 0x4000000040000000, and becomes `first_event` only when that was NULL |
| CxlEvents.RecordInterrupt | libcxl/libcxl.c:218-230 | a second interrupt is dropped while `irq` is non-NULL; a stored one carries the context and number and becomes `first_event` only when that was NULL |
| CxlEvents.ReadEvent | libcxl/libcxl.c:1220-1242 | a NULL buffer is EINVAL; an open session with no event blocks; otherwise the head event is copied, freed, and `first_event` becomes the other slot; neither slot pointer is reset |
| CxlEvents.ReadPreservesWf | libcxl/libcxl.c:1232-1240 | after a read, `first_event` is still NULL or one of the two slots |
| CxlEvents.PendingIffReadDoesNotWait | libcxl/libcxl.c:1213-1229 | `cxl_event_pending` reports exactly when `cxl_read_event` does not wait (or the session is closed) |
| CxlEvents.ReadExpectedEvent | libcxl/libcxl.c:1244-1257 | 0 exactly when the copied event has the requested type and, for an interrupt, the requested number; -1 otherwise |
| CxlEvents.FaultSlotSticky | libcxl/libcxl.c:84-85 | once `dsi` is set, later faults change nothing and neither interrupts nor reads clear it (with lines 1237-1239) |
| CxlEvents.PhantomFaultAfterInterrupt | libcxl/libcxl.c:1232-1240 | fault, read, interrupt, read: `first_event` is left on the freed fault, so an event is still reported pending |
| CxlSession.Closed | libcxl/libcxl.c:179-180 | `opened = 0; attached = 0` |
| CxlSession.Dropped | libcxl/libcxl.c:248-251 | a failed request send closes the socket and the session |
| CxlSession.ReqMaxInt | libcxl/libcxl.c:236-258 | after a successful send the max-int frame is on the wire and the slot is PENDING; after a failed one the session is dropped, the slot IDLE and the count 0 |
| CxlSession.PslseAttach | libcxl/libcxl.c:260-281 | the same for the attach frame carrying the WED; nothing else changes |
| CxlSession.MmioFrame | libcxl/libcxl.c:283-387 | each MMIO request kind sends its own opcode, and every frame but the map carries the 32-bit offset (with lines 407-423) |
| CxlSession.SendMmio | libcxl/libcxl.c:283-387 | after a successful send the request's frame is on the wire and the slot is PENDING; after a failed one the session is dropped, the slot IDLE, and a read's data holds 0xFEEDB00FFEEDB00F |
| CxlSession.PollInt | libcxl/libcxl.c:402-403 | the int_req slot is sent only in REQUEST; the other slots, the events and the memory are unchanged |
| CxlSession.PollAttach | libcxl/libcxl.c:404-405 | the same for the attach slot |
| CxlSession.PollMmio | libcxl/libcxl.c:406-424 | the same for the mmio slot |
| CxlSession.SendRequests | libcxl/libcxl.c:402-424 | after the request half of an iteration no slot is in REQUEST |
| CxlSession.SendRequestsInOrder | libcxl/libcxl.c:402-424 | three pending requests reach the wire back to back in the order max-int, attach, MMIO, and all three slots are PENDING |
| CxlSession.FailedSendFailsTheRest | libcxl/libcxl.c:247-277 | once a send fails the socket is closed, so the later requests of the same iteration fail too: nothing more is sent and their slots are IDLE |
| CxlSession.ReadBytes | libcxl/libcxl.c:117 | a memory read yields exactly `size` bytes |
| CxlSession.WriteBytesOutside | libcxl/libcxl.c:140 | a memory write leaves every address outside its range as it was |
| CxlSession.WriteThenRead | libcxl/libcxl.c:117-140 | reading back the range just written gives the written bytes |
| CxlSession.Reply | libcxl/libcxl.c:118-166 | a delivered reply is appended to the wire; an undelivered one closes and detaches the session |
| CxlSession.Fault | libcxl/libcxl.c:78-100 | recording a fault keeps the event store well formed |
| CxlSession.ReadReply | libcxl/libcxl.c:102-123 | a probed address is answered MEM_SUCCESS and the `size` bytes; any other address MEM_FAILURE alone |
| CxlSession.HandleRead | libcxl/libcxl.c:102-123 | a fault is recorded exactly when the address is not probed, and the reply is ReadReply |
| CxlSession.HandleWrite | libcxl/libcxl.c:125-147 | a probed address receives the bytes and MEM_SUCCESS is replied; otherwise the fault is recorded, memory is unchanged and MEM_FAILURE is replied |
| CxlSession.HandleTouch | libcxl/libcxl.c:149-169 | the same without touching memory |
| CxlSession.HandleAck | libcxl/libcxl.c:171-201 | a READ64 ack takes 8 little-endian bytes and a READ32 ack 4; a failed receive closes the session and leaves 0xFEEDB00FFEEDB00F or 0xFEEDB00F; any other kind reads nothing; the slot ends IDLE |
| CxlSession.HandleInterrupt | libcxl/libcxl.c:203-234 | a missing frame closes and detaches the session; otherwise exactly four payload bytes are consumed, the first two being the interrupt number, little-endian, and the irq slot is `RecordInterrupt` of it; nothing else changes |
| CxlSession.ReceiveInto | libcxl/libcxl.c:205-210 | `get_bytes_silent` into a buffer of `room` bytes: too few bytes in the socket is a short read; more bytes than the buffer holds is an overrun; otherwise exactly the first n bytes are taken |
| CxlSession.InterruptReceiveOverruns | libcxl/libcxl.c:205-210 | as written, every interrupt frame overruns the two-byte `data` buffer; with a four-byte buffer the receive is the one `HandleInterrupt` makes |
| CxlSession.DecodeQuery | libcxl/libcxl.c:468-479 | the QUERY payload is the minimum then the maximum interrupt count, each 16-bit little-endian |
| CxlSession.QueryAsWritten | libcxl/libcxl.c:469-478 | as written, the counts are taken from bytes 1-2 and 3-4 of the receive buffer, one byte past the payload; byte 4 is the one the buffer last held |
| CxlSession.QueryAsWrittenMisreads | libcxl/libcxl.c:469-478 | for payload 1, 2 the code as written gets 0x0200 and a maximum that depends on a stale byte |
| CxlSession.QueryReply | libcxl/libcxl.c:468-479 | the QUERY case as written: the four reply bytes are consumed and the counts are `QueryAsWritten` of them and the stale byte 4; a missing reply closes the session and keeps the counts |
| CxlSession.StopPolling | libcxl/libcxl.c:429-440 | leaving the loop clears `attached` and stops the poller (with line 544) |
| CxlSession.Lost | libcxl/libcxl.c:444-473 | a failed receive inside the dispatch closes the session |
| CxlSession.Control | libcxl/libcxl.c:443-479 | OPEN, ATTACH, DETACH, MAX_INT and QUERY change only the handle's fields; QUERY is the as-written `QueryReply`; any other opcode leaves the session alone |
| CxlSession.Dispatch | libcxl/libcxl.c:442-541 | an opcode outside the switch changes nothing; the polling flag is kept; the event store stays well formed |
| CxlSession.MemoryRequest | libcxl/libcxl.c:480-532 | the memory requests take a size byte and a little-endian address before their handler; the event store stays well formed |
| CxlSession.MemoryAccess | libcxl/libcxl.c:494-531 | a write first receives its `size` payload bytes; the event store stays well formed |
| CxlSession.MemoryWrite | libcxl/libcxl.c:496-516 | a write whose payload is missing closes the session and leaves memory alone; otherwise the payload is received into `buffer`, so byte 4 of the buffer changes exactly when the size is 5 or more |
| CxlSession.Receive | libcxl/libcxl.c:426-441 | no data changes nothing; a socket error or a missing opcode byte ends the session and the loop; a poller that stops here leaves the session detached |
| CxlSession.Tick | libcxl/libcxl.c:399-544 | a stopped poller does nothing; a closed session leaves the loop detached; an iteration that stops the poller leaves the session detached; the event store stays well formed (the as-written QUERY decoding through the poller is `CxlSession.QueryMisreadThroughPoller`) |
| CxlSession.Alloc | libcxl/libcxl.c:90 | in a well-formed store the chosen address is free (with line 224) |
| CxlSession.Run | libcxl/libcxl.c:389-546 | the poller over a run of iterations keeps the event store well formed, a stopped poller stays as it is, and a poller that stops during the run ends detached |
| CxlSession.RunAppend | libcxl/libcxl.c:399-542 | running two stretches of iterations in turn is running their concatenation |
| CxlSession.ClosedSessionStopsPoller | libcxl/libcxl.c:399 | a closed session ends the poller at the next loop test, detached (with line 544) |
| CxlSession.AttachFullBegin | libcxl/libcxl.c:1137-1141 | `cxl_afu_attach_full` puts the interrupt count in REQUEST and changes nothing else |
| CxlSession.AttachBegin | libcxl/libcxl.c:1148-1164 | ENODEV exactly when the handle is not open or already attached, with no change; otherwise the attach slot is REQUEST with the WED |
| CxlSession.AttachComplete | libcxl/libcxl.c:1167-1169 | once the slot is IDLE again the handle is attached |
| CxlSession.MapBegin | libcxl/libcxl.c:1259-1279 | ENODEV exactly when the handle is not open, not attached, or the flags have bits outside CXL_MMIO_FLAGS; otherwise a map request carrying the flags is in REQUEST |
| CxlSession.MapComplete | libcxl/libcxl.c:1282-1284 | once the slot is IDLE again the handle is mapped |
| CxlSession.MmioBegin | libcxl/libcxl.c:1296-1309 | a misaligned offset is EINVAL before anything else is looked at; an unmapped handle is ENODEV; otherwise the slot is REQUEST with the offset truncated to 32 bits and, for writes, the data (with lines 1323-1335, 1351-1364, 1378-1390) |
| CxlSession.MmioComplete | libcxl/libcxl.c:1313-1316 | after the wait the call succeeds exactly when the session is still open (with lines 1340-1343, 1368-1371, 1395-1398) |
| CxlSession.ReadResult32 | libcxl/libcxl.c:1393 | a 32-bit read returns the low 32 bits of the slot's data |
| CxlSession.WriteReachesWire | libcxl/libcxl.c:1296-1316 | an aligned write on a mapped handle is accepted, and the next iteration with a working socket puts its 13-byte frame on the wire and leaves the slot PENDING (with lines 308-334) |
| CxlSession.ReadAckRoundTrip | libcxl/libcxl.c:176-187 | an ack for a pending 64-bit read returns exactly the value the emulator encoded, consumes exactly the frame and leaves the slot IDLE (with lines 533-535) |
| CxlSession.InterruptRoundTrip | libcxl/libcxl.c:203-234 | an interrupt frame received with the irq slot empty stores the encoded number with the current context (with lines 536-538) |
| CxlSession.QueryMisreadThroughPoller | libcxl/libcxl.c:468-479 | through the poller's receive, a QUERY reply of minimum 1 and maximum 2 sets the minimum to 0x0200 and the maximum to the stale byte shifted up, and consumes exactly the frame |
| CxlSession.AttachLifecycle | libcxl/libcxl.c:1148-1170 | the attach slot goes REQUEST, then PENDING after the sending iteration, then IDLE after the emulator's ATTACH, and the call then completes attached (with lines 404-405, 452-454) |
| Libcxl.Handle.constructor | libcxl/libcxl.c:698-704 | a handle starts with the given field values |
| Libcxl.Handle.Close | libcxl/libcxl.c:179-180 | the handle becomes `CxlSession.Closed` of what it was |
| Libcxl.Handle.Drop | libcxl/libcxl.c:248-253 | the handle becomes `CxlSession.Dropped` of what it was |
| Libcxl.Handle.ReqMaxInt | libcxl/libcxl.c:236-258 | the fields become what `CxlSession.ReqMaxInt` gives |
| Libcxl.Handle.PslseAttach | libcxl/libcxl.c:260-281 | the fields become what `CxlSession.PslseAttach` gives |
| Libcxl.Handle.SendMmio | libcxl/libcxl.c:406-424 | the fields become what `CxlSession.SendMmio` gives |
| Libcxl.Handle.SendRequests | libcxl/libcxl.c:402-424 | the fields become what `CxlSession.SendRequests` gives |
| Libcxl.Handle.HandleDsi | libcxl/libcxl.c:78-100 | the fields become what `CxlSession.Fault` gives |
| Libcxl.Handle.Reply | libcxl/libcxl.c:118-121 | the fields become what `CxlSession.Reply` gives |
| Libcxl.Handle.HandleRead | libcxl/libcxl.c:102-123 | the fields become what `CxlSession.HandleRead` gives |
| Libcxl.Handle.HandleWrite | libcxl/libcxl.c:125-147 | the fields become what `CxlSession.HandleWrite` gives |
| Libcxl.Handle.HandleTouch | libcxl/libcxl.c:149-169 | the fields become what `CxlSession.HandleTouch` gives |
| Libcxl.Handle.HandleAck | libcxl/libcxl.c:171-201 | the fields become what `CxlSession.HandleAck` gives |
| Libcxl.Handle.HandleInterrupt | libcxl/libcxl.c:203-234 | the fields become what `CxlSession.HandleInterrupt` gives |
| Libcxl.Handle.Lose | libcxl/libcxl.c:444-447 | the handle becomes `CxlSession.Lost` of what it was |
| Libcxl.Handle.MemoryRequest | libcxl/libcxl.c:480-532 | the fields become what `CxlSession.MemoryRequest` gives |
| Libcxl.Handle.MemoryAccess | libcxl/libcxl.c:494-531 | the fields become what `CxlSession.MemoryAccess` gives |
| Libcxl.Handle.MemoryWrite | libcxl/libcxl.c:496-516 | the fields become what `CxlSession.MemoryWrite` gives |
| Libcxl.Handle.Control | libcxl/libcxl.c:443-479 | the fields become what `CxlSession.Control` gives |
| Libcxl.Handle.QueryReply | libcxl/libcxl.c:468-479 | the fields become what `CxlSession.QueryReply` gives |
| Libcxl.Handle.Dispatch | libcxl/libcxl.c:442-541 | the fields become what `CxlSession.Dispatch` gives |
| Libcxl.Handle.Tick | libcxl/libcxl.c:399-544 | the fields become what `CxlSession.Tick` gives |
| Libcxl.Handle.PslLoop | libcxl/libcxl.c:389-546 | the loop leaves the fields as `CxlSession.Run` gives them |
| Libcxl.Handle.AttachFull | libcxl/libcxl.c:1137-1141 | the fields become what `CxlSession.AttachFullBegin` gives |
| Libcxl.Handle.Attach | libcxl/libcxl.c:1148-1164 | the status and fields are what `CxlSession.AttachBegin` gives |
| Libcxl.Handle.AttachDone | libcxl/libcxl.c:1167-1169 | the fields become what `CxlSession.AttachComplete` gives |
| Libcxl.Handle.MmioMap | libcxl/libcxl.c:1259-1279 | the status and fields are what `CxlSession.MapBegin` gives |
| Libcxl.Handle.MmioMapDone | libcxl/libcxl.c:1282-1284 | the fields become what `CxlSession.MapComplete` gives |
| Libcxl.Handle.MmioRequest | libcxl/libcxl.c:1296-1309 | the status and fields are what `CxlSession.MmioBegin` gives (with lines 1323-1335, 1351-1364, 1378-1390) |
| Libcxl.Handle.MmioRead64Done | libcxl/libcxl.c:1338-1347 | the read returns the slot's data, and succeeds exactly as `CxlSession.MmioComplete` says |
| Libcxl.Handle.MmioRead32Done | libcxl/libcxl.c:1393-1402 | the read returns the slot's low word, and succeeds exactly as `CxlSession.MmioComplete` says |
| Libcxl.Handle.IsEventPending | libcxl/libcxl.c:1213-1218 | an event is pending exactly when `first_event` is not NULL |
| Libcxl.Handle.ReadEvent | libcxl/libcxl.c:1220-1242 | the outcome and the event store are what `CxlEvents.ReadEvent` gives; every other field of the handle is as it was |
| Libcxl.Handle.ReadExpectedEvent | libcxl/libcxl.c:1244-1257 | the outcome and the event store are what `CxlEvents.ReadExpectedEvent` gives; every other field of the handle is as it was |
| AfuDescriptor.ToVectorIndexDividesByEight | test/afu/Descriptor.cpp:106-111 | `to_vector_index(b)` is b / 8 |
| AfuDescriptor.RegIndexDropsTopBits | test/afu/Descriptor.cpp:117 | `get_reg` reads register `(w & 0x3FFFFFFF) >> 1`: the 32-bit shift loses the top two bits |
| AfuDescriptor.RegIndexOfSmallAddress | test/afu/Descriptor.cpp:117 | below 0x40000000 it reads register w >> 1 |
| AfuDescriptor.LowTwiceHalves | test/afu/Descriptor.cpp:123-124 | an odd word read puts the low word in both halves |
| AfuDescriptor.HighTwiceHalves | test/afu/Descriptor.cpp:125-126 | an even word read puts the high word in both halves |
| AfuDescriptor.GetReg | test/afu/Descriptor.cpp:113-127 | a doubleword read returns the whole register; a word read returns the low word twice at an odd address and the high word twice at an even one |
| AfuDescriptor.FieldNamed | test/afu/Descriptor.cpp:59-102 | a recognised field name is exactly that field's name |
| AfuDescriptor.FieldNamesRoundTrip | test/afu/Descriptor.cpp:59-100 | every field is recognised under its own name |
| AfuDescriptor.RegOf | test/afu/Descriptor.cpp:58-100 | every field lives in one of registers 0..9 |
| AfuDescriptor.SetNumIntsPerProcess | test/afu/Descriptor.cpp:59-62 | bits 48-63 of register 0x00 take the value's low 16 bits and bits 0-47 keep theirs |
| AfuDescriptor.SetNumOfProcesses | test/afu/Descriptor.cpp:63-66 | bits 32-47 take the value's low 16 bits and the other bits keep theirs |
| AfuDescriptor.SetNumOfAfuCRs | test/afu/Descriptor.cpp:67-70 | bits 16-31 take the value's low 16 bits and the other bits keep theirs |
| AfuDescriptor.SetRegProgModel | test/afu/Descriptor.cpp:71-74 | bits 0-15 take the value's low 16 bits and bits 16-63 keep theirs |
| AfuDescriptor.SetAfuCrLen | test/afu/Descriptor.cpp:76-79 | the low 56 bits of register 0x20 take the value's and the top byte keeps its own |
| AfuDescriptor.SetPerProcessPsaControl | test/afu/Descriptor.cpp:84-87 | the top byte of register 0x30 takes the value's low byte and the low 56 bits keep theirs |
| AfuDescriptor.SetPerProcessPsaLength | test/afu/Descriptor.cpp:88-91 | the low 56 bits of register 0x30 take the value's and the top byte keeps its own |
| AfuDescriptor.SetAfuEbLen | test/afu/Descriptor.cpp:96-97 | register 0x40 becomes the value's low 56 bits with a zero top byte |
| AfuDescriptor.NumIntsPerProcessOf | test/afu/Descriptor.cpp:142-146 | the getter is bits 48-63 of register 0x00 |
| AfuDescriptor.NumOfProcessOf | test/afu/Descriptor.cpp:148-152 | the getter is bits 32-47 of register 0x00 |
| AfuDescriptor.NumOfAfuCRsOf | test/afu/Descriptor.cpp:154-158 | the getter is bits 16-31 of register 0x00 |
| AfuDescriptor.RegProgModelOf | test/afu/Descriptor.cpp:160-164 | the getter is bits 0-15 of register 0x00 |
| AfuDescriptor.AfuCrLenOf | test/afu/Descriptor.cpp:166-171 | the getter is the low 56 bits of register 0x20, with a zero top byte |
| AfuDescriptor.AfuCrOffsetOf | test/afu/Descriptor.cpp:173-178 | the getter is register 0x28 whole |
| AfuDescriptor.PerProcessPsaControlOf | test/afu/Descriptor.cpp:181-185 | the getter is the top byte of register 0x30 |
| AfuDescriptor.PerProcessPsaLengthOf | test/afu/Descriptor.cpp:187-191 | the getter is the low 56 bits of register 0x30, with a zero top byte |
| AfuDescriptor.PerProcessPsaOffsetOf | test/afu/Descriptor.cpp:193-198 | the getter is register 0x38 whole |
| AfuDescriptor.AfuEbLenOf | test/afu/Descriptor.cpp:200-205 | the getter is the low 56 bits of register 0x40, with a zero top byte |
| AfuDescriptor.AfuEbOffsetOf | test/afu/Descriptor.cpp:207-212 | the getter is register 0x48 whole |
| AfuDescriptor.SetField | test/afu/Descriptor.cpp:57-100 | an assignment changes only the field's own register |
| AfuDescriptor.NumIntsPerProcessLane | test/afu/Descriptor.cpp:59-62 | setting num_ints_per_process makes its getter return the value's low 16 bits and leaves the other three getters of register 0 unchanged (with lines 142-164) |
| AfuDescriptor.NumOfProcessesLane | test/afu/Descriptor.cpp:63-66 | the same for num_of_processes (with lines 142-164) |
| AfuDescriptor.NumOfAfuCRsLane | test/afu/Descriptor.cpp:67-70 | the same for num_of_afu_CRs (with lines 142-164) |
| AfuDescriptor.RegProgModelLane | test/afu/Descriptor.cpp:71-74 | the same for reg_prog_model (with lines 142-164) |
| AfuDescriptor.PsaControlStored | test/afu/Descriptor.cpp:84-87 | PerProcessPSA_control sets the top byte of register 0x30 to the value's low byte and keeps the length (with lines 181-191) |
| AfuDescriptor.PsaLengthStored | test/afu/Descriptor.cpp:88-91 | PerProcessPSA_length sets the low 56 bits of register 0x30 and keeps the control byte (with lines 181-191) |
| AfuDescriptor.AfuCrLenStored | test/afu/Descriptor.cpp:76-79 | AFU_CR_len stores the value's low 56 bits and keeps the top byte of register 0x20 (with lines 166-171) |
| AfuDescriptor.OffsetsAndEbLength | test/afu/Descriptor.cpp:81-82 | the three offsets are stored whole and AFU_EB_len keeps the low 56 bits (with lines 93-100, 173-212) |
| AfuDescriptor.Covers | test/afu/Descriptor.cpp:129-133 | every bit of the mask is set in the programming model exactly when or-ing the mask in changes nothing |
| AfuDescriptor.IsDedicated | test/afu/Descriptor.cpp:129-133 | `is_dedicated` holds exactly when every bit of the mask is set in reg_prog_model |
| AfuDescriptor.IsDirectedAsWritten | test/afu/Descriptor.cpp:135-139 | `is_directed` as written holds exactly when the mask is 1 and reg_prog_model is 1, or the mask is 0 and reg_prog_model is not 0 |
| AfuDescriptor.IsDirected | test/afu/Descriptor.cpp:135-139 | the intended test: every bit of the mask is set in reg_prog_model |
| AfuDescriptor.IsDirectedAsWrittenNeverHolds | test/afu/Descriptor.cpp:135-139 | for a mask above 1 the test as written never holds, even when reg_prog_model is exactly the mask; the corrected test then holds |
| AfuDescriptor.WordLength | test/afu/Descriptor.cpp:37 | the first word runs up to the first white space |
| AfuDescriptor.Words | test/afu/Descriptor.cpp:37 | the words extracted are non-empty and contain no white space |
| AfuDescriptor.DigitValue | test/afu/Descriptor.cpp:45-52 | a digit is worth less than the base, and neither a sign nor an x is a digit |
| AfuDescriptor.DigitsValue | test/afu/Descriptor.cpp:45-52 | the digit loop computes the positional value of the leading run of digits, on top of what it had read before them |
| AfuDescriptor.Unsigned | test/afu/Descriptor.cpp:45-52 | `num_get` reads its digits after an optional sign and, in base 16, an optional 0x or 0X |
| AfuDescriptor.ReadNumber | test/afu/Descriptor.cpp:45-52 | extraction into a `uint64_t`: a magnitude beyond 64 bits gives the largest word whatever the sign; otherwise the magnitude, negated modulo 2^64 after a minus sign |
| AfuDescriptor.NumeralValue | test/afu/Descriptor.cpp:45-52 | the numeral printed for n, in base 10 or 16, has the positional value n |
| AfuDescriptor.ReadNumeral | test/afu/Descriptor.cpp:45-52 | the extraction reads any numeral that fits 64 bits as its number, after a plus sign as well, and after a minus sign as its negation |
| AfuDescriptor.DecimalBranch | test/afu/Descriptor.cpp:49-55 | a value without x as its second character is read in base 10 |
| AfuDescriptor.HexBranch | test/afu/Descriptor.cpp:42-48 | the text after a 0x prefix is read in base 16 |
| AfuDescriptor.ParseNumeral | test/afu/Descriptor.cpp:40-55 | every 64-bit value is read back from its decimal numeral, and from 0x followed by its hexadecimal numeral |
| AfuDescriptor.ParseSigned | test/afu/Descriptor.cpp:49-55 | a decimal value with a plus sign reads as its number, and with a minus sign as its negation modulo 2^64 |
| AfuDescriptor.ParseSignedHex | test/afu/Descriptor.cpp:42-48 | a sign after the 0x prefix negates the hexadecimal value as well |
| AfuDescriptor.ParseSaturates | test/afu/Descriptor.cpp:40-55 | a number beyond 64 bits, decimal, negative decimal or hexadecimal, reads as 0xFFFFFFFFFFFFFFFF |
| AfuDescriptor.ParseDoubleHexPrefix | test/afu/Descriptor.cpp:42-48 | under `std::hex` the extraction skips a second 0x or 0X of its own, so "0x0x" followed by a hexadecimal numeral reads as its number |
| AfuDescriptor.Extract | test/afu/Descriptor.cpp:29-37 | three or more words fill the three strings; no word leaves them as the previous line set them |
| AfuDescriptor.StepLine | test/afu/Descriptor.cpp:31-103 | comment and empty lines change nothing; otherwise the words are extracted and the named field is assigned the parsed value, and an unknown field changes no register |
| AfuDescriptor.ParseLines | test/afu/Descriptor.cpp:31-103 | parsing keeps the register vector's length |
| AfuDescriptor.ParseLinesAppend | test/afu/Descriptor.cpp:31-103 | parsing a file in two pieces, carrying the three strings across, is parsing the whole file |
| AfuDescriptor.UnknownFieldsChangeNothing | test/afu/Descriptor.cpp:33-34 | a file of comments, empty lines and unknown fields leaves every register as it was (with lines 101-102) |
| AfuDescriptor.HexValue | test/afu/Descriptor.cpp:42-48 | "0x10" is read in base 16 |
| AfuDescriptor.DecimalValue | test/afu/Descriptor.cpp:49-55 | "16" is read in base 10 |
| AfuDescriptor.SignExamples | test/afu/Descriptor.cpp:49-55 | "-1" is read as 0xFFFFFFFFFFFFFFFF and "+5" as 5 |
| AfuDescriptor.DoubleHexPrefix | test/afu/Descriptor.cpp:42-48 | "0x0x10" is read as 16 |
| AfuDescriptor.BlankHasNoWords | test/afu/Descriptor.cpp:37 | a line of white space yields no word |
| AfuDescriptor.BlankLineRepeatsPrevious | test/afu/Descriptor.cpp:29-37 | a non-empty blank line is not skipped and assigns the previous line's field and value once more (with lines 57-102) |
| AfuDescriptor.Descriptor.constructor | test/afu/Descriptor.cpp:12 | the register vector starts with DESCRIPTOR_NUM_REGS zeros |
| AfuDescriptor.Descriptor.ParseDescriptorFile | test/afu/Descriptor.cpp:20-104 | the loop leaves the register array as `ParseLines` gives it |
| AfuContexts.Find | test/afu/AFU.cpp:313-337 | `find` returns the position of the key when the map holds it, and None exactly when it does not |
| AfuContexts.InsertPos | test/afu/AFU.cpp:318-319 | the insert position of a key is after every smaller key and before every larger one |
| AfuContexts.Insert | test/afu/AFU.cpp:318-319 | inserting a fresh key keeps the keys sorted and adds one entry |
| AfuContexts.InsertIsMapInsert | test/afu/AFU.cpp:318-319 | inserting into the sorted sequence is inserting into the map |
| AfuContexts.Erase | test/afu/AFU.cpp:350 | erasing keeps the keys sorted, does nothing for a missing key and removes one entry otherwise |
| AfuContexts.EraseIsMapErase | test/afu/AFU.cpp:350 | erasing from the sequence is removing the key from the map |
| AfuContexts.DisableAt | test/afu/AFU.cpp:331-332 | disabling one entry's machines changes only that entry's enabled flag |
| AfuContexts.DisableAll | test/afu/AFU.cpp:278-280 | disabling every context keeps the keys and clears every enabled flag |
| AfuContexts.FirstOwner | test/afu/AFU.cpp:505-511 | the first context in key order owning the tag, or None when none does |
| AfuContexts.FirstSender | test/afu/AFU.cpp:143-155 | the first context in cyclic order from the start that sends, with none before it sending |
| AfuContexts.RoundRobin | test/afu/AFU.cpp:139-156 | the walk as intended: with no sender the cursor stays; otherwise it ends just past a context that sent |
| AfuContexts.FavouredSenderAdvancesByOne | test/afu/AFU.cpp:144-152 | when the favoured context sends, the cursor advances by one, and from end() to the entry after begin() |
| AfuContexts.RoundRobinSkipsOnlyIdle | test/afu/AFU.cpp:143-155 | the contexts passed over are exactly those before the first sender, which ends the walk |
| AfuContexts.AsWrittenPass | test/afu/AFU.cpp:144-155 | one pass of the do-while as written |
| AfuContexts.AsWrittenWalk | test/afu/AFU.cpp:141-155 | the do-while as written, for a bounded number of passes |
| AfuContexts.AsWrittenHangsAtBegin | test/afu/AFU.cpp:141-155 | with the saved cursor at begin() and no sender, the loop as written never ends |
| AfuContexts.AsWrittenRoundRobin | test/afu/AFU.cpp:139-156 | the loop as written never ends exactly when the saved cursor is begin() and no context sends; otherwise it ends where the intended walk does |
| AfuContexts.AsWrittenWalkFrom | test/afu/AFU.cpp:141-155 | from any point of the walk the loop as written ends where the intended walk does, as long as it ends |
| AfuContexts.AsWrittenAgreesWhenItEnds | test/afu/AFU.cpp:139-156 | whenever the loop as written ends, it agrees with the intended walk |
| SimAfu.ResetMachineControllers | test/afu/AFU.cpp:240-258 | no tag is in use; the map is {0 ↦ new machine} in dedicated mode and empty otherwise; the cursor is end() in dedicated mode and left dangling otherwise |
| SimAfu.ResetAfu | test/afu/AFU.cpp:229-238 | the global registers are zero, the reset delay is 0, and state and job lines are unchanged |
| SimAfu.LlcmdId | test/afu/AFU.cpp:313-318 | the context id of an LLCMD is the low 16 bits of the job address |
| SimAfu.Initial | test/afu/AFU.cpp:18-39 | the AFU starts IDLE with zeroed global registers |
| SimAfu.AddContext | test/afu/AFU.cpp:312-324 | a successful ADD changes only the map and the cursor, and the cursor only for id 0 |
| SimAfu.TerminateContext | test/afu/AFU.cpp:325-333 | a successful TERMINATE changes only the map; the cursor stays where it was |
| SimAfu.RemoveContext | test/afu/AFU.cpp:334-351 | a successful REMOVE changes only the map and the cursor |
| SimAfu.ResolveLlcmd | test/afu/AFU.cpp:309-355 | a successful LLCMD changes only the map and the cursor |
| SimAfu.LlcmdCommand | test/afu/AFU.cpp:311-354 | the same, for the command already masked |
| SimAfu.ResolveControl | test/afu/AFU.cpp:260-356 | a control event keeps the output and job_done; global register 2 keeps bit 63 only |
| SimAfu.ReadParity | test/afu/AFU.cpp:429-432 | the read parity is odd parity of data + 1 when bit 63 of global register 2 is set, and of the data otherwise (with lines 556-559) |
| SimAfu.ResolveDescriptorAccess | test/afu/AFU.cpp:358-375 | a descriptor access succeeds only for a read with a working interface, and acknowledges `get_reg` with its parity |
| SimAfu.GlobalWrite | test/afu/AFU.cpp:448-472 | a global write never touches the map or the output, and leaves only bit 63 in register 2 |
| SimAfu.HalvesDiffer | test/afu/AFU.cpp:438-442 | a word write's halves agree exactly when the data is its low word twice |
| SimAfu.HalvesDifferMeans | test/afu/AFU.cpp:438-442 | the duplicated-write test compares the high and the low word |
| SimAfu.MmioRead | test/afu/AFU.cpp:380-435 | a read is acknowledged with `MmioReadData` (a global register, the context's answer or all ones) and its parity per bit 63 of register 2; a failed acknowledge is fatal; the map, the registers and job_done are unchanged |
| SimAfu.GlobalRead | test/afu/AFU.cpp:386-404 | a doubleword read below 0x400 gives the selected global register whole |
| SimAfu.WindowOf | test/afu/AFU.cpp:409-413 | the window number is cut to 16 bits |
| SimAfu.WindowRead | test/afu/AFU.cpp:406-424 | a read at or above 0x400 is what the window's context answers when the map holds the window's id, and all ones otherwise |
| SimAfu.MmioReadData | test/afu/AFU.cpp:382-424 | a read below 0x400 is `GlobalRead`; above it, the window's context answer when present, all ones otherwise |
| SimAfu.MmioWrite | test/afu/AFU.cpp:436-494 | a word write with unequal halves is fatal; otherwise below 0x400 the `GlobalWrite` is done (its error is fatal) and above it the `WindowWrite`, each then acknowledged with (0, 0); a failed acknowledge is fatal; the map and job_done are unchanged and register 2 holds bit 63 only |
| SimAfu.WindowWrite | test/afu/AFU.cpp:473-490 | a context write changes neither the map, the state nor the registers |
| SimAfu.ResolveMmio | test/afu/AFU.cpp:377-496 | a read is acknowledged with `MmioReadData` and its parity; a write with unequal word halves is fatal, otherwise goes to `GlobalWrite` or `WindowWrite` and is acknowledged with (0, 0); a failed acknowledge is fatal; the map and job_done are unchanged and register 2 holds bit 63 only |
| SimAfu.MmioEvent | test/afu/AFU.cpp:87-108 | an event survives only if it is not an odd doubleword address, a descriptor access is not in IDLE or RESET, and any other access is in RUNNING or WAITING_FOR_LAST_RESPONSES; past those checks a descriptor access goes to `ResolveDescriptorAccess` and any other to `ResolveMmio`; job_done and register 2's shape are kept |
| SimAfu.TaggedEvent | test/afu/AFU.cpp:76-85 | a tagged event keeps job_done and register 2's shape (with lines 110-130, 498-542) |
| SimAfu.Aux1Event | test/afu/AFU.cpp:132-136 | an aux1 change is fatal exactly in RUNNING; otherwise it only passes on the room as the credit count (with lines 220-227) |
| SimAfu.CursorPosition | test/afu/AFU.cpp:141-156 | the round-robin iterator is a position in the map, or dangling |
| SimAfu.SendCommands | test/afu/AFU.cpp:139-156 | the walk as written: undefined exactly when the map is non-empty and the cursor dangles; a hang exactly when the cursor is begin() and no context sends; otherwise only the cursor changes, to where the intended walk `RoundRobin` ends |
| SimAfu.CountDownReset | test/afu/AFU.cpp:158-178 | a RESET pass keeps the state well formed |
| SimAfu.FinishShutdown | test/afu/AFU.cpp:179-204 | a WAITING_FOR_LAST_RESPONSES pass keeps the state well formed |
| SimAfu.AfterEvents | test/afu/AFU.cpp:138-204 | job_done is newly raised only on reaching READY or IDLE |
| SimAfu.EarlyEvents | test/afu/AFU.cpp:68-108 | job, response and MMIO events keep job_done and register 2's shape |
| SimAfu.LateEvents | test/afu/AFU.cpp:110-136 | buffer and aux1 events keep job_done and register 2's shape |
| SimAfu.Step | test/afu/AFU.cpp:62-204 | after a pass job_done is high only in READY or IDLE, and register 2's shape is kept; a round-robin loop that never ends halts the pass |
| SimAfu.Run | test/afu/AFU.cpp:41-206 | a run that does not halt ends in a well-formed state |
| SimAfu.ResetJobDisablesEverything | test/afu/AFU.cpp:269-283 | RESET lowers job_running, disables every machine, keeps the context ids and waits 1000 passes in RESET |
| SimAfu.JobCodeParityChecked | test/afu/AFU.cpp:264-267 | a job code with bad parity is fatal while parity is enabled |
| SimAfu.StartOnlyFromReady | test/afu/AFU.cpp:284-307 | START succeeds exactly in READY, then stores the job address in register 1 and enters RUNNING with job_running |
| SimAfu.AddContextInserts | test/afu/AFU.cpp:312-324 | ADD is fatal exactly for an id already present; otherwise the id maps to a new machine, the cursor is end() for id 0 and stays where it was for any other id |
| SimAfu.RemoveContextErases | test/afu/AFU.cpp:334-351 | REMOVE succeeds exactly for a present id whose machines have all completed, and then removes only that id; a cursor on that id dangles (the `erase` invalidates it) and any other cursor stays |
| SimAfu.TerminateContextDisables | test/afu/AFU.cpp:325-333 | TERMINATE succeeds exactly for a present id, and then disables only that context's machines and leaves the cursor where it was |
| SimAfu.UnknownLlcmdFails | test/afu/AFU.cpp:352-353 | any other LLCMD code is fatal |
| SimAfu.CountDown | test/afu/AFU.cpp:158-178 | passes of the countdown keep the state well formed |
| SimAfu.CountDownDecrements | test/afu/AFU.cpp:173-177 | while the delay is positive each pass only decrements it |
| SimAfu.ResetTakesDelayPlusOnePasses | test/afu/AFU.cpp:158-177 | a reset with delay d stays in RESET for d passes and is READY on pass d+1, with zero registers, delay 0 and job_done raised (with lines 229-238) |
| SimAfu.ShutdownWaitsForAllMachines | test/afu/AFU.cpp:179-204 | the AFU leaves WAITING_FOR_LAST_RESPONSES for IDLE exactly when all machines have completed, with job_running low, job_done high and no tag in use; otherwise nothing changes |
| SimAfu.GlobalRegisterTable | test/afu/AFU.cpp:386-396 | global reads give register 2 at 0x4/0x5, register 1 at 0x2/0x3 and all ones elsewhere |
| SimAfu.OddWordReadHalves | test/afu/AFU.cpp:398-400 | an odd word read carries the low word in both halves |
| SimAfu.EvenWordReadHalves | test/afu/AFU.cpp:401-402 | an even word read carries the high word in both halves |
| SimAfu.GlobalWriteEffects | test/afu/AFU.cpp:448-471 | a write to 0x0/0x1 is fatal exactly when a machine is enabled and otherwise only enters WAITING_FOR_LAST_RESPONSES; one to 0x4/0x5 keeps only bit 63 in register 2; any other address changes nothing |
| SimAfu.WordWriteNeedsEqualHalves | test/afu/AFU.cpp:438-442 | a word write whose halves differ is fatal |
| SimAfu.OddDoublewordFails | test/afu/AFU.cpp:88-89 | a doubleword access at an odd address is fatal |
| SimAfu.WindowIsDivision | test/afu/AFU.cpp:14-16 | the context window is `(address - 0x400) / 0x400`, truncated to the map's 16-bit key (with lines 409-413) |
| SimAfu.WindowDecoding | test/afu/AFU.cpp:14-16 | window, base offset and `address & 0x3FF` put back together give the address (with lines 418 and 483) |
| SimAfu.MissingContextWindow | test/afu/AFU.cpp:406-424 | a window with no context reads as all ones and drops writes, each acknowledged (with lines 473-493) |
| SimAfu.PresentContextWindowWrite | test/afu/AFU.cpp:482-485 | a write to a present context goes to its machine |
| SimAfu.TaggedEventRouting | test/afu/AFU.cpp:498-542 | a tag not in use is fatal; otherwise the event goes to the first context in key order owning the tag, or nowhere |
| SimAfu.TaggedEventNeedsActiveAfu | test/afu/AFU.cpp:76-126 | in IDLE or READY a tagged event is fatal |
| SimAfu.FavouredContextAdvancesCursor | test/afu/AFU.cpp:144-152 | when the favoured context sends, the cursor advances by one entry, from end() to the entry after begin() |
| SimAfu.IdleContextsKeepCursor | test/afu/AFU.cpp:143-155 | when no context sends and the cursor is not begin(), nothing changes |
| SimAfu.IdleContextsAtBeginHang | test/afu/AFU.cpp:141-155 | when no context sends and the cursor is begin(), the walk halts with `Hang`, and the loop as written ends within no number of passes |
| AfuObject.VerdictOf | test/afu/AFU.cpp:79-80 | the object goes on exactly when the functional step succeeded |
| AfuObject.WalkRoundRobin | test/afu/AFU.cpp:139-156 | the loop as written: `None` (never ends) exactly when the saved cursor is begin() and no context sends; otherwise it ends where `AfuContexts.RoundRobin` says |
| AfuObject.Afu.constructor | test/afu/AFU.cpp:18-39 | the new object is `SimAfu.Initial` |
| AfuObject.Afu.ClearGlobalConfigs | test/afu/AFU.cpp:232-233 | the three global registers become zero |
| AfuObject.Afu.Reset | test/afu/AFU.cpp:229-238 | the object becomes `SimAfu.ResetAfu` of what it was |
| AfuObject.Afu.ResetMachineControllers | test/afu/AFU.cpp:240-258 | the object becomes `SimAfu.ResetMachineControllers` of what it was |
| AfuObject.Afu.DisableAllMachines | test/afu/AFU.cpp:278-280 | only the map changes, to `AfuContexts.DisableAll` of it |
| AfuObject.Afu.AnyMachineEnabled | test/afu/AFU.cpp:452-458 | the loop finds an enabled machine exactly when there is one |
| AfuObject.Afu.AllMachinesCompleted | test/afu/AFU.cpp:181-188 | the loop reports completion exactly when every machine has completed |
| AfuObject.Afu.OwnerOf | test/afu/AFU.cpp:505-511 | the loop stops at `AfuContexts.FirstOwner` |
| AfuObject.Afu.ResolveControlEvent | test/afu/AFU.cpp:260-356 | verdict and new state are those of `SimAfu.ResolveControl` |
| AfuObject.Afu.ResolveLlcmd | test/afu/AFU.cpp:309-355 | verdict and new state are those of `SimAfu.ResolveLlcmd` |
| AfuObject.Afu.LlcmdCommand | test/afu/AFU.cpp:311-354 | verdict and new state are those of `SimAfu.LlcmdCommand` |
| AfuObject.Afu.AddContext | test/afu/AFU.cpp:312-324 | verdict and new state are those of `SimAfu.AddContext` |
| AfuObject.Afu.TerminateContext | test/afu/AFU.cpp:325-333 | verdict and new state are those of `SimAfu.TerminateContext` |
| AfuObject.Afu.RemoveContext | test/afu/AFU.cpp:334-351 | verdict and new state are those of `SimAfu.RemoveContext` |
| AfuObject.Afu.ResolveMmioDescriptorEvent | test/afu/AFU.cpp:358-375 | verdict and new state are those of `SimAfu.ResolveDescriptorAccess` |
| AfuObject.Afu.ResolveMmioEvent | test/afu/AFU.cpp:377-496 | verdict and new state are those of `SimAfu.ResolveMmio` |
| AfuObject.Afu.ReadGlobal | test/afu/AFU.cpp:386-404 | the value read from the global registers array is `SimAfu.GlobalRead` of it |
| AfuObject.Afu.ReadWindow | test/afu/AFU.cpp:406-424 | the value read from a context window is `SimAfu.WindowRead` |
| AfuObject.Afu.ReadAck | test/afu/AFU.cpp:429-434 | a read's acknowledge carries the data, with the odd parity of data + 1 when bit 63 of global register 2 is set and of the data otherwise |
| AfuObject.Afu.MmioReadValue | test/afu/AFU.cpp:382-424 | the value of a read is `SimAfu.MmioReadData` |
| AfuObject.Afu.MmioRead | test/afu/AFU.cpp:380-435 | verdict and new state are those of `SimAfu.MmioRead` |
| AfuObject.Afu.MmioWrite | test/afu/AFU.cpp:436-494 | verdict and new state are those of `SimAfu.MmioWrite` |
| AfuObject.Afu.WriteGlobal | test/afu/AFU.cpp:448-472 | verdict and new state are those of `SimAfu.GlobalWrite` |
| AfuObject.Afu.WriteContext | test/afu/AFU.cpp:473-490 | the new state is `SimAfu.WindowWrite` |
| AfuObject.Afu.DispatchMmio | test/afu/AFU.cpp:87-108 | verdict and new state are those of `SimAfu.MmioEvent` |
| AfuObject.Afu.ResolveTaggedEvent | test/afu/AFU.cpp:76-85 | verdict and new state are those of `SimAfu.TaggedEvent` (with lines 110-130, 498-542) |
| AfuObject.Afu.ResolveAux1Event | test/afu/AFU.cpp:132-136 | verdict and new state are those of `SimAfu.Aux1Event` (with lines 220-227) |
| AfuObject.Afu.GenerateCommands | test/afu/AFU.cpp:139-156 | verdict and new state are those of `SimAfu.SendCommands`, the hang included |
| AfuObject.Afu.CountDownReset | test/afu/AFU.cpp:158-178 | verdict and new state are those of `SimAfu.CountDownReset` |
| AfuObject.Afu.FinishShutdown | test/afu/AFU.cpp:179-204 | verdict and new state are those of `SimAfu.FinishShutdown` |
| AfuObject.Afu.AfterEvents | test/afu/AFU.cpp:138-204 | verdict and new state are those of `SimAfu.AfterEvents` |
| AfuObject.Afu.EarlyEvents | test/afu/AFU.cpp:65-108 | verdict and new state are those of `SimAfu.EarlyEvents` |
| AfuObject.Afu.LateEvents | test/afu/AFU.cpp:110-136 | verdict and new state are those of `SimAfu.LateEvents` |
| AfuObject.Afu.Step | test/afu/AFU.cpp:62-204 | verdict and new state are those of `SimAfu.Step` |
| AfuObject.Afu.Start | test/afu/AFU.cpp:41-206 | the event loop ends as `SimAfu.Run` says, and the object then holds its last state |
| PslseMmio.CallFor | pslse/mmio.c:196-213 | a read event is driven with psl_mmio_read and no data; a write with psl_mmio_write and its data |
| PslseMmio.ClientWord32 | libcxl/libcxl.c:319-374 | a 32-bit field is the value whose little-endian encoding the client sent |
| PslseMmio.ClientWord64 | libcxl/libcxl.c:322 | a 64-bit field is the value whose little-endian encoding the client sent |
| PslseMmio.ClientWordsRoundTrip | libcxl/libcxl.c:319-322 | decoding a client field recovers the value the client encoded |
| PslseMmio.DuplicatedHalves | pslse/mmio.c:349-351 | a 32-bit write's data carries the word in both halves |
| PslseMmio.DecodeWrite | pslse/mmio.c:320-360 | as written: a write is queued exactly when the offset and data bytes are there, at word address `ntohl(offset) / 4`, with `ntohll` of the doubleword or the `ntohl` word in both halves; not a read, the requested width, not a descriptor access, IDLE |
| PslseMmio.DecodeRead | pslse/mmio.c:363-382 | as written: a read is queued exactly when the offset bytes are there, at word address `ntohl(offset) / 4`, with data 0 |
| PslseMmio.DecodesWrite64Frame | pslse/mmio.c:330-353 | as written, a 64-bit write frame from libcxl is queued at the byte-swapped offset over 4 with the byte-swapped data |
| PslseMmio.DecodesWrite32Frame | pslse/mmio.c:343-353 | as written, a 32-bit write frame is queued at the byte-swapped offset over 4 with the byte-swapped word in both halves |
| PslseMmio.DecodesReadFrame | pslse/mmio.c:370-375 | as written, a read frame of either width is queued at the byte-swapped offset over 4 with data 0 |
| PslseMmio.OffsetAsWritten | pslse/mmio.c:334-374 | the offset as the source decodes it with `ntohl` |
| PslseMmio.Data64AsWritten | pslse/mmio.c:341 | the data as the source decodes it with `ntohll` |
| PslseMmio.OffsetAsWrittenMisreads | pslse/mmio.c:334-341 | as written, a write of 1 at offset 8 is queued at word address 0x02000000 with data 0x0100000000000000 |
| PslseMmio.IntendedWrite | pslse/mmio.c:320-360 | the little-endian decoding the client's encoding calls for: queued exactly when the bytes are there, and the word address and data re-encode to the bytes sent |
| PslseMmio.IntendedRead | pslse/mmio.c:363-382 | the same for a read |
| PslseMmio.IntendedDecodesWrite64Frame | pslse/mmio.c:330-353 | with the intended decoding, a 64-bit write of data at byte offset addr is queued at word address addr / 4 with that data |
| PslseMmio.IntendedDecodesWrite32Frame | pslse/mmio.c:343-353 | a 32-bit write is then queued with the client's word in both halves |
| PslseMmio.IntendedDecodesReadFrame | pslse/mmio.c:370-375 | a read of either width is then queued at word address addr / 4 |
| PslseMmio.DoneReply | pslse/mmio.c:421-450 | the answer to a DONE event starts with the ack byte and is 9 bytes for a doubleword read, 5 for a word read and 1 for a write |
| PslseMmio.ClientReadsDoubleReply | pslse/mmio.c:423-426 | libcxl decodes a doubleword reply as the data the AFU returned |
| PslseMmio.ClientReadsWordReply | pslse/mmio.c:433-435 | libcxl decodes a word reply as the low word of that data |
| PslseMmio.DecodeReg0 | pslse/mmio.c:136-141 | the four 16-bit fields put back in their lanes give register 0x00 again |
| PslseMmio.DecodeReg0Inverts | pslse/mmio.c:136-141 | any four fields are recovered from the register they make |
| PslseMmio.Reg0Fields | pslse/mmio.c:136-141 | the fields are bits 0-15, 16-31, 32-47 and 48-63 |
| PslseMmio.DescriptorFrom | pslse/mmio.c:135-166 | register 0x00 is split into its fields, and the other six registers are kept whole in order |
| PslseMmio.CheckDescriptor | pslse/mmio.c:168-181 | a descriptor is accepted exactly when num_of_processes is not 0 and req_prog_model & 0x7FFF is 0x0010 |
| PslseMmio.AcceptedDescriptorMode | pslse/mmio.c:168-179 | with a 0x7FFF mask an accepted descriptor supports exactly the mode code 0x0010 (with lines 458-468) |
| PslseMmio.AfuAnswers | pslse/mmio.c:126-132 | the seven values read are the test AFU's registers 0, 4, 5, 6, 7, 8 and 9 |
| PslseMmio.EmulatorSeesAfuReg0 | pslse/mmio.c:136-141 | the emulator's four register-0 fields equal the test AFU's own getters |
| PslseMmio.EmulatorSeesAfuRegisters | pslse/mmio.c:145-165 | the emulator holds the test AFU's lengths, offsets and PSA register as they are |
| PslseMmio.LinkFrom | pslse/mmio.c:82-88 | following `_next` from a list event leads to the next one, and only the tail links to NULL |
| PslseMmio.FindTail | pslse/mmio.c:85-88 | the walk from the head ends at the last event of the list |
| PslseMmio.AppendKeepsLinked | pslse/mmio.c:76-88 | appending a fresh IDLE event keeps the list well formed |
| PslseMmio.SendKeepsLinked | pslse/mmio.c:209-230 | making an IDLE head PENDING keeps the list well formed |
| PslseMmio.AckKeepsLinked | pslse/mmio.c:271-274 | completing the PENDING head and moving to its successor keeps the list well formed |
| PslseMmio.FreeKeepsLinked | pslse/mmio.c:452 | freeing DONE events keeps the list well formed |
| PslseMmio.DataOf | pslse/mmio.c:135-166 | the data of the seven events, in order |
| PslseMmio.Mmio.constructor | pslse/mmio.c:48-61 | an empty list, no flags, a zero descriptor |
| PslseMmio.Mmio.AddEvent | pslse/mmio.c:64-111 | NULL from malloc changes nothing; otherwise the new IDLE event is at the tail, and every earlier event keeps its place and contents |
| PslseMmio.Mmio.SendMmio | pslse/mmio.c:185-232 | nothing happens when the list is empty or its head is PENDING; otherwise the head is offered and becomes PENDING exactly when the send succeeds |
| PslseMmio.Mmio.HandleMmioAck | pslse/mmio.c:235-276 | an ack without a PENDING head is ignored; otherwise a read keeps the data, the head becomes DONE and the list moves to its successor; a parity mismatch is reported when parity is enabled |
| PslseMmio.Mmio.CompleteHead | pslse/mmio.c:271-274 | the head gets the data and becomes DONE, and the list moves on |
| PslseMmio.Mmio.HandleMmioMap | pslse/mmio.c:279-317 | without the PSA-required bit the map fails and reads nothing from the socket; four missing flag bytes fail and drop; otherwise the flags are `ntohl` of them, the first nonzero flags latch, different flags later fail and leave them; the one-byte answer is always put; what is left in the socket is returned |
| PslseMmio.Mmio.HandleMmioWrite | pslse/mmio.c:320-360 | a short read drops the client and queues nothing; otherwise the write `DecodeWrite` gives is queued at the tail, and exactly its bytes are consumed |
| PslseMmio.Mmio.HandleMmioRead | pslse/mmio.c:363-382 | a short read drops the client and queues nothing; otherwise the read `DecodeRead` gives is queued at the tail, and exactly the four offset bytes are consumed |
| PslseMmio.Mmio.HandleMmio | pslse/mmio.c:385-403 | a client that is not valid gets MMIO_FAIL and nothing is read or queued; otherwise the request is read, decoded as written and queued |
| PslseMmio.Mmio.HandleMmioDone | pslse/mmio.c:406-456 | no event gives NULL; an event not yet DONE is returned untouched; a DONE event is answered, freed, and NULL returned |
| PslseMmio.Mmio.QueueDescriptorReads | pslse/mmio.c:125-132 | the seven descriptor reads join the list in order, at the seven addresses malloc returned |
| PslseMmio.Mmio.QueueDescriptorRead | pslse/mmio.c:99-103 | one descriptor read joins the list |
| PslseMmio.Mmio.CompleteDescriptorRead | pslse/mmio.c:134-182 | the descriptor is built from the seven results, the events are freed, and the result is 0, or -1 with ENODEV when the check rejects it |
| PslseMmio.Mmio.FreeDone | pslse/mmio.c:142-166 | freeing DONE events removes them and their links only |

## Left out

- Sockets, `select`, `bytes_ready` and `pipe` writes are not modelled as I/O. Sends append to a byte sequence, receives consume one, and whether a send succeeds is a parameter.
- `_pslse_connect`'s configuration file, host lookup and `connect` are not part of this model. It keeps only the handshake frame and the decoding of the reply.
- Threads and busy-waits are left out: the poller thread, `pthread_create`/`pthread_join`, and the `while (state != IDLE) _delay_1ms()` loops of the API calls. Each API call is split into the part before its wait and the part after it, and the poller's iteration is a separate operation. So the model does not capture the unsynchronised sharing of the handle between the two threads.
- The position check and MMIO epilogues always take a handle. A NULL `afu` argument is not modelled, apart from `cxl_read_event`'s NULL event buffer.
- `_testmemaddr` probes memory through a kernel trick. It is an oracle (the set of valid addresses), and application memory is a map from addresses to bytes.
- Adapter and AFU enumeration is left out: `cxl_adapter_next`, `cxl_adapter_afu_next`, `cxl_afu_next`, `cxl_adapter_free`, `_new_adapter`, `_release_afus` and `_release_adapters`. So are `cxl_afu_open_h`, `cxl_afu_free`, `cxl_afu_opened`, `cxl_afu_fd`, `cxl_mmio_unmap` and the `cxl_get_*` getters. They are pointer bookkeeping and one-line field accesses outside the modelled core.
- `cxl_afu_open_dev` is modelled as its device-name checks (`ParseDevName`) plus the position check (`OpenPosition`). The open handshake over the poller thread is left out.
- The `psl_*` calls of the AFU and the emulator (`psl_afu_aux2_change`, `psl_afu_mmio_ack`, `psl_mmio_read/write`, `psl_get_mmio_acknowledge`, `psl_get_psl_events`) are foreign. Their success is a parameter and their effect is an output value.
- `generate_parity` has no body in the sources of this model. The AFU uses an uninterpreted `OddParityOf`, and the emulator takes the function as a parameter.
- Machine controllers are abstract: per context an enabled flag, an all-completed flag and the set of tags it owns. A new controller is a configuration parameter. Their `send_command`, `process_*` and `get/change_machine_config` are inputs or outputs of the step.
- `TagManager` is abstract: a set of tags in use. `set_max_credits` and `reset` are outputs.
- Logging (`debug_*`, `info_msg`, `warn_msg`, `DPRINTF`, `printf`) and `set_seed` are left out. In the test AFU `error_msg` ends the program, and that becomes a `Stop(Error)` outcome; in `pslse/mmio.c` it only logs.
- Dereferencing the round-robin iterator after the map was cleared or the favoured entry erased is undefined behaviour in C++. It becomes `Stop(Undefined)`.
- The AFU's socket and cycle counter, and the descriptor file's opening, are left out. The parser works on the file's lines.
- `read_descriptor`'s `_wait_for_done` and `lock_delay` waits are left out. The function is split into `QueueDescriptorReads` and `CompleteDescriptorRead`, which requires the seven events to be DONE.
- The seven `_add_desc` calls are written as one loop over their addresses.
- `read_descriptor` dereferences malloc's result without a NULL check, so NULL is excluded there. `_add_event` itself handles NULL.
- `mmio_init`'s calloc failure is left out.
- `handle_mmio_done` copies host memory into the reply. The model takes a little-endian host.
- CxlSession.HandleAck and Libcxl.Handle.HandleAck: for a READ32 ack, `_handle_ack` copies four bytes into the first bytes of the 64-bit `mmio.data` and applies `le32toh` to its low 32 bits (libcxl/libcxl.c:196-197). The model takes a little-endian host, where that is the received word. On a big-endian host the bytes land in the high half, and the model does not capture that outcome.
- SimAfu.SendCommands: the contexts that send are one set for the whole pass (`senders`), so a context re-offered within one round-robin loop gives the same `send_command` answer again. Its `Stop(Hang)` verdict holds under that assumption. The machine controller is not part of this model, so the assumption is not checked against `send_command`; it is the expected case for a context whose machines are all disabled.
- `client_drop` is reported as a `dropped` flag. The client's own state is not part of this model.
- PslseMmio.Mmio.HandleMmioAck: the parity result is reported, not acted on, because `error_msg` there only logs.
- SimAfu.CountDownReset, SimAfu.FinishShutdown, SimAfu.CountDown and SimAfu.Run promise only well-formedness in their own contracts. What these passes do is stated by `ResetTakesDelayPlusOnePasses`, `CountDownDecrements` and `ShutdownWaitsForAllMachines`.
- AfuContexts.AsWrittenWalk: the do-while as written can loop forever, so it is modelled with a pass bound (`fuel`). `None` means that the bound ran out.
- The uint32 window index is truncated to the map's 16-bit key, as in the source. Addresses whose window index exceeds 16 bits alias.
- SimAfu.WindowOf: its own contract states only the 16-bit bound; that the window is `(address - 0x400) / 0x400` is `WindowIsDivision`.
- SimAfu.GlobalRead: its own contract states the doubleword case; the word halves of a word read are stated by `OddWordReadHalves` and `EvenWordReadHalves`.
- CxlSession.HandleInterrupt: `_handle_interrupt` receives four bytes into the two-byte `data` buffer (libcxl/libcxl.c:206 and 210). The overrun is undefined behaviour; the model receives into a four-byte buffer and does not model what the overrun corrupts. `InterruptReceiveOverruns` states the overrun.
- Libcxl.Handle.HandleInterrupt: the same four-byte buffer, through `CxlSession.HandleInterrupt`.
- CxlSession.InterruptRoundTrip: the stored interrupt number is the one of the four-byte receive; the overrun of the source's buffer is not modelled.
- CxlSession.DecodeQuery is the intended decoding of the QUERY reply. The poller (`Control`, `Dispatch`, `Tick`, `Run` and their `Handle` methods) decodes it as written, with `QueryAsWritten`.

## Findings

| source | as written | input that shows it | evidently intended | confidence | as-written member | corrected member |
|---|---|---|---|---|---|---|
| libcxl/libcxl.c:468-479 | the QUERY reply's four bytes land in `buffer[0..3]`, but the counts are read from `buffer[1..2]` and `buffer[3..4]` | an emulator reply of minimum 1, maximum 2 (bytes 01 00 02 00) gives minimum 0x0200 and a maximum whose high byte is a stale byte | minimum from bytes 0-1, maximum from bytes 2-3 | not executed | CxlSession.QueryMisreadThroughPoller | CxlSession.DecodeQuery |
| test/afu/Descriptor.cpp:135-139 | `is_directed` compares `(reg_prog_model == MASK_IS_DIRECTED)`, a bool, with the mask again | any mask other than 0 and 1, with reg_prog_model set to exactly that mask: the test is false | the same form as `is_dedicated`: `(reg_prog_model & MASK) == MASK` | not executed | AfuDescriptor.IsDirectedAsWrittenNeverHolds | AfuDescriptor.IsDirected |
| test/afu/AFU.cpp:139-156 | the do-while stops only when the cursor comes back to its saved value, but the loop moves `end()` to `begin()` first; a saved cursor at `begin()` after a wrap is never met again when nobody sends | directed mode: ADD 0, ADD 3, START, context 0 sends (the cursor is at 3), REMOVE 0 once its machines have completed (the cursor is now `begin()`), then a pass in which no context sends: the loop never ends | offer each context at most once per pass and stop | not executed | SimAfu.IdleContextsAtBeginHang | AfuContexts.RoundRobin |
| pslse/mmio.c:330-375 | the emulator decodes the offset and data with `ntohl`/`ntohll`, while libcxl encodes them with `htole32`/`htole64` (libcxl/libcxl.c:319, 322, 347, 350, 374), so every field arrives byte-swapped | `cxl_mmio_write64(afu, 8, 1)` is queued at word address 0x02000000 with data 0x0100000000000000 | little-endian decoding: word address 2, data 1 | not executed | PslseMmio.OffsetAsWrittenMisreads | PslseMmio.IntendedDecodesWrite64Frame |
| libcxl/libcxl.c:205-210 | `_handle_interrupt` receives four bytes into `uint8_t data[sizeof(uint16_t)]`, a two-byte stack buffer | any interrupt frame: the receive writes two bytes past `data` | a buffer of four bytes | not executed | CxlSession.InterruptReceiveOverruns | CxlSession.HandleInterrupt |
