/** The simulated AFU of the test bench (test/afu/AFU.cpp): its job-control state
    machine, the global configuration registers, the MMIO dispatcher and the body of
    the event loop in `AFU::start`.

    The functions below say what each handler does to a snapshot of the AFU; the class
    `Afu` at the end holds the same state in fields and an array and is proved to follow
    them.  `error_msg` ends the simulator, so a handler either succeeds with a new
    snapshot or stops; a stop is also used where the C++ has undefined behaviour.
    Everything the AFU asks of code that is not part of this model arrives as an input:
    whether the PSL interface calls succeed, the parity checks, the configuration value a
    context returns, and which contexts have a command to send. */
module SimAfu {
  import opened AfuContexts
  import AfuDescriptor

  /* The address constants GLOBAL_CONFIG_OFFSET and CONTEXT_SIZE (both 0x400), the
     in-window mask 0x3FF, the all-ones read value and bit 63 of register 2 are written
     as literals below: the solver folds literals but not named bit-vector constants. */
  const ResetCycles: nat := 1000

  datatype AfuState = Idle | Reset | Ready | Running | WaitingForLastResponses

  /** `highest_priority_mc`: an iterator to an entry, `end()`, or one that no longer
      points into the map (default-constructed, or invalidated by `erase`/`clear`). */
  datatype Cursor = At(key: Id) | End | Dangling

  datatype TagKind = ResponseTag | BufferWriteTag | BufferReadTag

  /** A call the AFU makes on a machine controller. */
  datatype Forward =
    | Tagged(kind: TagKind, tag: Tag)                    // process_response / process_buffer_write / _read
    | ConfigWrite(offset: bv32, data: bv64, double: bool) // change_machine_config

  /** The parity argument of an MMIO acknowledge: generate_parity of a value, or the
      literal 0 a write acknowledge passes. */
  datatype Parity = OddParityOf(value: bv64) | ZeroBit

  /** What the AFU hands to its collaborators. */
  datatype Output =
    | MmioAck(data: bv64, parity: Parity)    // psl_afu_mmio_ack
    | ToContext(key: Id, what: Forward)
    | MaxCredits(room: nat)                  // TagManager::set_max_credits

  datatype Status = Status(state: AfuState, resetDelay: nat, jobRunning: bool, jobDone: bool)
  datatype Io = Io(tagsInUse: set<Tag>, out: seq<Output>)
  datatype Snap = Snap(status: Status, configs: seq<bv64>, contexts: seq<Context>, cursor: Cursor, io: Io)

  /** Three global configuration registers, the context map in key order, and a cursor
      that names only ids present in the map. */
  predicate Wf(s: Snap) {
    && |s.configs| == 3 && Sorted(s.contexts)
    && (s.cursor.At? ==> Find(s.contexts, s.cursor.key).Some?)
  }

  // ---------------------------------------------------------------------------
  // Fixed parameters
  // ---------------------------------------------------------------------------

  /** PSL_JOB_* codes; their values are in the PSL interface header, not part of this model. */
  datatype JobCodes = JobCodes(reset: nat, start: nat, llcmd: nat)

  /** PSL_LLCMD_MASK and the PSL_LLCMD_* command codes. */
  datatype LlcmdCodes = LlcmdCodes(mask: bv64, add: bv64, terminate: bv64, remove: bv64)

  /** What the AFU is built with: the codes above, its parsed descriptor registers,
      MASK_IS_DEDICATED, and the observable state of a newly constructed MachineController. */
  datatype Config = Config(jobs: JobCodes, llcmd: LlcmdCodes, descriptor: AfuDescriptor.Regs,
                           maskIsDedicated: bv16, newMachine: Machine)

  predicate ConfigWf(cfg: Config) {
    AfuDescriptor.Complete(cfg.descriptor)
  }

  predicate Dedicated(cfg: Config)
    requires ConfigWf(cfg)
  {
    AfuDescriptor.IsDedicated(cfg.descriptor, cfg.maskIsDedicated)
  }

  // ---------------------------------------------------------------------------
  // Inputs of one pass of the event loop
  // ---------------------------------------------------------------------------

  /** A control event: job code and address, and whether their parity bits match. */
  datatype Job = Job(code: nat, address: bv64, codeParityOk: bool, addressParityOk: bool)

  datatype Mmio = Mmio(read: bool, double: bool, descriptorAccess: bool, address: bv32, data: bv64)

  datatype BufferEvents = BufferEvents(write: Option<Tag>, read: Option<Tag>)

  /** The events `psl_get_psl_events` reported valid; `aux1` carries the new `room`. */
  datatype Event = Event(job: Option<Job>, response: Option<Tag>, mmio: Option<Mmio>,
                         buffer: BufferEvents, aux1: Option<nat>)

  /** The answers of the collaborators during the pass: `parity_enable`, whether every
      PSL interface call succeeds, what `get_machine_config` returns, and the contexts
      whose `send_command` would issue a command. */
  datatype Env = Env(parityEnable: bool, pslOk: bool, contextRead: bv64, senders: set<Id>)

  /** Why the model stops: `error_msg` ends the program, the source's behaviour is
      undefined, or the event loop spins forever in its round-robin walk. */
  datatype Reason = Error | Undefined | Hang

  datatype Outcome<T> = Ok(value: T) | Stop(reason: Reason) {
    predicate IsFailure() { Stop? }
    function PropagateFailure<U>(): Outcome<U> requires Stop? { Stop(reason) }
    function Extract(): T requires Ok? { value }
  }

  function Emit(s: Snap, o: Output): (r: Snap)
    ensures r.io.out == s.io.out + [o] && r.io.tagsInUse == s.io.tagsInUse
    ensures r.status == s.status && r.configs == s.configs && r.contexts == s.contexts && r.cursor == s.cursor
  {
    s.(io := s.io.(out := s.io.out + [o]))
  }

  // ---------------------------------------------------------------------------
  // reset and reset_machine_controllers (test/afu/AFU.cpp:229-258)
  // ---------------------------------------------------------------------------

  /** `reset_machine_controllers`: the tag manager forgets every tag and the map is
      emptied; a dedicated-mode AFU gets a fresh context 0 and the cursor on `end()`.
      Clearing the map leaves an iterator into it dangling. */
  function ResetMachineControllers(cfg: Config, s: Snap): (r: Snap)
    requires ConfigWf(cfg) && Wf(s)
    ensures Wf(r) && r.io.tagsInUse == {}
    ensures r.status == s.status && r.configs == s.configs && r.io.out == s.io.out
    ensures AsMap(r.contexts) == if Dedicated(cfg) then map[0 := cfg.newMachine] else map[]
    ensures r.cursor == if Dedicated(cfg) || s.cursor == End then End else Dangling
  {
    var ded := Dedicated(cfg);
    var cs := if ded then [Context(0, cfg.newMachine)] else [];
    assert ded ==> cs[1..] == [];
    Snap(s.status, s.configs, cs, if ded || s.cursor == End then End else Dangling, Io({}, s.io.out))
  }

  /** `reset`: the three global configuration registers and the reset delay become 0,
      then the machine controllers are rebuilt. */
  function ResetAfu(cfg: Config, s: Snap): (r: Snap)
    requires ConfigWf(cfg) && Wf(s)
    ensures Wf(r) && r.configs == [0, 0, 0] && r.status.resetDelay == 0
    ensures r.status.state == s.status.state && r.status.jobRunning == s.status.jobRunning
    ensures r.status.jobDone == s.status.jobDone
  {
    ResetMachineControllers(cfg, s.(configs := [0, 0, 0], status := s.status.(resetDelay := 0)))
  }

  /** The AFU the constructor leaves behind: IDLE, after `reset()`, with the cursor never
      assigned unless the descriptor asks for dedicated mode. */
  function Initial(cfg: Config): (r: Snap)
    requires ConfigWf(cfg)
    ensures Wf(r) && r.status.state == Idle && r.configs == [0, 0, 0]
    ensures r.cursor == if Dedicated(cfg) then End else Dangling
  {
    ResetAfu(cfg, Snap(Status(Idle, 0, false, false), [0, 0, 0], [], Dangling, Io({}, [])))
  }

  // ---------------------------------------------------------------------------
  // resolve_control_event (test/afu/AFU.cpp:260-356)
  // ---------------------------------------------------------------------------

  /** The context id of an LLCMD: the low 16 bits of the job address. */
  function LlcmdId(address: bv64): (k: Id)
    ensures (k as bv16) as bv64 == address & 0xFFFF
  {
    ((address & 0xFFFF) as bv16) as int
  }

  /** LLCMD ADD: fatal for an id already in the map; a new controller otherwise, and
      adding context 0 moves the cursor to `end()`. */
  function AddContext(cfg: Config, s: Snap, key: Id): (r: Outcome<Snap>)
    requires Wf(s)
    ensures r.Ok? ==> Wf(r.value)
    ensures r.Ok? ==> r.value.status == s.status && r.value.configs == s.configs && r.value.io == s.io
    ensures r.Ok? && key != 0 ==> r.value.cursor == s.cursor
  {
    if Find(s.contexts, key).Some? then Stop(Error)
    else
      var c := Context(key, cfg.newMachine);
      InsertIsMapInsert(s.contexts, c);
      Ok(s.(contexts := Insert(s.contexts, c), cursor := if key == 0 then End else s.cursor))
  }

  /** LLCMD TERMINATE: fatal for an id not in the map; that context's machines are
      disabled otherwise. */
  function TerminateContext(s: Snap, key: Id): (r: Outcome<Snap>)
    requires Wf(s)
    ensures r.Ok? ==> Wf(r.value)
    ensures r.Ok? ==> r.value.status == s.status && r.value.configs == s.configs && r.value.io == s.io
    ensures r.Ok? ==> r.value.cursor == s.cursor
  {
    match Find(s.contexts, key)
    case None => Stop(Error)
    case Some(i) =>
      var cs := DisableAt(s.contexts, i);
      SameKeysSameFind(cs, s.contexts, if s.cursor.At? then s.cursor.key else 0);
      Ok(s.(contexts := cs))
  }

  /** LLCMD REMOVE: fatal for an id not in the map or whose machines have not all
      completed; the entry is erased otherwise, which leaves a cursor on it dangling. */
  function RemoveContext(s: Snap, key: Id): (r: Outcome<Snap>)
    requires Wf(s)
    ensures r.Ok? ==> Wf(r.value)
    ensures r.Ok? ==> r.value.status == s.status && r.value.configs == s.configs && r.value.io == s.io
  {
    match Find(s.contexts, key)
    case None => Stop(Error)
    case Some(i) =>
      if !s.contexts[i].mc.completed then Stop(Error)
      else
        EraseIsMapErase(s.contexts, key);
        Ok(s.(contexts := Erase(s.contexts, key), cursor := if s.cursor == At(key) then Dangling else s.cursor))
  }

  /** The LLCMD switch on `job_address & PSL_LLCMD_MASK`; an unknown command is fatal. */
  function ResolveLlcmd(cfg: Config, s: Snap, address: bv64): (r: Outcome<Snap>)
    requires Wf(s)
    ensures r.Ok? ==> Wf(r.value)
    ensures r.Ok? ==> r.value.status == s.status && r.value.configs == s.configs && r.value.io == s.io
  {
    LlcmdCommand(cfg, s, address & cfg.llcmd.mask, LlcmdId(address))
  }

  function LlcmdCommand(cfg: Config, s: Snap, command: bv64, key: Id): (r: Outcome<Snap>)
    requires Wf(s)
    ensures r.Ok? ==> Wf(r.value)
    ensures r.Ok? ==> r.value.status == s.status && r.value.configs == s.configs && r.value.io == s.io
  {
    if command == cfg.llcmd.add then AddContext(cfg, s, key)
    else if command == cfg.llcmd.terminate then TerminateContext(s, key)
    else if command == cfg.llcmd.remove then RemoveContext(s, key)
    else Stop(Error)
  }

  function ResolveControl(cfg: Config, s: Snap, job: Job, env: Env): (r: Outcome<Snap>)
    requires Wf(s)
    ensures r.Ok? ==> Wf(r.value) && r.value.io == s.io
    ensures r.Ok? ==> r.value.status.jobDone == s.status.jobDone
    ensures r.Ok? ==> r.value.configs[2] == s.configs[2] || OnlyBit63(r.value.configs[2])
  {
    if env.parityEnable && !job.codeParityOk then Stop(Error)
    else if job.code == cfg.jobs.reset then
      if !env.pslOk then Stop(Error)
      else
        var cs := DisableAll(s.contexts);
        SameKeysSameFind(cs, s.contexts, if s.cursor.At? then s.cursor.key else 0);
        Ok(s.(status := s.status.(state := Reset, resetDelay := ResetCycles, jobRunning := false), contexts := cs))
    else if job.code == cfg.jobs.start then
      if s.status.state != Ready then Stop(Error)
      else if env.parityEnable && !job.addressParityOk then Stop(Error)
      else if !env.pslOk then Stop(Error)
      else Ok(s.(configs := s.configs[1 := job.address], status := s.status.(state := Running, jobRunning := true)))
    else if job.code == cfg.jobs.llcmd then ResolveLlcmd(cfg, s, job.address)
    else Ok(s)
  }

  // ---------------------------------------------------------------------------
  // MMIO (test/afu/AFU.cpp:358-496, 556-559)
  // ---------------------------------------------------------------------------

  /** Global register 2 holds at most its bit 63. */
  predicate OnlyBit63(x: bv64) {
    x & 0x7FFF_FFFF_FFFF_FFFF == 0
  }

  /** `get_mmio_read_parity`: bit 63 of global configuration register 2 asks for read
      acknowledges to carry the parity of `data + 1`, a deliberately wrong parity. */
  predicate BadReadParity(configs: seq<bv64>)
    requires |configs| == 3
  {
    configs[2] & 0x8000_0000_0000_0000 == 0x8000_0000_0000_0000
  }

  function ReadParity(configs: seq<bv64>, data: bv64): (p: Parity)
    requires |configs| == 3
    ensures p == OddParityOf(if BadReadParity(configs) then data + 1 else data)
  {
    if BadReadParity(configs) then OddParityOf(data + 1) else OddParityOf(data)
  }

  /** The global register a read below 0x400 selects, ignoring bit 0 of the address. */
  function GlobalRegister(configs: seq<bv64>, address: bv32): bv64
    requires |configs| == 3
  {
    var word := address & 0xFFFF_FFFE;
    if word == 0x4 then configs[2] else if word == 0x2 then configs[1] else 0xFFFF_FFFF_FFFF_FFFF
  }

  /** The data a read of `data` returns: the whole register for a doubleword, otherwise
      the addressed word in both halves, as `get_reg` does for the descriptor. */
  function SelectWord(data: bv64, address: bv32, double: bool): bv64 {
    if double then data
    else if address & 1 == 1 then AfuDescriptor.LowTwice(data)
    else AfuDescriptor.HighTwice(data)
  }

  /** A global read below 0x400: the whole register for a doubleword; for a word, the
      register's low word (odd address) or high word (even address) in both halves
      (`OddWordReadHalves`, `EvenWordReadHalves`). */
  function GlobalRead(configs: seq<bv64>, address: bv32, double: bool): (r: bv64)
    requires |configs| == 3
    ensures double ==> r == GlobalRegister(configs, address)
  {
    SelectWord(GlobalRegister(configs, address), address, double)
  }

  /** The context window an address at or above 0x400 falls in (only such addresses ask), cut to the 16 bits of the
      map's key type.  The division by the window size is written as the shift it equals
      (`WindowIsDivision`). */
  function WindowOf(address: bv32): (w: bv32)
    ensures w <= 0xFFFF
  {
    ((address - 0x400) >> 10) & 0xFFFF
  }

  function WindowId(address: bv32): Id {
    (WindowOf(address) as bv16) as int
  }

  /** The descriptor half of the dispatcher: reads come from `get_reg`, writes are fatal.
      A read past the descriptor vector is undefined behaviour in the C++. */
  function ResolveDescriptorAccess(cfg: Config, s: Snap, m: Mmio, env: Env): (r: Outcome<Snap>)
    requires Wf(s)
    ensures r.Ok? ==> Wf(r.value)
    ensures r.Ok? ==> m.read && env.pslOk && AfuDescriptor.RegIndex(m.address) as nat < |cfg.descriptor|
    ensures r.Ok? ==>
      var data := AfuDescriptor.GetReg(cfg.descriptor, m.address, m.double);
      r.value == Emit(s, MmioAck(data, ReadParity(s.configs, data)))
    ensures r.Ok? ==> r.value.status.jobDone == s.status.jobDone
    ensures r.Ok? ==> r.value.configs[2] == s.configs[2] || OnlyBit63(r.value.configs[2])
  {
    if !m.read then Stop(Error)
    else if AfuDescriptor.RegIndex(m.address) as nat >= |cfg.descriptor| then Stop(Undefined)
    else if !env.pslOk then Stop(Error)
    else
      var data := AfuDescriptor.GetReg(cfg.descriptor, m.address, m.double);
      Ok(Emit(s, MmioAck(data, ReadParity(s.configs, data))))
  }

  /** A write below 0x400: address 0 shuts the AFU down unless a machine is still
      enabled, address 0x4 keeps only bit 63, anything else is dropped. */
  function GlobalWrite(s: Snap, address: bv32, data: bv64): (r: Outcome<Snap>)
    requires Wf(s)
    ensures r.Ok? ==> Wf(r.value) && r.value.contexts == s.contexts && r.value.io == s.io
    ensures r.Ok? ==> r.value.status.jobDone == s.status.jobDone
    ensures r.Ok? ==> r.value.configs[2] == s.configs[2] || OnlyBit63(r.value.configs[2])
  {
    var word := address & 0xFFFF_FFFE;
    if word == 0 then
      if AnyEnabled(s.contexts) then Stop(Error)
      else Ok(s.(status := s.status.(state := WaitingForLastResponses)))
    else if word == 0x4 then Ok(s.(configs := s.configs[2 := data & 0x8000_0000_0000_0000]))
    else Ok(s)
  }

  /** The test a 32-bit write's data must pass: both halves the same. */
  predicate HalvesDiffer(data: bv64)
    ensures !HalvesDiffer(data) <==> AfuDescriptor.LowTwice(data) == data
  {
    EqualHalvesAreLowTwice(data);
    LowTwiceHasEqualHalves(data);
    data & 0xFFFF_FFFF != (data & 0xFFFF_FFFF_0000_0000) >> 32
  }

  lemma EqualHalvesAreLowTwice(data: bv64)
    ensures data & 0xFFFF_FFFF == (data & 0xFFFF_FFFF_0000_0000) >> 32 ==> AfuDescriptor.LowTwice(data) == data
  {
  }

  lemma LowTwiceHasEqualHalves(data: bv64)
    ensures AfuDescriptor.LowTwice(data) == data ==> data & 0xFFFF_FFFF == (data & 0xFFFF_FFFF_0000_0000) >> 32
  {
  }

  lemma HalvesDifferMeans(data: bv64)
    ensures HalvesDiffer(data) <==> data >> 32 != data & 0xFFFF_FFFF
  {
  }

  /** The value a non-descriptor MMIO read returns: a global register below 0x400, what
      the window's context answers, or all ones for a window with no context. */
  function MmioReadData(s: Snap, m: Mmio, contextRead: bv64): (r: bv64)
    requires Wf(s)
    ensures m.address < 0x400 ==> r == GlobalRead(s.configs, m.address, m.double)
    ensures m.address >= 0x400 && WindowId(m.address) in AsMap(s.contexts) ==> r == contextRead
    ensures m.address >= 0x400 && WindowId(m.address) !in AsMap(s.contexts) ==> r == 0xFFFF_FFFF_FFFF_FFFF
  {
    if m.address < 0x400 then GlobalRead(s.configs, m.address, m.double)
    else WindowRead(s.contexts, m.address, contextRead)
  }

  /** A read at or above 0x400: what the window's context answers, or all ones. */
  function WindowRead(cs: seq<Context>, address: bv32, contextRead: bv64): (r: bv64)
    ensures WindowId(address) in AsMap(cs) ==> r == contextRead
    ensures WindowId(address) !in AsMap(cs) ==> r == 0xFFFF_FFFF_FFFF_FFFF
  {
    if Find(cs, WindowId(address)).Some? then contextRead else 0xFFFF_FFFF_FFFF_FFFF
  }

  /** A non-descriptor MMIO read: the value goes back in the acknowledge. */
  function MmioRead(s: Snap, m: Mmio, env: Env): (r: Outcome<Snap>)
    requires Wf(s)
    ensures r.Ok? ==> Wf(r.value) && r.value.contexts == s.contexts
    ensures r.Ok? ==> r.value.status.jobDone == s.status.jobDone && r.value.configs == s.configs
    ensures !env.pslOk ==> r == Stop(Error)
    ensures env.pslOk ==>
      var d := MmioReadData(s, m, env.contextRead);
      r == Ok(Emit(s, MmioAck(d, ReadParity(s.configs, d))))
  {
    var data := MmioReadData(s, m, env.contextRead);
    if !env.pslOk then Stop(Error) else Ok(Emit(s, MmioAck(data, ReadParity(s.configs, data))))
  }

  /** A non-descriptor MMIO write: a word write must repeat its word in both halves; the
      write goes to a global register or the window's context, then is acknowledged. */
  function MmioWrite(s: Snap, m: Mmio, env: Env): (r: Outcome<Snap>)
    requires Wf(s)
    ensures r.Ok? ==> Wf(r.value) && r.value.contexts == s.contexts
    ensures r.Ok? ==> r.value.status.jobDone == s.status.jobDone
    ensures r.Ok? ==> r.value.configs[2] == s.configs[2] || OnlyBit63(r.value.configs[2])
    ensures !m.double && HalvesDiffer(m.data) ==> r == Stop(Error)
    ensures !env.pslOk ==> r == Stop(Error)
    ensures env.pslOk && m.address < 0x400 && (m.double || !HalvesDiffer(m.data)) ==>
      var g := GlobalWrite(s, m.address, m.data);
      r == if g.Ok? then Ok(Emit(g.value, MmioAck(0, ZeroBit))) else Stop(Error)
    ensures env.pslOk && m.address >= 0x400 && (m.double || !HalvesDiffer(m.data)) ==>
      r == Ok(Emit(WindowWrite(s, m), MmioAck(0, ZeroBit)))
  {
    if !m.double && HalvesDiffer(m.data) then Stop(Error)
    else
      var s' :- if m.address < 0x400 then GlobalWrite(s, m.address, m.data) else Ok(WindowWrite(s, m));
      if !env.pslOk then Stop(Error) else Ok(Emit(s', MmioAck(0, ZeroBit)))
  }

  /** A write at or above 0x400: `change_machine_config` on the window's context at the
      offset inside the window, or dropped when the window has no context. */
  function WindowWrite(s: Snap, m: Mmio): (r: Snap)
    requires Wf(s)
    ensures Wf(r) && r.contexts == s.contexts && r.status == s.status && r.configs == s.configs
  {
    var key := WindowId(m.address);
    if Find(s.contexts, key).Some? then Emit(s, ToContext(key, ConfigWrite(m.address & 0x3FF, m.data, m.double)))
    else s
  }

  /** `resolve_mmio_event`. */
  function ResolveMmio(s: Snap, m: Mmio, env: Env): (r: Outcome<Snap>)
    requires Wf(s)
    ensures r.Ok? ==> Wf(r.value) && r.value.contexts == s.contexts
    ensures r.Ok? ==> r.value.status.jobDone == s.status.jobDone
    ensures r.Ok? ==> r.value.configs[2] == s.configs[2] || OnlyBit63(r.value.configs[2])
    ensures !env.pslOk ==> r == Stop(Error)
    ensures m.read && env.pslOk ==>
      var d := MmioReadData(s, m, env.contextRead);
      r == Ok(Emit(s, MmioAck(d, ReadParity(s.configs, d))))
    ensures !m.read && !m.double && HalvesDiffer(m.data) ==> r == Stop(Error)
    ensures !m.read && env.pslOk && m.address < 0x400 && (m.double || !HalvesDiffer(m.data)) ==>
      var g := GlobalWrite(s, m.address, m.data);
      r == if g.Ok? then Ok(Emit(g.value, MmioAck(0, ZeroBit))) else Stop(Error)
    ensures !m.read && env.pslOk && m.address >= 0x400 && (m.double || !HalvesDiffer(m.data)) ==>
      r == Ok(Emit(WindowWrite(s, m), MmioAck(0, ZeroBit)))
  {
    if m.read then MmioRead(s, m, env)
    else
      var w := MmioWrite(s, m, env);
      assert !m.double && HalvesDiffer(m.data) ==> w == Stop(Error);
      w
  }

  /** The MMIO branch of the event loop (test/afu/AFU.cpp:87-107). */
  function MmioEvent(cfg: Config, s: Snap, m: Mmio, env: Env): (r: Outcome<Snap>)
    requires Wf(s)
    ensures r.Ok? ==> Wf(r.value)
    ensures r.Ok? ==> r.value.status.jobDone == s.status.jobDone
    ensures r.Ok? ==> r.value.configs[2] == s.configs[2] || OnlyBit63(r.value.configs[2])
    ensures r.Ok? ==>
      && !(m.double && m.address & 1 == 1)
      && (m.descriptorAccess ==> s.status.state != Idle && s.status.state != Reset)
      && (!m.descriptorAccess ==> s.status.state == Running || s.status.state == WaitingForLastResponses)
    ensures !(m.double && m.address & 1 == 1) && m.descriptorAccess && s.status.state != Idle && s.status.state != Reset ==>
      r == ResolveDescriptorAccess(cfg, s, m, env)
    ensures !(m.double && m.address & 1 == 1) && !m.descriptorAccess
            && (s.status.state == Running || s.status.state == WaitingForLastResponses) ==>
      r == ResolveMmio(s, m, env)
  {
    if m.double && m.address & 1 == 1 then Stop(Error)
    else if m.descriptorAccess then
      if s.status.state == Idle || s.status.state == Reset then Stop(Error)
      else ResolveDescriptorAccess(cfg, s, m, env)
    else if s.status.state != Running && s.status.state != WaitingForLastResponses then Stop(Error)
    else ResolveMmio(s, m, env)
  }

  // ---------------------------------------------------------------------------
  // Tagged events and aux1 (test/afu/AFU.cpp:76-85, 110-136, 220-227, 498-540)
  // ---------------------------------------------------------------------------

  /** A response, buffer-write or buffer-read event: fatal outside RUNNING,
      WAITING_FOR_LAST_RESPONSES and RESET or for a tag not in use, then handed to the
      first context whose machine owns the tag. */
  function TaggedEvent(s: Snap, kind: TagKind, tag: Tag): (r: Outcome<Snap>)
    requires Wf(s)
    ensures r.Ok? ==> Wf(r.value)
    ensures r.Ok? ==> r.value.status.jobDone == s.status.jobDone
    ensures r.Ok? ==> r.value.configs[2] == s.configs[2] || OnlyBit63(r.value.configs[2])
  {
    if s.status.state != Running && s.status.state != WaitingForLastResponses && s.status.state != Reset then
      Stop(Error)
    else if tag !in s.io.tagsInUse then Stop(Error)
    else match FirstOwner(s.contexts, tag)
      case None => Ok(s)
      case Some(i) => Ok(Emit(s, ToContext(s.contexts[i].key, Tagged(kind, tag))))
  }

  /** `resolve_aux1_event`: a change of `room` is fatal while RUNNING. */
  function Aux1Event(s: Snap, room: nat): (r: Outcome<Snap>)
    requires Wf(s)
    ensures r.Ok? <==> s.status.state != Running
    ensures r.Ok? ==> r.value == Emit(s, MaxCredits(room))
  {
    if s.status.state == Running then Stop(Error) else Ok(Emit(s, MaxCredits(room)))
  }

  // ---------------------------------------------------------------------------
  // After the events (test/afu/AFU.cpp:139-203)
  // ---------------------------------------------------------------------------

  /** The cursor as a position 0..n, n being `end()`; a dangling cursor has none. */
  function CursorPosition(s: Snap): (p: Option<nat>)
    requires Wf(s)
    ensures p.Some? ==> p.value <= |s.contexts|
    ensures p.None? <==> s.cursor == Dangling
  {
    match s.cursor
    case End => Some(|s.contexts|)
    case Dangling => None
    case At(k) => Find(s.contexts, k)
  }

  function CursorAt(cs: seq<Context>, p: nat): (c: Cursor)
    requires p <= |cs|
  {
    if p == |cs| then End else At(cs[p].key)
  }

  /** RUNNING: offer the contexts a turn to send, with the round-robin loop as written.
      Using a dangling cursor is undefined; when the cursor is `begin()` and no context is
      ready the loop never ends. */
  function SendCommands(s: Snap, senders: set<Id>): (r: Outcome<Snap>)
    requires Wf(s)
    ensures r.Ok? ==> Wf(r.value)
    ensures r.Ok? ==> r.value.status == s.status && r.value.configs == s.configs
    ensures r.Ok? ==> r.value.contexts == s.contexts && r.value.io == s.io
    ensures r.Ok? && s.contexts != [] ==>
      && CursorPosition(s).Some?
      && r.value.cursor == CursorAt(s.contexts, RoundRobin(s.contexts, senders, CursorPosition(s).value))
    ensures r == Stop(Undefined) <==> s.contexts != [] && s.cursor == Dangling
    ensures r == Stop(Hang) <==> s.contexts != [] && CursorPosition(s) == Some(0) && NoneSends(s.contexts, senders)
    ensures r.Stop? ==> r.reason != Error
  {
    if |s.contexts| == 0 then Ok(s)
    else match CursorPosition(s)
      case None => Stop(Undefined)
      case Some(p) =>
        match AsWrittenRoundRobin(s.contexts, senders, p)
        case None => Stop(Hang)
        case Some(q) => Ok(s.(cursor := CursorAt(s.contexts, q)))
  }

  /** RESET: count the delay down; once it is 0 the AFU becomes READY, is reset and
      asserts job_done. */
  function CountDownReset(cfg: Config, s: Snap, pslOk: bool): (r: Outcome<Snap>)
    requires ConfigWf(cfg) && Wf(s)
    ensures r.Ok? ==> Wf(r.value)
  {
    if s.status.resetDelay == 0 then
      if !pslOk then Stop(Error)
      else
        var t := ResetAfu(cfg, s.(status := s.status.(state := Ready)));
        Ok(t.(status := t.status.(jobDone := true)))
    else Ok(s.(status := s.status.(resetDelay := s.status.resetDelay - 1)))
  }

  /** WAITING_FOR_LAST_RESPONSES: once every machine has completed, the machine
      controllers are rebuilt, job_running drops, job_done rises and the AFU is IDLE. */
  function FinishShutdown(cfg: Config, s: Snap, pslOk: bool): (r: Outcome<Snap>)
    requires ConfigWf(cfg) && Wf(s)
    ensures r.Ok? ==> Wf(r.value)
  {
    if !AllCompleted(s.contexts) then Ok(s)
    else if !pslOk then Stop(Error)
    else
      var t := ResetMachineControllers(cfg, s);
      Ok(t.(status := t.status.(state := Idle, jobRunning := false, jobDone := true)))
  }

  function AfterEvents(cfg: Config, s: Snap, env: Env): (r: Outcome<Snap>)
    requires ConfigWf(cfg) && Wf(s)
    ensures r.Ok? ==> Wf(r.value)
    ensures r.Ok? && r.value.status.jobDone ==> s.status.jobDone || r.value.status.state in {Ready, Idle}
    ensures r.Ok? ==> r.value.configs[2] == s.configs[2] || OnlyBit63(r.value.configs[2])
  {
    match s.status.state
    case Running => SendCommands(s, env.senders)
    case Reset => CountDownReset(cfg, s, env.pslOk)
    case WaitingForLastResponses => FinishShutdown(cfg, s, env.pslOk)
    case _ => Ok(s)
  }

  // ---------------------------------------------------------------------------
  // One pass of the event loop and the loop itself (test/afu/AFU.cpp:41-206)
  // ---------------------------------------------------------------------------

  /** The job, response and MMIO events of a pass, in the loop's order. */
  function EarlyEvents(cfg: Config, s: Snap, ev: Event, env: Env): (r: Outcome<Snap>)
    requires Wf(s)
    ensures r.Ok? ==> Wf(r.value) && r.value.status.jobDone == s.status.jobDone
    ensures r.Ok? && OnlyBit63(s.configs[2]) ==> OnlyBit63(r.value.configs[2])
  {
    var s1 :- if ev.job.Some? then ResolveControl(cfg, s, ev.job.value, env) else Ok(s);
    var s2 :- if ev.response.Some? then TaggedEvent(s1, ResponseTag, ev.response.value) else Ok(s1);
    if ev.mmio.Some? then MmioEvent(cfg, s2, ev.mmio.value, env) else Ok(s2)
  }

  /** The buffer-write, buffer-read and aux1 events of a pass, in the loop's order. */
  function LateEvents(s: Snap, ev: Event): (r: Outcome<Snap>)
    requires Wf(s)
    ensures r.Ok? ==> Wf(r.value) && r.value.status.jobDone == s.status.jobDone
    ensures r.Ok? && OnlyBit63(s.configs[2]) ==> OnlyBit63(r.value.configs[2])
  {
    var s4 :- if ev.buffer.write.Some? then TaggedEvent(s, BufferWriteTag, ev.buffer.write.value) else Ok(s);
    var s5 :- if ev.buffer.read.Some? then TaggedEvent(s4, BufferReadTag, ev.buffer.read.value) else Ok(s4);
    if ev.aux1.Some? then Aux1Event(s5, ev.aux1.value) else Ok(s5)
  }

  /** One pass with events: job_done is dropped, the events are handled in the loop's
      order, then the state's own work is done.  Only that last part raises job_done, so
      job_done is high after a pass only when the pass finished a reset (READY) or a
      shutdown (IDLE). */
  function Step(cfg: Config, s: Snap, ev: Event, env: Env): (r: Outcome<Snap>)
    requires ConfigWf(cfg) && Wf(s)
    ensures r.Ok? ==> Wf(r.value)
    ensures r.Ok? && r.value.status.jobDone ==> r.value.status.state in {Ready, Idle}
    ensures r.Ok? && OnlyBit63(s.configs[2]) ==> OnlyBit63(r.value.configs[2])
  {
    var s3 :- EarlyEvents(cfg, s.(status := s.status.(jobDone := false)), ev, env);
    var s6 :- LateEvents(s3, ev);
    AfterEvents(cfg, s6, env)
  }

  /** What `psl_get_psl_events` returned: the connection dropped, nothing happened, or
      events arrived together with the collaborators' answers for that pass. */
  datatype Poll = Lost | Quiet | Events(ev: Event, env: Env)

  datatype RunEnd = ConnectionLost(last: Snap) | OutOfInput(last: Snap) | Halted(reason: Reason)

  function Run(cfg: Config, s: Snap, polls: seq<Poll>): (r: RunEnd)
    requires ConfigWf(cfg) && Wf(s)
    ensures !r.Halted? ==> Wf(r.last)
    decreases |polls|
  {
    if polls == [] then OutOfInput(s)
    else match polls[0]
      case Lost => ConnectionLost(s)
      case Quiet => Run(cfg, s, polls[1..])
      case Events(ev, env) =>
        match Step(cfg, s, ev, env)
        case Stop(why) => Halted(why)
        case Ok(s') => Run(cfg, s', polls[1..])
  }

  // ---------------------------------------------------------------------------
  // Properties
  // ---------------------------------------------------------------------------

  /** RESET: job_running drops, every machine is disabled, the map keeps its ids, and the
      AFU waits 1000 passes in RESET. */
  lemma ResetJobDisablesEverything(cfg: Config, s: Snap, job: Job, env: Env)
    requires Wf(s) && job.code == cfg.jobs.reset && env.pslOk
    requires env.parityEnable ==> job.codeParityOk
    ensures var r := ResolveControl(cfg, s, job, env);
      && r.Ok? && r.value.status.state == Reset && r.value.status.resetDelay == 1000
      && !r.value.status.jobRunning && Keys(r.value.contexts) == Keys(s.contexts)
      && forall i :: 0 <= i < |r.value.contexts| ==> !r.value.contexts[i].mc.enabled
  {
  }

  /** A job code whose parity bit is wrong is fatal while parity checking is enabled. */
  lemma JobCodeParityChecked(cfg: Config, s: Snap, job: Job, env: Env)
    requires Wf(s) && env.parityEnable && !job.codeParityOk
    ensures ResolveControl(cfg, s, job, env) == Stop(Error)
  {
  }

  /** START succeeds exactly in READY (given good parity and a working interface); it
      stores the job address in global register 1 and enters RUNNING with job_running. */
  lemma StartOnlyFromReady(cfg: Config, s: Snap, job: Job, env: Env)
    requires Wf(s) && job.code == cfg.jobs.start && job.code != cfg.jobs.reset
    requires env.parityEnable ==> job.codeParityOk && job.addressParityOk
    requires env.pslOk
    ensures var r := ResolveControl(cfg, s, job, env);
      && (r.Ok? <==> s.status.state == Ready)
      && (r.Stop? ==> r.reason == Error)
      && (r.Ok? ==> (r.value.configs == [s.configs[0], job.address, s.configs[2]]
                     && r.value.status.state == Running && r.value.status.jobRunning
                     && r.value.contexts == s.contexts))
  {
  }

  /** LLCMD ADD of an id already in the map is fatal; otherwise the id maps to a new
      machine controller and nothing else in the map changes; the cursor moves to `end()`
      when the id is 0 and stays where it was otherwise. */
  lemma AddContextInserts(cfg: Config, s: Snap, key: Id)
    requires Wf(s)
    ensures var r := AddContext(cfg, s, key);
      && (r.Ok? <==> key !in AsMap(s.contexts))
      && (r.Ok? ==> AsMap(r.value.contexts) == AsMap(s.contexts)[key := cfg.newMachine])
      && (r.Ok? && key == 0 ==> r.value.cursor == End)
      && (r.Ok? && key != 0 ==> r.value.cursor == s.cursor)
  {
    if key !in AsMap(s.contexts) {
      InsertIsMapInsert(s.contexts, Context(key, cfg.newMachine));
    }
  }

  /** LLCMD REMOVE is fatal for an id not in the map or one whose machine has work
      pending; otherwise exactly that id leaves the map, and a cursor on it dangles. */
  lemma RemoveContextErases(s: Snap, key: Id)
    requires Wf(s)
    ensures var r := RemoveContext(s, key);
      && (r.Ok? <==> key in AsMap(s.contexts) && AsMap(s.contexts)[key].completed)
      && (r.Ok? ==> AsMap(r.value.contexts) == AsMap(s.contexts) - {key})
      && (r.Ok? ==> r.value.cursor == if s.cursor == At(key) then Dangling else s.cursor)
  {
    EraseIsMapErase(s.contexts, key);
  }

  /** LLCMD TERMINATE is fatal for an id not in the map; otherwise only that context's
      machine becomes disabled, and the cursor stays where it was. */
  lemma TerminateContextDisables(s: Snap, key: Id)
    requires Wf(s)
    ensures var r := TerminateContext(s, key);
      && (r.Ok? <==> key in AsMap(s.contexts))
      && (r.Ok? ==> (Keys(r.value.contexts) == Keys(s.contexts)
                     && forall i :: 0 <= i < |s.contexts| ==>
                          r.value.contexts[i] == if s.contexts[i].key == key
                            then Context(key, s.contexts[i].mc.(enabled := false)) else s.contexts[i]))
      && (r.Ok? ==> r.value.cursor == s.cursor)
  {
    match Find(s.contexts, key)
    case None =>
    case Some(i) =>
      assert forall j :: 0 <= j < |s.contexts| && j != i ==> s.contexts[j].key != key;
  }

  /** Any other LLCMD code is fatal. */
  lemma UnknownLlcmdFails(cfg: Config, s: Snap, address: bv64)
    requires Wf(s)
    requires address & cfg.llcmd.mask !in {cfg.llcmd.add, cfg.llcmd.terminate, cfg.llcmd.remove}
    ensures ResolveLlcmd(cfg, s, address) == Stop(Error)
  {
  }

  /** Passes of the RESET countdown with nothing else happening. */
  function CountDown(cfg: Config, s: Snap, passes: nat): (r: Outcome<Snap>)
    requires ConfigWf(cfg) && Wf(s)
    ensures r.Ok? ==> Wf(r.value)
    decreases passes
  {
    if passes == 0 then Ok(s)
    else
      var t :- CountDownReset(cfg, s, true);
      CountDown(cfg, t, passes - 1)
  }

  /** While the delay is positive each pass only decrements it. */
  lemma {:induction false} CountDownDecrements(cfg: Config, s: Snap, passes: nat)
    requires ConfigWf(cfg) && Wf(s) && passes <= s.status.resetDelay
    ensures CountDown(cfg, s, passes) == Ok(s.(status := s.status.(resetDelay := s.status.resetDelay - passes)))
    decreases passes
  {
    if passes > 0 {
      var t := s.(status := s.status.(resetDelay := s.status.resetDelay - 1));
      assert CountDownReset(cfg, s, true) == Ok(t);
      CountDownDecrements(cfg, t, passes - 1);
      assert t.(status := t.status.(resetDelay := t.status.resetDelay - (passes - 1)))
          == s.(status := s.status.(resetDelay := s.status.resetDelay - passes));
    }
  }

  /** A RESET with delay d leaves RESET on pass d + 1, and not before: the AFU is then
      READY with zeroed global registers and job_done asserted. */
  lemma ResetTakesDelayPlusOnePasses(cfg: Config, s: Snap)
    requires ConfigWf(cfg) && Wf(s) && s.status.state == Reset
    ensures forall k :: 0 <= k <= s.status.resetDelay ==>
      CountDown(cfg, s, k).Ok? && CountDown(cfg, s, k).value.status.state == Reset
    ensures var r := CountDown(cfg, s, s.status.resetDelay + 1);
      && r.Ok? && r.value.status.state == Ready && r.value.configs == [0, 0, 0]
      && r.value.status.resetDelay == 0 && r.value.status.jobDone
  {
    forall k | 0 <= k <= s.status.resetDelay
      ensures CountDown(cfg, s, k).Ok? && CountDown(cfg, s, k).value.status.state == Reset
    {
      CountDownDecrements(cfg, s, k);
    }
    var d := s.status.resetDelay;
    CountDownDecrements(cfg, s, d);
    CountDownSplit(cfg, s, d);
  }

  lemma {:induction false} CountDownSplit(cfg: Config, s: Snap, d: nat)
    requires ConfigWf(cfg) && Wf(s)
    requires CountDown(cfg, s, d).Ok?
    ensures CountDown(cfg, s, d + 1) == CountDown(cfg, CountDown(cfg, s, d).value, 1)
    decreases d
  {
    if d > 0 {
      var t := CountDownReset(cfg, s, true).value;
      CountDownSplit(cfg, t, d - 1);
    }
  }

  /** WAITING_FOR_LAST_RESPONSES ends exactly when every machine has completed: then the
      AFU is IDLE with job_running low, job_done high and no tag in use; otherwise the
      pass changes nothing. */
  lemma ShutdownWaitsForAllMachines(cfg: Config, s: Snap, env: Env)
    requires ConfigWf(cfg) && Wf(s) && s.status.state == WaitingForLastResponses && env.pslOk
    ensures var r := AfterEvents(cfg, s, env);
      && r.Ok?
      && (r.value.status.state == Idle <==> AllCompleted(s.contexts))
      && (!AllCompleted(s.contexts) ==> r.value == s)
      && (AllCompleted(s.contexts) ==>
            !r.value.status.jobRunning && r.value.status.jobDone && r.value.io.tagsInUse == {})
  {
  }

  /** The global read table: 0x4/0x5 give register 2, 0x2/0x3 register 1, every other
      address below 0x400 reads as all ones. */
  lemma GlobalRegisterTable(configs: seq<bv64>, address: bv32)
    requires |configs| == 3
    ensures address == 4 || address == 5 ==> GlobalRegister(configs, address) == configs[2]
    ensures address == 2 || address == 3 ==> GlobalRegister(configs, address) == configs[1]
    ensures address !in {2, 3, 4, 5} ==> GlobalRegister(configs, address) == 0xFFFF_FFFF_FFFF_FFFF
  {
  }

  /** A word read at an odd address carries the register's low word in both halves. */
  lemma OddWordReadHalves(data: bv64, address: bv32)
    requires address & 1 == 1
    ensures var r := SelectWord(data, address, false);
      r >> 32 == data & 0xFFFF_FFFF && r & 0xFFFF_FFFF == data & 0xFFFF_FFFF
  {
    AfuDescriptor.LowTwiceHalves(data);
  }

  /** A word read at an even address carries the register's high word in both halves. */
  lemma EvenWordReadHalves(data: bv64, address: bv32)
    requires address & 1 == 0
    ensures var r := SelectWord(data, address, false);
      r >> 32 == data >> 32 && r & 0xFFFF_FFFF == data >> 32
  {
    AfuDescriptor.HighTwiceHalves(data);
  }

  /** Global writes: 0x0/0x1 shuts down unless a machine is enabled, 0x4/0x5 keeps only
      bit 63 of the data in register 2, anything else changes nothing. */
  lemma GlobalWriteEffects(s: Snap, address: bv32, data: bv64)
    requires Wf(s)
    ensures var r := GlobalWrite(s, address, data);
      && (address == 0 || address == 1 ==>
            (r.Ok? <==> !AnyEnabled(s.contexts))
            && (r.Ok? ==> r.value == s.(status := s.status.(state := WaitingForLastResponses))))
      && (address == 4 || address == 5 ==>
            r.Ok? && r.value.configs[..2] == s.configs[..2] && r.value.status == s.status
            && OnlyBit63(r.value.configs[2]) && r.value.configs[2] & 0x8000_0000_0000_0000 == data & 0x8000_0000_0000_0000)
      && (address !in {0, 1, 4, 5} ==> r == Ok(s))
  {
  }

  /** A 32-bit write must carry its word in both halves of the data. */
  lemma WordWriteNeedsEqualHalves(s: Snap, m: Mmio, env: Env)
    requires Wf(s) && !m.read && !m.double && m.data >> 32 != m.data & 0xFFFF_FFFF
    ensures ResolveMmio(s, m, env) == Stop(Error)
  {
    HalvesDifferMeans(m.data);
  }

  /** A doubleword access at an odd address is fatal. */
  lemma OddDoublewordFails(cfg: Config, s: Snap, m: Mmio, env: Env)
    requires Wf(s) && m.double && m.address & 1 == 1
    ensures MmioEvent(cfg, s, m, env) == Stop(Error)
  {
  }

  /** The window number is `(address - GLOBAL_CONFIG_OFFSET) / CONTEXT_SIZE`, cut to 16 bits. */
  lemma WindowIsDivision(address: bv32)
    requires address >= 0x400
    ensures WindowOf(address) == ((address - 0x400) / 0x400) & 0xFFFF
  {
    DivideByWindowSize(address - 0x400);
  }

  lemma DivideByWindowSize(x: bv32)
    ensures x / 0x400 == x >> 10
  {
  }

  /** Below 0x0400_0400 no window number is cut: the window number times 0x400, plus
      0x400, plus the offset inside the window gives the address back. */
  lemma WindowDecoding(address: bv32)
    requires 0x400 <= address < 0x0400_0400
    ensures (WindowOf(address) << 10) + 0x400 + (address & 0x3FF) == address
  {
    ShiftSplit(address - 0x400);
    assert (address - 0x400) & 0x3FF == address & 0x3FF;
  }

  lemma ShiftSplit(x: bv32)
    requires x < 0x0400_0000
    ensures (((x >> 10) & 0xFFFF) << 10) + (x & 0x3FF) == x
  {
  }

  /** A context window with no context reads as all ones and drops writes, and either
      way only the acknowledge is sent. */
  lemma MissingContextWindow(s: Snap, m: Mmio, env: Env)
    requires Wf(s) && m.address >= 0x400 && env.pslOk
    requires WindowId(m.address) !in AsMap(s.contexts)
    requires !m.read ==> m.double || m.data >> 32 == m.data & 0xFFFF_FFFF
    ensures m.read ==> ResolveMmio(s, m, env) == Ok(Emit(s, MmioAck(0xFFFF_FFFF_FFFF_FFFF, ReadParity(s.configs, 0xFFFF_FFFF_FFFF_FFFF))))
    ensures !m.read ==> ResolveMmio(s, m, env) == Ok(Emit(s, MmioAck(0, ZeroBit)))
  {
    HalvesDifferMeans(m.data);
  }

  /** A write into a present context's window reaches that context at the offset inside
      the window, followed by the acknowledge. */
  lemma PresentContextWindowWrite(s: Snap, m: Mmio, env: Env)
    requires Wf(s) && m.address >= 0x400 && env.pslOk && !m.read
    requires WindowId(m.address) in AsMap(s.contexts)
    requires m.double || m.data >> 32 == m.data & 0xFFFF_FFFF
    ensures ResolveMmio(s, m, env).Ok?
    ensures ResolveMmio(s, m, env).value.io.out == s.io.out
      + [ToContext(WindowId(m.address), ConfigWrite(m.address & 0x3FF, m.data, m.double)), MmioAck(0, ZeroBit)]
  {
    HalvesDifferMeans(m.data);
  }

  /** A tagged event for a tag not in use is fatal; otherwise it reaches only the first
      context, in id order, whose machine owns the tag, or nobody. */
  lemma TaggedEventRouting(s: Snap, kind: TagKind, tag: Tag)
    requires Wf(s) && s.status.state in {Running, WaitingForLastResponses, Reset}
    ensures tag !in s.io.tagsInUse ==> TaggedEvent(s, kind, tag) == Stop(Error)
    ensures tag in s.io.tagsInUse ==> TaggedEvent(s, kind, tag).Ok?
    ensures tag in s.io.tagsInUse && (forall i :: 0 <= i < |s.contexts| ==> tag !in s.contexts[i].mc.tags) ==>
      TaggedEvent(s, kind, tag) == Ok(s)
    ensures forall i :: (0 <= i < |s.contexts| && tag in s.io.tagsInUse && tag in s.contexts[i].mc.tags
                         && (forall j :: 0 <= j < i ==> tag !in s.contexts[j].mc.tags)) ==>
                        TaggedEvent(s, kind, tag) == Ok(Emit(s, ToContext(s.contexts[i].key, Tagged(kind, tag))))
  {
  }

  /** Outside RUNNING, WAITING_FOR_LAST_RESPONSES and RESET a tagged event is fatal. */
  lemma TaggedEventNeedsActiveAfu(s: Snap, kind: TagKind, tag: Tag)
    requires Wf(s) && s.status.state in {Idle, Ready}
    ensures TaggedEvent(s, kind, tag) == Stop(Error)
  {
  }

  /** When the favoured context sends, the cursor moves to the next entry, and from
      `end()` to the entry after `begin()`. */
  lemma FavouredContextAdvancesCursor(s: Snap, senders: set<Id>)
    requires Wf(s) && s.contexts != [] && s.cursor != Dangling
    requires var p := CursorPosition(s).value;
      s.contexts[StartOf(|s.contexts|, p)].key in senders
    ensures var p := CursorPosition(s).value;
      SendCommands(s, senders) == Ok(s.(cursor := CursorAt(s.contexts, if p == |s.contexts| then 1 else p + 1)))
  {
    FavouredSenderAdvancesByOne(s.contexts, senders, CursorPosition(s).value);
  }

  /** With no context ready the cursor stays where it was, unless it is `begin()`. */
  lemma IdleContextsKeepCursor(s: Snap, senders: set<Id>)
    requires Wf(s) && s.contexts != [] && s.cursor != Dangling && CursorPosition(s) != Some(0)
    requires NoneSends(s.contexts, senders)
    ensures SendCommands(s, senders) == Ok(s)
  {
    var p := CursorPosition(s).value;
    assert CursorAt(s.contexts, p) == s.cursor;
  }

  /** With the cursor at `begin()` and no context ready, the walk as written never ends. */
  lemma IdleContextsAtBeginHang(s: Snap, senders: set<Id>)
    requires Wf(s) && s.contexts != [] && s.cursor == At(s.contexts[0].key)
    requires NoneSends(s.contexts, senders)
    ensures SendCommands(s, senders) == Stop(Hang)
    ensures forall fuel :: AsWrittenWalk(s.contexts, senders, 0, 0, fuel).None?
  {
    forall fuel ensures AsWrittenWalk(s.contexts, senders, 0, 0, fuel).None? {
      AsWrittenHangsAtBegin(s.contexts, senders, 0, fuel);
    }
  }
}
