/** The AFU object of test/afu/AFU.cpp: the fields the C++ class updates in place, and
    one method per member function, each proved to leave the object in the state the
    functional model of module SimAfu gives for the same inputs.

    `global_configs` is a fixed array of three registers; `context_to_mc` is held as the
    table of (id, machine) entries in id order that the std::map iterates; the
    `highest_priority_mc` iterator is a `Cursor`. */
module AfuObject {
  import opened AfuContexts
  import AfuDescriptor
  import SimAfu

  /** Whether the object may go on after a member function: `error_msg` ends the
      program, and so (for this model) does undefined behaviour. */
  datatype Verdict = Continue | Halt(reason: SimAfu.Reason)

  function VerdictOf(r: SimAfu.Outcome<SimAfu.Snap>): (v: Verdict)
    ensures v.Continue? <==> r.Ok?
  {
    if r.Ok? then Continue else Halt(r.reason)
  }

  /** The round-robin walk of the event loop (test/afu/AFU.cpp:139-156) as written: at
      `end()` the position wraps to `begin()`, a context that sends ends the walk just past
      it, and otherwise the walk moves on until it is back at the saved cursor.  The loop is
      run for the |cs| passes within which it ends if it ends at all; `None` means it never
      ends. */
  method WalkRoundRobin(cs: seq<Context>, senders: set<Id>, prev: nat) returns (r: Option<nat>)
    requires 0 < |cs| && prev <= |cs|
    ensures r == AsWrittenRoundRobin(cs, senders, prev)
    ensures r.None? <==> prev == 0 && NoneSends(cs, senders)
    ensures r.Some? ==> r.value == RoundRobin(cs, senders, prev)
  {
    var n := |cs|;
    var p: nat := prev;
    var fuel: nat := n;
    while fuel > 0
      invariant p <= n
      invariant AsWrittenWalk(cs, senders, prev, p, fuel) == AsWrittenWalk(cs, senders, prev, prev, n)
    {
      var q := if p == n then 0 else p;
      if cs[q].key in senders {
        return Some(q + 1);
      }
      p := q + 1;
      if p == prev {
        return Some(p);
      }
      fuel := fuel - 1;
    }
    return None;
  }

  class Afu {
    const cfg: SimAfu.Config
    var state: SimAfu.AfuState
    var resetDelay: nat
    var jobRunning: bool
    var jobDone: bool
    const globalConfigs: array<bv64>
    var contexts: seq<Context>
    var cursor: SimAfu.Cursor
    var tagsInUse: set<Tag>
    var out: seq<SimAfu.Output>

    /** The object's state as a value of the functional model. */
    function Snapshot(): SimAfu.Snap
      reads this, globalConfigs
    {
      SimAfu.Snap(SimAfu.Status(state, resetDelay, jobRunning, jobDone), globalConfigs[..],
                  contexts, cursor, SimAfu.Io(tagsInUse, out))
    }

    predicate Valid()
      reads this, globalConfigs
    {
      SimAfu.ConfigWf(cfg) && globalConfigs.Length == 3 && SimAfu.Wf(Snapshot())
    }

    /** `AFU::AFU`: IDLE, then `reset()`.  The socket and the parity/latency setup are
        not part of this model. */
    constructor (cfg: SimAfu.Config)
      requires SimAfu.ConfigWf(cfg)
      ensures Valid() && this.cfg == cfg && Snapshot() == SimAfu.Initial(cfg)
    {
      this.cfg := cfg;
      globalConfigs := new bv64[3];
      state := SimAfu.Idle;
      resetDelay, jobRunning, jobDone := 0, false, false;
      contexts, cursor, tagsInUse, out := [], SimAfu.Dangling, {}, [];
      new;
      Reset();
    }

    method ClearGlobalConfigs()
      requires globalConfigs.Length == 3
      modifies globalConfigs
      ensures globalConfigs[..] == [0, 0, 0]
    {
      for i := 0 to 3
        invariant forall j :: 0 <= j < i ==> globalConfigs[j] == 0
      {
        globalConfigs[i] := 0;
      }
    }

    /** `AFU::reset` (test/afu/AFU.cpp:229-238). */
    method Reset()
      requires Valid()
      modifies this, globalConfigs
      ensures Valid() && Snapshot() == SimAfu.ResetAfu(cfg, old(Snapshot()))
    {
      ClearGlobalConfigs();
      resetDelay := 0;
      ResetMachineControllers();
    }

    /** `AFU::reset_machine_controllers` (test/afu/AFU.cpp:240-258). */
    method ResetMachineControllers()
      requires Valid()
      modifies this
      ensures Valid() && Snapshot() == SimAfu.ResetMachineControllers(cfg, old(Snapshot()))
    {
      tagsInUse := {};
      contexts := [];
      if cursor != SimAfu.End {
        cursor := SimAfu.Dangling;
      }
      if SimAfu.Dedicated(cfg) {
        contexts := [Context(0, cfg.newMachine)];
        cursor := SimAfu.End;
      }
    }

    /** The loop over the map calling `disable_all_machines` (test/afu/AFU.cpp:278-280). */
    method DisableAllMachines()
      requires Valid()
      modifies this
      ensures Valid() && Snapshot() == old(Snapshot()).(contexts := DisableAll(old(contexts)))
    {
      var cs := contexts;
      for i := 0 to |cs|
        invariant |cs| == |contexts|
        invariant forall j :: 0 <= j < i ==> cs[j] == DisableAll(contexts)[j]
        invariant forall j :: i <= j < |cs| ==> cs[j] == contexts[j]
      {
        cs := cs[i := Context(cs[i].key, cs[i].mc.(enabled := false))];
      }
      assert cs == DisableAll(contexts);
      SameKeysSameFind(cs, contexts, if cursor.At? then cursor.key else 0);
      contexts := cs;
    }

    /** Whether some machine is still enabled: the loop of the shutdown write
        (test/afu/AFU.cpp:452-458). */
    method AnyMachineEnabled() returns (b: bool)
      ensures b == AnyEnabled(contexts)
    {
      var i := 0;
      while i < |contexts|
        invariant 0 <= i <= |contexts|
        invariant forall j :: 0 <= j < i ==> !contexts[j].mc.enabled
      {
        if contexts[i].mc.enabled {
          return true;
        }
        i := i + 1;
      }
      return false;
    }

    /** Whether every machine has completed (test/afu/AFU.cpp:185-192). */
    method AllMachinesCompleted() returns (b: bool)
      ensures b == AllCompleted(contexts)
    {
      b := true;
      for i := 0 to |contexts|
        invariant b <==> forall j :: 0 <= j < i ==> contexts[j].mc.completed
      {
        if !contexts[i].mc.completed {
          b := false;
        }
      }
    }

    /** The first context in id order whose machine has the tag (`has_tag`). */
    method OwnerOf(tag: Tag) returns (r: Option<nat>)
      ensures r == FirstOwner(contexts, tag)
    {
      var i := 0;
      while i < |contexts|
        invariant 0 <= i <= |contexts|
        invariant forall j :: 0 <= j < i ==> tag !in contexts[j].mc.tags
      {
        if tag in contexts[i].mc.tags {
          return Some(i);
        }
        i := i + 1;
      }
      return None;
    }

    /** `AFU::resolve_control_event` (test/afu/AFU.cpp:260-356). */
    method ResolveControlEvent(job: SimAfu.Job, env: SimAfu.Env) returns (v: Verdict)
      requires Valid()
      modifies this, globalConfigs
      ensures v == VerdictOf(SimAfu.ResolveControl(cfg, old(Snapshot()), job, env))
      ensures v.Continue? ==> Valid() && Snapshot() == SimAfu.ResolveControl(cfg, old(Snapshot()), job, env).value
    {
      if env.parityEnable && !job.codeParityOk {
        return Halt(SimAfu.Error);
      }
      if job.code == cfg.jobs.reset {
        if !env.pslOk {
          return Halt(SimAfu.Error);
        }
        DisableAllMachines();
        state, resetDelay, jobRunning := SimAfu.Reset, SimAfu.ResetCycles, false;
        return Continue;
      } else if job.code == cfg.jobs.start {
        if state != SimAfu.Ready {
          return Halt(SimAfu.Error);
        }
        globalConfigs[1] := job.address;
        if env.parityEnable && !job.addressParityOk {
          return Halt(SimAfu.Error);
        }
        if !env.pslOk {
          return Halt(SimAfu.Error);
        }
        jobRunning := true;
        state := SimAfu.Running;
        return Continue;
      } else if job.code == cfg.jobs.llcmd {
        v := ResolveLlcmd(job.address);
      } else {
        return Continue;
      }
    }

    /** The LLCMD switch (test/afu/AFU.cpp:308-354). */
    method ResolveLlcmd(address: bv64) returns (v: Verdict)
      requires Valid()
      modifies this
      ensures v == VerdictOf(SimAfu.ResolveLlcmd(cfg, old(Snapshot()), address))
      ensures v.Continue? ==> Valid() && Snapshot() == SimAfu.ResolveLlcmd(cfg, old(Snapshot()), address).value
    {
      v := LlcmdCommand(address & cfg.llcmd.mask, SimAfu.LlcmdId(address));
    }

    method LlcmdCommand(command: bv64, key: Id) returns (v: Verdict)
      requires Valid()
      modifies this
      ensures v == VerdictOf(SimAfu.LlcmdCommand(cfg, old(Snapshot()), command, key))
      ensures v.Continue? ==> Valid() && Snapshot() == SimAfu.LlcmdCommand(cfg, old(Snapshot()), command, key).value
    {
      if command == cfg.llcmd.add {
        v := AddContext(key);
      } else if command == cfg.llcmd.terminate {
        v := TerminateContext(key);
      } else if command == cfg.llcmd.remove {
        v := RemoveContext(key);
      } else {
        v := Halt(SimAfu.Error);
      }
    }

    /** PSL_LLCMD_ADD (test/afu/AFU.cpp:312-324). */
    method AddContext(key: Id) returns (v: Verdict)
      requires Valid()
      modifies this
      ensures v == VerdictOf(SimAfu.AddContext(cfg, old(Snapshot()), key))
      ensures v.Continue? ==> Valid() && Snapshot() == SimAfu.AddContext(cfg, old(Snapshot()), key).value
    {
      if Find(contexts, key).Some? {
        return Halt(SimAfu.Error);
      }
      InsertIsMapInsert(contexts, Context(key, cfg.newMachine));
      contexts := Insert(contexts, Context(key, cfg.newMachine));
      if key == 0 {
        cursor := SimAfu.End;
      }
      return Continue;
    }

    /** PSL_LLCMD_TERMINATE (test/afu/AFU.cpp:325-333). */
    method TerminateContext(key: Id) returns (v: Verdict)
      requires Valid()
      modifies this
      ensures v == VerdictOf(SimAfu.TerminateContext(old(Snapshot()), key))
      ensures v.Continue? ==> Valid() && Snapshot() == SimAfu.TerminateContext(old(Snapshot()), key).value
    {
      var found := Find(contexts, key);
      if found.None? {
        return Halt(SimAfu.Error);
      }
      var cs := DisableAt(contexts, found.value);
      SameKeysSameFind(cs, contexts, if cursor.At? then cursor.key else 0);
      contexts := cs;
      return Continue;
    }

    /** PSL_LLCMD_REMOVE (test/afu/AFU.cpp:334-351). */
    method RemoveContext(key: Id) returns (v: Verdict)
      requires Valid()
      modifies this
      ensures v == VerdictOf(SimAfu.RemoveContext(old(Snapshot()), key))
      ensures v.Continue? ==> Valid() && Snapshot() == SimAfu.RemoveContext(old(Snapshot()), key).value
    {
      var found := Find(contexts, key);
      if found.None? || !contexts[found.value].mc.completed {
        return Halt(SimAfu.Error);
      }
      EraseIsMapErase(contexts, key);
      contexts := Erase(contexts, key);
      if cursor == SimAfu.At(key) {
        cursor := SimAfu.Dangling;
      }
      return Continue;
    }

    /** The acknowledge of a read: it carries the data, with the parity of `data + 1`
        when bit 63 of global register 2 asks for a bad parity. */
    function ReadAck(data: bv64): (o: SimAfu.Output)
      reads this, globalConfigs
      requires globalConfigs.Length == 3
      ensures o.MmioAck? && o.data == data
      ensures globalConfigs[2] & 0x8000_0000_0000_0000 != 0 ==> o.parity == SimAfu.OddParityOf(data + 1)
      ensures globalConfigs[2] & 0x8000_0000_0000_0000 == 0 ==> o.parity == SimAfu.OddParityOf(data)
    {
      SimAfu.MmioAck(data, SimAfu.ReadParity(globalConfigs[..], data))
    }

    /** `AFU::resolve_mmio_descriptor_event` (test/afu/AFU.cpp:358-375). */
    method ResolveMmioDescriptorEvent(m: SimAfu.Mmio, env: SimAfu.Env) returns (v: Verdict)
      requires Valid()
      modifies this
      ensures v == VerdictOf(SimAfu.ResolveDescriptorAccess(cfg, old(Snapshot()), m, env))
      ensures v.Continue? ==> Valid() && Snapshot() == SimAfu.ResolveDescriptorAccess(cfg, old(Snapshot()), m, env).value
    {
      if !m.read {
        return Halt(SimAfu.Error);
      }
      if AfuDescriptor.RegIndex(m.address) as nat >= |cfg.descriptor| {
        return Halt(SimAfu.Undefined);
      }
      var data := AfuDescriptor.GetReg(cfg.descriptor, m.address, m.double);
      if !env.pslOk {
        return Halt(SimAfu.Error);
      }
      out := out + [ReadAck(data)];
      return Continue;
    }

    /** `AFU::resolve_mmio_event` (test/afu/AFU.cpp:377-496). */
    method ResolveMmioEvent(m: SimAfu.Mmio, env: SimAfu.Env) returns (v: Verdict)
      requires Valid()
      modifies this, globalConfigs
      ensures v == VerdictOf(SimAfu.ResolveMmio(old(Snapshot()), m, env))
      ensures v.Continue? ==> Valid() && Snapshot() == SimAfu.ResolveMmio(old(Snapshot()), m, env).value
    {
      if m.read {
        v := MmioRead(m, env);
      } else {
        v := MmioWrite(m, env);
      }
    }

    /** A read of the global configuration registers (test/afu/AFU.cpp:384-404). */
    method ReadGlobal(address: bv32, double: bool) returns (data: bv64)
      requires globalConfigs.Length == 3
      ensures data == SimAfu.GlobalRead(globalConfigs[..], address, double)
    {
      var word := address & 0xFFFF_FFFE;
      if word == 0x4 {
        data := globalConfigs[2];
      } else if word == 0x2 {
        data := globalConfigs[1];
      } else {
        data := 0xFFFF_FFFF_FFFF_FFFF;
      }
      data := SimAfu.SelectWord(data, address, double);
    }

    /** A read of a context window (test/afu/AFU.cpp:406-422). */
    method ReadWindow(address: bv32, contextRead: bv64) returns (data: bv64)
      ensures data == SimAfu.WindowRead(contexts, address, contextRead)
    {
      if Find(contexts, SimAfu.WindowId(address)).Some? {
        data := contextRead;
      } else {
        data := 0xFFFF_FFFF_FFFF_FFFF;
      }
    }

    /** The value of a read (test/afu/AFU.cpp:381-422). */
    method MmioReadValue(m: SimAfu.Mmio, contextRead: bv64) returns (data: bv64)
      requires Valid()
      ensures data == SimAfu.MmioReadData(Snapshot(), m, contextRead)
    {
      if m.address < 0x400 {
        data := ReadGlobal(m.address, m.double);
      } else {
        data := ReadWindow(m.address, contextRead);
      }
    }

    /** A read (test/afu/AFU.cpp:380-431). */
    method MmioRead(m: SimAfu.Mmio, env: SimAfu.Env) returns (v: Verdict)
      requires Valid()
      modifies this
      ensures v == VerdictOf(SimAfu.MmioRead(old(Snapshot()), m, env))
      ensures v.Continue? ==> Valid() && Snapshot() == SimAfu.MmioRead(old(Snapshot()), m, env).value
    {
      var data := MmioReadValue(m, env.contextRead);
      if !env.pslOk {
        return Halt(SimAfu.Error);
      }
      out := out + [ReadAck(data)];
      return Continue;
    }

    /** A write (test/afu/AFU.cpp:436-494). */
    method MmioWrite(m: SimAfu.Mmio, env: SimAfu.Env) returns (v: Verdict)
      requires Valid()
      modifies this, globalConfigs
      ensures v == VerdictOf(SimAfu.MmioWrite(old(Snapshot()), m, env))
      ensures v.Continue? ==> Valid() && Snapshot() == SimAfu.MmioWrite(old(Snapshot()), m, env).value
    {
      if !m.double && SimAfu.HalvesDiffer(m.data) {
        return Halt(SimAfu.Error);
      }
      if m.address < 0x400 {
        v := WriteGlobal(m.address, m.data);
        if v.Halt? {
          return;
        }
      } else {
        WriteContext(m);
      }
      if !env.pslOk {
        return Halt(SimAfu.Error);
      }
      out := out + [SimAfu.MmioAck(0, SimAfu.ZeroBit)];
      return Continue;
    }

    /** A write below 0x400 (test/afu/AFU.cpp:448-472). */
    method WriteGlobal(address: bv32, data: bv64) returns (v: Verdict)
      requires Valid()
      modifies this, globalConfigs
      ensures v == VerdictOf(SimAfu.GlobalWrite(old(Snapshot()), address, data))
      ensures v.Continue? ==> Valid() && Snapshot() == SimAfu.GlobalWrite(old(Snapshot()), address, data).value
    {
      var word := address & 0xFFFF_FFFE;
      if word == 0 {
        var enabled := AnyMachineEnabled();
        if enabled {
          return Halt(SimAfu.Error);
        }
        state := SimAfu.WaitingForLastResponses;
      } else if word == 0x4 {
        globalConfigs[2] := data & 0x8000_0000_0000_0000;
      }
      return Continue;
    }

    /** A write at or above 0x400 goes to the window's context, if there is one
        (test/afu/AFU.cpp:473-490). */
    method WriteContext(m: SimAfu.Mmio)
      requires Valid()
      modifies this
      ensures Valid() && Snapshot() == SimAfu.WindowWrite(old(Snapshot()), m)
    {
      var key := SimAfu.WindowId(m.address);
      if Find(contexts, key).Some? {
        out := out + [SimAfu.ToContext(key, SimAfu.ConfigWrite(m.address & 0x3FF, m.data, m.double))];
      }
    }

    /** The MMIO branch of the event loop (test/afu/AFU.cpp:87-107). */
    method DispatchMmio(m: SimAfu.Mmio, env: SimAfu.Env) returns (v: Verdict)
      requires Valid()
      modifies this, globalConfigs
      ensures v == VerdictOf(SimAfu.MmioEvent(cfg, old(Snapshot()), m, env))
      ensures v.Continue? ==> Valid() && Snapshot() == SimAfu.MmioEvent(cfg, old(Snapshot()), m, env).value
    {
      if m.double && m.address & 1 == 1 {
        return Halt(SimAfu.Error);
      }
      if m.descriptorAccess {
        if state == SimAfu.Idle || state == SimAfu.Reset {
          return Halt(SimAfu.Error);
        }
        v := ResolveMmioDescriptorEvent(m, env);
      } else {
        if state != SimAfu.Running && state != SimAfu.WaitingForLastResponses {
          return Halt(SimAfu.Error);
        }
        v := ResolveMmioEvent(m, env);
      }
    }

    /** `resolve_response_event`, `resolve_buffer_write_event` and
        `resolve_buffer_read_event` with the state check the event loop makes before each
        (test/afu/AFU.cpp:76-85, 110-131, 498-540). */
    method ResolveTaggedEvent(kind: SimAfu.TagKind, tag: Tag) returns (v: Verdict)
      requires Valid()
      modifies this
      ensures v == VerdictOf(SimAfu.TaggedEvent(old(Snapshot()), kind, tag))
      ensures v.Continue? ==> Valid() && Snapshot() == SimAfu.TaggedEvent(old(Snapshot()), kind, tag).value
    {
      if state != SimAfu.Running && state != SimAfu.WaitingForLastResponses && state != SimAfu.Reset {
        return Halt(SimAfu.Error);
      }
      if tag !in tagsInUse {
        return Halt(SimAfu.Error);
      }
      var owner := OwnerOf(tag);
      if owner.Some? {
        out := out + [SimAfu.ToContext(contexts[owner.value].key, SimAfu.Tagged(kind, tag))];
      }
      return Continue;
    }

    /** `AFU::resolve_aux1_event` (test/afu/AFU.cpp:220-227). */
    method ResolveAux1Event(room: nat) returns (v: Verdict)
      requires Valid()
      modifies this
      ensures v == VerdictOf(SimAfu.Aux1Event(old(Snapshot()), room))
      ensures v.Continue? ==> Valid() && Snapshot() == SimAfu.Aux1Event(old(Snapshot()), room).value
    {
      if state == SimAfu.Running {
        return Halt(SimAfu.Error);
      }
      out := out + [SimAfu.MaxCredits(room)];
      return Continue;
    }

    /** RUNNING: the round-robin walk over the contexts (test/afu/AFU.cpp:139-156), as
        written: it halts with `Hang` where the loop would never end. */
    method GenerateCommands(senders: set<Id>) returns (v: Verdict)
      requires Valid()
      modifies this
      ensures v == VerdictOf(SimAfu.SendCommands(old(Snapshot()), senders))
      ensures v.Continue? ==> Valid() && Snapshot() == SimAfu.SendCommands(old(Snapshot()), senders).value
    {
      var cs := contexts;
      var n := |cs|;
      if n == 0 {
        return Continue;
      }
      var p: nat;
      match cursor {
        case Dangling =>
          return Halt(SimAfu.Undefined);
        case End =>
          p := n;
        case At(k) =>
          p := Find(cs, k).value;
      }
      var q := WalkRoundRobin(cs, senders, p);
      match q {
        case None =>
          return Halt(SimAfu.Hang);
        case Some(q') =>
          cursor := SimAfu.CursorAt(cs, q');
          return Continue;
      }
    }

    /** RESET: the countdown, then READY, `reset()` and job_done (test/afu/AFU.cpp:158-179). */
    method CountDownReset(pslOk: bool) returns (v: Verdict)
      requires Valid()
      modifies this, globalConfigs
      ensures v == VerdictOf(SimAfu.CountDownReset(cfg, old(Snapshot()), pslOk))
      ensures v.Continue? ==> Valid() && Snapshot() == SimAfu.CountDownReset(cfg, old(Snapshot()), pslOk).value
    {
      if resetDelay == 0 {
        state := SimAfu.Ready;
        Reset();
        if !pslOk {
          return Halt(SimAfu.Error);
        }
        jobDone := true;
      } else {
        resetDelay := resetDelay - 1;
      }
      return Continue;
    }

    /** WAITING_FOR_LAST_RESPONSES (test/afu/AFU.cpp:181-204). */
    method FinishShutdown(pslOk: bool) returns (v: Verdict)
      requires Valid()
      modifies this
      ensures v == VerdictOf(SimAfu.FinishShutdown(cfg, old(Snapshot()), pslOk))
      ensures v.Continue? ==> Valid() && Snapshot() == SimAfu.FinishShutdown(cfg, old(Snapshot()), pslOk).value
    {
      var done := AllMachinesCompleted();
      if !done {
        return Continue;
      }
      ResetMachineControllers();
      if !pslOk {
        return Halt(SimAfu.Error);
      }
      jobRunning, jobDone := false, true;
      state := SimAfu.Idle;
      return Continue;
    }

    method AfterEvents(env: SimAfu.Env) returns (v: Verdict)
      requires Valid()
      modifies this, globalConfigs
      ensures v == VerdictOf(SimAfu.AfterEvents(cfg, old(Snapshot()), env))
      ensures v.Continue? ==> Valid() && Snapshot() == SimAfu.AfterEvents(cfg, old(Snapshot()), env).value
    {
      match state
      case Running =>
        v := GenerateCommands(env.senders);
      case Reset =>
        v := CountDownReset(env.pslOk);
      case WaitingForLastResponses =>
        v := FinishShutdown(env.pslOk);
      case _ =>
        v := Continue;
    }

    /** The job, response and MMIO events (test/afu/AFU.cpp:68-108). */
    method EarlyEvents(ev: SimAfu.Event, env: SimAfu.Env) returns (v: Verdict)
      requires Valid()
      modifies this, globalConfigs
      ensures v == VerdictOf(SimAfu.EarlyEvents(cfg, old(Snapshot()), ev, env))
      ensures v.Continue? ==> Valid() && Snapshot() == SimAfu.EarlyEvents(cfg, old(Snapshot()), ev, env).value
    {
      v := Continue;
      if ev.job.Some? {
        v := ResolveControlEvent(ev.job.value, env);
        if v.Halt? {
          return;
        }
      }
      if ev.response.Some? {
        v := ResolveTaggedEvent(SimAfu.ResponseTag, ev.response.value);
        if v.Halt? {
          return;
        }
      }
      if ev.mmio.Some? {
        v := DispatchMmio(ev.mmio.value, env);
      }
    }

    /** The buffer-write, buffer-read and aux1 events (test/afu/AFU.cpp:110-136). */
    method LateEvents(ev: SimAfu.Event) returns (v: Verdict)
      requires Valid()
      modifies this
      ensures v == VerdictOf(SimAfu.LateEvents(old(Snapshot()), ev))
      ensures v.Continue? ==> Valid() && Snapshot() == SimAfu.LateEvents(old(Snapshot()), ev).value
    {
      v := Continue;
      if ev.buffer.write.Some? {
        v := ResolveTaggedEvent(SimAfu.BufferWriteTag, ev.buffer.write.value);
        if v.Halt? {
          return;
        }
      }
      if ev.buffer.read.Some? {
        v := ResolveTaggedEvent(SimAfu.BufferReadTag, ev.buffer.read.value);
        if v.Halt? {
          return;
        }
      }
      if ev.aux1.Some? {
        v := ResolveAux1Event(ev.aux1.value);
      }
    }

    /** One pass of the event loop that found events (test/afu/AFU.cpp:62-204). */
    method Step(ev: SimAfu.Event, env: SimAfu.Env) returns (v: Verdict)
      requires Valid()
      modifies this, globalConfigs
      ensures v == VerdictOf(SimAfu.Step(cfg, old(Snapshot()), ev, env))
      ensures v.Continue? ==> Valid() && Snapshot() == SimAfu.Step(cfg, old(Snapshot()), ev, env).value
    {
      jobDone := false;
      v := EarlyEvents(ev, env);
      if v.Halt? {
        return;
      }
      v := LateEvents(ev);
      if v.Halt? {
        return;
      }
      v := AfterEvents(env);
    }

    /** `AFU::start`: the event loop, over the sequence of what each poll of the socket
        returned (test/afu/AFU.cpp:41-206). */
    method Start(polls: seq<SimAfu.Poll>) returns (r: SimAfu.RunEnd)
      requires Valid()
      modifies this, globalConfigs
      ensures r == SimAfu.Run(cfg, old(Snapshot()), polls)
      ensures !r.Halted? ==> Valid() && Snapshot() == r.last
    {
      var i := 0;
      while i < |polls|
        invariant 0 <= i <= |polls| && Valid()
        invariant SimAfu.Run(cfg, old(Snapshot()), polls) == SimAfu.Run(cfg, Snapshot(), polls[i..])
      {
        assert polls[i..][1..] == polls[i + 1..];
        match polls[i] {
          case Lost =>
            return SimAfu.ConnectionLost(Snapshot());
          case Quiet =>
          case Events(ev, env) =>
            var v := Step(ev, env);
            if v.Halt? {
              return SimAfu.Halted(v.reason);
            }
        }
        i := i + 1;
      }
      return SimAfu.OutOfInput(Snapshot());
    }
  }
}
