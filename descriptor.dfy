/** The test AFU's descriptor register file: a vector of 64-bit registers filled from a
    text file of `field : value` lines, and the accessors the AFU reads it through.

    The field setters mask a value into one register (several 16-bit lanes share
    register 0x00, a control byte and a 56-bit length share register 0x30); the
    getters and `get_reg` are shift-and-mask expressions over the registers. */
module AfuDescriptor {

  type Regs = seq<bv64>

  /** The descriptor registers the parser writes, by byte address: 0x00 .. 0x48, so
      index 9 is the highest one.  DESCRIPTOR_NUM_REGS is a parameter of the model. */
  const HighestIndex: nat := 9

  predicate Complete(regs: Regs) {
    |regs| > HighestIndex
  }

  // ---------------------------------------------------------------------------
  // Register addressing (test/afu/Descriptor.cpp:106-127)
  // ---------------------------------------------------------------------------

  /** `to_vector_index`: the register holding a byte address. */
  function ToVectorIndex(byteAddress: bv32): bv32 {
    byteAddress >> 3
  }

  /** A byte address names the register of its eight-byte group. */
  lemma ToVectorIndexDividesByEight(byteAddress: bv32)
    ensures ToVectorIndex(byteAddress) == byteAddress / 8
  {
  }

  /** The register `get_reg` reads for a 32-bit word address. */
  function RegIndex(wordAddress: bv32): bv32 {
    ToVectorIndex(wordAddress << 2)
  }

  /** The word address is shifted left by two in 32 bits before the division, so its top two
      bits are lost: two words share a register, and addresses 0x4000_0000 apart alias. */
  lemma RegIndexDropsTopBits(wordAddress: bv32)
    ensures RegIndex(wordAddress) == (wordAddress & 0x3FFF_FFFF) >> 1
  {
  }

  /** Below 0x4000_0000 no bit is lost: the register is the word address halved. */
  lemma RegIndexOfSmallAddress(wordAddress: bv32)
    requires wordAddress < 0x4000_0000
    ensures RegIndex(wordAddress) == wordAddress >> 1
  {
  }

  /** The low word of a register copied into both halves. */
  function LowTwice(data: bv64): bv64 {
    (data & 0xFFFF_FFFF) | ((data & 0xFFFF_FFFF) << 32)
  }

  /** The high word of a register copied into both halves. */
  function HighTwice(data: bv64): bv64 {
    (data & 0xFFFF_FFFF_0000_0000) | (data >> 32)
  }

  /** A word read at an odd address carries the low word of the register in both halves. */
  lemma LowTwiceHalves(data: bv64)
    ensures LowTwice(data) >> 32 == data & 0xFFFF_FFFF
    ensures LowTwice(data) & 0xFFFF_FFFF == data & 0xFFFF_FFFF
  {
  }

  /** A word read at an even address carries the high word of the register in both halves. */
  lemma HighTwiceHalves(data: bv64)
    ensures HighTwice(data) >> 32 == data >> 32
    ensures HighTwice(data) & 0xFFFF_FFFF == data >> 32
  {
  }

  /** `get_reg`: a doubleword access returns the whole register; a word access returns the
      addressed word in both halves, the low word at an odd address and the high word at
      an even one.  Indexing past the vector is undefined in the source, so the caller must
      stay inside it. */
  function GetReg(regs: Regs, wordAddress: bv32, double: bool): (r: bv64)
    requires RegIndex(wordAddress) as nat < |regs|
    ensures var data := regs[RegIndex(wordAddress)];
      && (double ==> r == data)
      && (!double && wordAddress & 1 == 1 ==> r == LowTwice(data))
      && (!double && wordAddress & 1 == 0 ==> r == HighTwice(data))
  {
    var data := regs[RegIndex(wordAddress)];
    if double then data
    else if wordAddress & 1 == 1 then LowTwice(data)
    else HighTwice(data)
  }

  // ---------------------------------------------------------------------------
  // Fields (test/afu/Descriptor.cpp:57-102, 141-212)
  // ---------------------------------------------------------------------------

  datatype Field =
    | NumIntsPerProcess | NumOfProcesses | NumOfAfuCRs | RegProgModel  // reg 0x00
    | AfuCrLen                                                         // reg 0x20
    | AfuCrOffset                                                      // reg 0x28
    | PerProcessPsaControl | PerProcessPsaLength                       // reg 0x30
    | PerProcessPsaOffset                                              // reg 0x38
    | AfuEbLen                                                         // reg 0x40
    | AfuEbOffset                                                      // reg 0x48

  /** The field names the parser recognises. */
  function FieldNamed(name: string): (f: Option<Field>)
    ensures f.Some? ==> name == NameOf(f.value)
  {
    if name == "num_ints_per_process" then Some(NumIntsPerProcess)
    else if name == "num_of_processes" then Some(NumOfProcesses)
    else if name == "num_of_afu_CRs" then Some(NumOfAfuCRs)
    else if name == "reg_prog_model" then Some(RegProgModel)
    else if name == "AFU_CR_len" then Some(AfuCrLen)
    else if name == "AFU_CR_offset" then Some(AfuCrOffset)
    else if name == "PerProcessPSA_control" then Some(PerProcessPsaControl)
    else if name == "PerProcessPSA_length" then Some(PerProcessPsaLength)
    else if name == "PerProcessPSA_offset" then Some(PerProcessPsaOffset)
    else if name == "AFU_EB_len" then Some(AfuEbLen)
    else if name == "AFU_EB_offset" then Some(AfuEbOffset)
    else None
  }

  function NameOf(f: Field): string {
    match f
    case NumIntsPerProcess => "num_ints_per_process"
    case NumOfProcesses => "num_of_processes"
    case NumOfAfuCRs => "num_of_afu_CRs"
    case RegProgModel => "reg_prog_model"
    case AfuCrLen => "AFU_CR_len"
    case AfuCrOffset => "AFU_CR_offset"
    case PerProcessPsaControl => "PerProcessPSA_control"
    case PerProcessPsaLength => "PerProcessPSA_length"
    case PerProcessPsaOffset => "PerProcessPSA_offset"
    case AfuEbLen => "AFU_EB_len"
    case AfuEbOffset => "AFU_EB_offset"
  }

  /** Every field is recognised under its own name. */
  lemma FieldNamesRoundTrip(f: Field)
    ensures FieldNamed(NameOf(f)) == Some(f)
  {
  }

  /** The register index (byte address / 8) each field lives in. */
  function RegOf(f: Field): (i: nat)
    ensures i <= HighestIndex
  {
    match f
    case NumIntsPerProcess => 0
    case NumOfProcesses => 0
    case NumOfAfuCRs => 0
    case RegProgModel => 0
    case AfuCrLen => 4
    case AfuCrOffset => 5
    case PerProcessPsaControl => 6
    case PerProcessPsaLength => 6
    case PerProcessPsaOffset => 7
    case AfuEbLen => 8
    case AfuEbOffset => 9
  }

  const Low56: bv64 := 0x00FF_FFFF_FFFF_FFFF

  // The setters, one expression each, on the old contents of the field's register.  Each
  // promises that the bits outside its lane keep their old value and that the lane holds
  // the low bits of the value, shifted into place: the xor of two words is zero exactly
  // on the bits where they agree.

  function SetNumIntsPerProcess(reg: bv64, value: bv64): (r: bv64)
    ensures (r ^ reg) & 0x0000_FFFF_FFFF_FFFF == 0 && (r ^ (value << 48)) & 0xFFFF_0000_0000_0000 == 0
  {
    (reg & 0x0000_FFFF_FFFF_FFFF) | ((value & 0xFFFF) << 48)
  }

  function SetNumOfProcesses(reg: bv64, value: bv64): (r: bv64)
    ensures (r ^ reg) & 0xFFFF_0000_FFFF_FFFF == 0 && (r ^ (value << 32)) & 0x0000_FFFF_0000_0000 == 0
  {
    (reg & 0xFFFF_0000_FFFF_FFFF) | ((value & 0xFFFF) << 32)
  }

  function SetNumOfAfuCRs(reg: bv64, value: bv64): (r: bv64)
    ensures (r ^ reg) & 0xFFFF_FFFF_0000_FFFF == 0 && (r ^ (value << 16)) & 0x0000_0000_FFFF_0000 == 0
  {
    (reg & 0xFFFF_FFFF_0000_FFFF) | ((value & 0xFFFF) << 16)
  }

  function SetRegProgModel(reg: bv64, value: bv64): (r: bv64)
    ensures (r ^ reg) & 0xFFFF_FFFF_FFFF_0000 == 0 && (r ^ value) & 0xFFFF == 0
  {
    (reg & 0xFFFF_FFFF_FFFF_0000) | (value & 0xFFFF)
  }

  function SetAfuCrLen(reg: bv64, value: bv64): (r: bv64)
    ensures (r ^ reg) & 0xFF00_0000_0000_0000 == 0 && (r ^ value) & Low56 == 0
  {
    (reg & 0xFF00_0000_0000_0000) | (value & Low56)
  }

  function SetPerProcessPsaControl(reg: bv64, value: bv64): (r: bv64)
    ensures (r ^ reg) & Low56 == 0 && (r ^ (value << 56)) & 0xFF00_0000_0000_0000 == 0
  {
    (reg & Low56) | ((value & 0xFF) << 56)
  }

  function SetPerProcessPsaLength(reg: bv64, value: bv64): (r: bv64)
    ensures (r ^ reg) & 0xFF00_0000_0000_0000 == 0 && (r ^ value) & Low56 == 0
  {
    (reg & 0xFF00_0000_0000_0000) | (value & Low56)
  }

  /** AFU_EB_len replaces its whole register, so the top byte is cleared. */
  function SetAfuEbLen(value: bv64): (r: bv64)
    ensures r & 0xFF00_0000_0000_0000 == 0 && (r ^ value) & Low56 == 0
  {
    value & Low56
  }

  /** The new contents of the field's register after the parser assigns `value`; the three
      offsets are stored whole. */
  function Insert(f: Field, reg: bv64, value: bv64): bv64 {
    match f
    case NumIntsPerProcess => SetNumIntsPerProcess(reg, value)
    case NumOfProcesses => SetNumOfProcesses(reg, value)
    case NumOfAfuCRs => SetNumOfAfuCRs(reg, value)
    case RegProgModel => SetRegProgModel(reg, value)
    case AfuCrLen => SetAfuCrLen(reg, value)
    case AfuCrOffset => value
    case PerProcessPsaControl => SetPerProcessPsaControl(reg, value)
    case PerProcessPsaLength => SetPerProcessPsaLength(reg, value)
    case PerProcessPsaOffset => value
    case AfuEbLen => SetAfuEbLen(value)
    case AfuEbOffset => value
  }

  /** One assignment of the parser: only the field's own register changes. */
  function SetField(regs: Regs, f: Field, value: bv64): (r: Regs)
    requires Complete(regs)
    ensures |r| == |regs| && r[RegOf(f)] == Insert(f, regs[RegOf(f)], value)
    ensures forall i :: 0 <= i < |regs| && i != RegOf(f) ==> r[i] == regs[i]
  {
    regs[RegOf(f) := Insert(f, regs[RegOf(f)], value)]
  }

  // The getters.  Each promises which bits of its register it returns: registers 0 and 4
  // to 9 are byte addresses 0x00 and 0x20 to 0x48 (`RegOf`).

  function NumIntsPerProcessOf(regs: Regs): (r: bv16)
    requires Complete(regs)
    ensures regs[0] & 0xFFFF_0000_0000_0000 == (r as bv64) << 48
  {
    ((regs[0] >> 48) & 0xFFFF) as bv16
  }

  function NumOfProcessOf(regs: Regs): (r: bv16)
    requires Complete(regs)
    ensures regs[0] & 0x0000_FFFF_0000_0000 == (r as bv64) << 32
  {
    ((regs[0] >> 32) & 0xFFFF) as bv16
  }

  function NumOfAfuCRsOf(regs: Regs): (r: bv16)
    requires Complete(regs)
    ensures regs[0] & 0x0000_0000_FFFF_0000 == (r as bv64) << 16
  {
    ((regs[0] >> 16) & 0xFFFF) as bv16
  }

  function RegProgModelOf(regs: Regs): (r: bv16)
    requires Complete(regs)
    ensures regs[0] & 0xFFFF == r as bv64
  {
    (regs[0] & 0xFFFF) as bv16
  }

  function AfuCrLenOf(regs: Regs): (r: bv64)
    requires Complete(regs)
    ensures r >> 56 == 0 && r & Low56 == regs[4] & Low56
  {
    regs[4] & Low56
  }

  function AfuCrOffsetOf(regs: Regs): (r: bv64)
    requires Complete(regs)
    ensures r == regs[5]
  {
    regs[5]
  }

  function PerProcessPsaControlOf(regs: Regs): (r: bv8)
    requires Complete(regs)
    ensures regs[6] >> 56 == r as bv64
  {
    ((regs[6] >> 56) & 0xFF) as bv8
  }

  function PerProcessPsaLengthOf(regs: Regs): (r: bv64)
    requires Complete(regs)
    ensures r >> 56 == 0 && r & Low56 == regs[6] & Low56
  {
    regs[6] & Low56
  }

  function PerProcessPsaOffsetOf(regs: Regs): (r: bv64)
    requires Complete(regs)
    ensures r == regs[7]
  {
    regs[7]
  }

  function AfuEbLenOf(regs: Regs): (r: bv64)
    requires Complete(regs)
    ensures r >> 56 == 0 && r & Low56 == regs[8] & Low56
  {
    regs[8] & Low56
  }

  function AfuEbOffsetOf(regs: Regs): (r: bv64)
    requires Complete(regs)
    ensures r == regs[9]
  {
    regs[9]
  }

  // Each `...Bits` lemma states the bit-vector facts about one setter on a single register
  // value; the lemma after it carries them over to the register vector.

  lemma NumIntsPerProcessBits(reg: bv64, value: bv64)
    ensures ((SetNumIntsPerProcess(reg, value) >> 48) & 0xFFFF) as bv16 == (value & 0xFFFF) as bv16
    ensures ((SetNumIntsPerProcess(reg, value) >> 32) & 0xFFFF) as bv16 == ((reg >> 32) & 0xFFFF) as bv16
    ensures ((SetNumIntsPerProcess(reg, value) >> 16) & 0xFFFF) as bv16 == ((reg >> 16) & 0xFFFF) as bv16
    ensures (SetNumIntsPerProcess(reg, value) & 0xFFFF) as bv16 == (reg & 0xFFFF) as bv16
  {
  }

  /** `NumIntsPerProcess` takes bits 48-63 of register 0x00: its getter returns the low 16 bits of the
      value and the getters of the other three fields of the register are unchanged. */
  lemma NumIntsPerProcessLane(regs: Regs, value: bv64)
    requires Complete(regs)
    ensures NumIntsPerProcessOf(SetField(regs, NumIntsPerProcess, value)) == (value & 0xFFFF) as bv16
    ensures NumOfProcessOf(SetField(regs, NumIntsPerProcess, value)) == NumOfProcessOf(regs)
    ensures NumOfAfuCRsOf(SetField(regs, NumIntsPerProcess, value)) == NumOfAfuCRsOf(regs)
    ensures RegProgModelOf(SetField(regs, NumIntsPerProcess, value)) == RegProgModelOf(regs)
  {
    var r := SetField(regs, NumIntsPerProcess, value);
    assert r[0] == SetNumIntsPerProcess(regs[0], value);
    NumIntsPerProcessBits(regs[0], value);
  }

  lemma NumOfProcessesBits(reg: bv64, value: bv64)
    ensures ((SetNumOfProcesses(reg, value) >> 32) & 0xFFFF) as bv16 == (value & 0xFFFF) as bv16
    ensures ((SetNumOfProcesses(reg, value) >> 48) & 0xFFFF) as bv16 == ((reg >> 48) & 0xFFFF) as bv16
    ensures ((SetNumOfProcesses(reg, value) >> 16) & 0xFFFF) as bv16 == ((reg >> 16) & 0xFFFF) as bv16
    ensures (SetNumOfProcesses(reg, value) & 0xFFFF) as bv16 == (reg & 0xFFFF) as bv16
  {
  }

  /** `NumOfProcesses` takes bits 32-47 of register 0x00: its getter returns the low 16 bits of the
      value and the getters of the other three fields of the register are unchanged. */
  lemma NumOfProcessesLane(regs: Regs, value: bv64)
    requires Complete(regs)
    ensures NumOfProcessOf(SetField(regs, NumOfProcesses, value)) == (value & 0xFFFF) as bv16
    ensures NumIntsPerProcessOf(SetField(regs, NumOfProcesses, value)) == NumIntsPerProcessOf(regs)
    ensures NumOfAfuCRsOf(SetField(regs, NumOfProcesses, value)) == NumOfAfuCRsOf(regs)
    ensures RegProgModelOf(SetField(regs, NumOfProcesses, value)) == RegProgModelOf(regs)
  {
    var r := SetField(regs, NumOfProcesses, value);
    assert r[0] == SetNumOfProcesses(regs[0], value);
    NumOfProcessesBits(regs[0], value);
  }

  lemma NumOfAfuCRsBits(reg: bv64, value: bv64)
    ensures ((SetNumOfAfuCRs(reg, value) >> 16) & 0xFFFF) as bv16 == (value & 0xFFFF) as bv16
    ensures ((SetNumOfAfuCRs(reg, value) >> 48) & 0xFFFF) as bv16 == ((reg >> 48) & 0xFFFF) as bv16
    ensures ((SetNumOfAfuCRs(reg, value) >> 32) & 0xFFFF) as bv16 == ((reg >> 32) & 0xFFFF) as bv16
    ensures (SetNumOfAfuCRs(reg, value) & 0xFFFF) as bv16 == (reg & 0xFFFF) as bv16
  {
  }

  /** `NumOfAfuCRs` takes bits 16-31 of register 0x00: its getter returns the low 16 bits of the
      value and the getters of the other three fields of the register are unchanged. */
  lemma NumOfAfuCRsLane(regs: Regs, value: bv64)
    requires Complete(regs)
    ensures NumOfAfuCRsOf(SetField(regs, NumOfAfuCRs, value)) == (value & 0xFFFF) as bv16
    ensures NumIntsPerProcessOf(SetField(regs, NumOfAfuCRs, value)) == NumIntsPerProcessOf(regs)
    ensures NumOfProcessOf(SetField(regs, NumOfAfuCRs, value)) == NumOfProcessOf(regs)
    ensures RegProgModelOf(SetField(regs, NumOfAfuCRs, value)) == RegProgModelOf(regs)
  {
    var r := SetField(regs, NumOfAfuCRs, value);
    assert r[0] == SetNumOfAfuCRs(regs[0], value);
    NumOfAfuCRsBits(regs[0], value);
  }

  lemma RegProgModelBits(reg: bv64, value: bv64)
    ensures (SetRegProgModel(reg, value) & 0xFFFF) as bv16 == (value & 0xFFFF) as bv16
    ensures ((SetRegProgModel(reg, value) >> 48) & 0xFFFF) as bv16 == ((reg >> 48) & 0xFFFF) as bv16
    ensures ((SetRegProgModel(reg, value) >> 32) & 0xFFFF) as bv16 == ((reg >> 32) & 0xFFFF) as bv16
    ensures ((SetRegProgModel(reg, value) >> 16) & 0xFFFF) as bv16 == ((reg >> 16) & 0xFFFF) as bv16
  {
  }

  /** `RegProgModel` takes bits 0-15 of register 0x00: its getter returns the low 16 bits of the
      value and the getters of the other three fields of the register are unchanged. */
  lemma RegProgModelLane(regs: Regs, value: bv64)
    requires Complete(regs)
    ensures RegProgModelOf(SetField(regs, RegProgModel, value)) == (value & 0xFFFF) as bv16
    ensures NumIntsPerProcessOf(SetField(regs, RegProgModel, value)) == NumIntsPerProcessOf(regs)
    ensures NumOfProcessOf(SetField(regs, RegProgModel, value)) == NumOfProcessOf(regs)
    ensures NumOfAfuCRsOf(SetField(regs, RegProgModel, value)) == NumOfAfuCRsOf(regs)
  {
    var r := SetField(regs, RegProgModel, value);
    assert r[0] == SetRegProgModel(regs[0], value);
    RegProgModelBits(regs[0], value);
  }

  lemma PerProcessPsaControlBits(reg: bv64, value: bv64)
    ensures ((SetPerProcessPsaControl(reg, value) >> 56) & 0xFF) as bv8 == (value & 0xFF) as bv8
    ensures SetPerProcessPsaControl(reg, value) & Low56 == reg & Low56
  {
  }

  lemma PerProcessPsaLengthBits(reg: bv64, value: bv64)
    ensures SetPerProcessPsaLength(reg, value) & Low56 == value & Low56
    ensures ((SetPerProcessPsaLength(reg, value) >> 56) & 0xFF) as bv8 == ((reg >> 56) & 0xFF) as bv8
  {
  }

  /** The control byte takes bits 56-63 of register 0x30 and leaves the 56-bit length
      alone. */
  lemma PsaControlStored(regs: Regs, value: bv64)
    requires Complete(regs)
    ensures PerProcessPsaControlOf(SetField(regs, PerProcessPsaControl, value)) == (value & 0xFF) as bv8
    ensures PerProcessPsaLengthOf(SetField(regs, PerProcessPsaControl, value)) == PerProcessPsaLengthOf(regs)
  {
    var r := SetField(regs, PerProcessPsaControl, value);
    assert r[6] == SetPerProcessPsaControl(regs[6], value);
    PerProcessPsaControlBits(regs[6], value);
  }

  /** The length takes the low 56 bits of register 0x30 and leaves the control byte alone. */
  lemma PsaLengthStored(regs: Regs, value: bv64)
    requires Complete(regs)
    ensures PerProcessPsaLengthOf(SetField(regs, PerProcessPsaLength, value)) == value & Low56
    ensures PerProcessPsaControlOf(SetField(regs, PerProcessPsaLength, value)) == PerProcessPsaControlOf(regs)
  {
    var r := SetField(regs, PerProcessPsaLength, value);
    assert r[6] == SetPerProcessPsaLength(regs[6], value);
    PerProcessPsaLengthBits(regs[6], value);
  }

  lemma AfuCrLenBits(reg: bv64, value: bv64)
    ensures SetAfuCrLen(reg, value) & Low56 == value & Low56
    ensures SetAfuCrLen(reg, value) >> 56 == reg >> 56
  {
  }

  /** The CR length keeps the low 56 bits of the value and the top byte of register 0x20. */
  lemma AfuCrLenStored(regs: Regs, value: bv64)
    requires Complete(regs)
    ensures AfuCrLenOf(SetField(regs, AfuCrLen, value)) == value & Low56
    ensures SetField(regs, AfuCrLen, value)[4] >> 56 == regs[4] >> 56
  {
    var r := SetField(regs, AfuCrLen, value);
    assert r[4] == SetAfuCrLen(regs[4], value);
    AfuCrLenBits(regs[4], value);
  }

  lemma AfuEbLenBits(value: bv64)
    ensures SetAfuEbLen(value) & Low56 == value & Low56
  {
  }

  /** The three offsets are stored whole and the EB length keeps the low 56 bits. */
  lemma OffsetsAndEbLength(regs: Regs, value: bv64)
    requires Complete(regs)
    ensures AfuCrOffsetOf(SetField(regs, AfuCrOffset, value)) == value
    ensures PerProcessPsaOffsetOf(SetField(regs, PerProcessPsaOffset, value)) == value
    ensures AfuEbOffsetOf(SetField(regs, AfuEbOffset, value)) == value
    ensures AfuEbLenOf(SetField(regs, AfuEbLen, value)) == value & Low56
  {
    var r := SetField(regs, AfuEbLen, value);
    assert r[8] == SetAfuEbLen(value);
    AfuEbLenBits(value);
  }

  // ---------------------------------------------------------------------------
  // Programming model (test/afu/Descriptor.cpp:129-139)
  // ---------------------------------------------------------------------------

  lemma CoveredSetsOr(x: bv16, mask: bv16)
    ensures x & mask == mask ==> x | mask == x
  {
  }

  lemma OrSetsCovered(x: bv16, mask: bv16)
    ensures x | mask == x ==> x & mask == mask
  {
  }

  /** The test both predicates make: every bit of the mask is set in the model, so adding
      the mask to the model changes nothing. */
  predicate Covers(model: bv16, mask: bv16)
    ensures Covers(model, mask) <==> model | mask == model
  {
    CoveredSetsOr(model, mask);
    OrSetsCovered(model, mask);
    model & mask == mask
  }

  /** `is_dedicated`: every bit of the mask is set in the programming model (the low 16
      bits of register 0x00); MASK_IS_DEDICATED is a parameter. */
  predicate IsDedicated(regs: Regs, maskIsDedicated: bv16)
    requires Complete(regs)
    ensures IsDedicated(regs, maskIsDedicated) <==> RegProgModelOf(regs) | maskIsDedicated == RegProgModelOf(regs)
  {
    Covers(RegProgModelOf(regs), maskIsDedicated)
  }

  /** `is_directed` as written: the comparison with the mask gives a bool, which C++ then
      compares with the mask again after widening it to 0 or 1. */
  predicate IsDirectedAsWritten(regs: Regs, maskIsDirected: bv16)
    requires Complete(regs)
    ensures IsDirectedAsWritten(regs, maskIsDirected) <==>
      || (maskIsDirected == 1 && RegProgModelOf(regs) == 1)
      || (maskIsDirected == 0 && RegProgModelOf(regs) != 0)
  {
    (if RegProgModelOf(regs) == maskIsDirected then 1 else 0) == maskIsDirected
  }

  /** `is_directed` checked the way `is_dedicated` is. */
  predicate IsDirected(regs: Regs, maskIsDirected: bv16)
    requires Complete(regs)
    ensures IsDirected(regs, maskIsDirected) <==> RegProgModelOf(regs) | maskIsDirected == RegProgModelOf(regs)
  {
    Covers(RegProgModelOf(regs), maskIsDirected)
  }

  lemma AsWrittenNeverHolds(regs: Regs, maskIsDirected: bv16)
    requires Complete(regs) && maskIsDirected > 1
    ensures !IsDirectedAsWritten(regs, maskIsDirected)
  {
  }

  lemma RegProgModelSetTo(regs: Regs, mask: bv16)
    requires Complete(regs)
    ensures RegProgModelOf(SetField(regs, RegProgModel, mask as bv64)) == mask
  {
  }

  lemma ModelIsDirected(regs: Regs, mask: bv16)
    requires Complete(regs) && RegProgModelOf(regs) == mask
    ensures IsDirected(regs, mask)
  {
  }

  /** For any mask other than 0 and 1 the test as written never holds, even for a
      descriptor whose programming model is exactly the directed mask; the corrected test
      holds for it. */
  lemma {:induction false} IsDirectedAsWrittenNeverHolds(regs: Regs, maskIsDirected: bv16)
    requires Complete(regs) && maskIsDirected > 1
    ensures !IsDirectedAsWritten(regs, maskIsDirected)
    ensures IsDirected(SetField(regs, RegProgModel, maskIsDirected as bv64), maskIsDirected)
  {
    AsWrittenNeverHolds(regs, maskIsDirected);
    RegProgModelSetTo(regs, maskIsDirected);
    ModelIsDirected(SetField(regs, RegProgModel, maskIsDirected as bv64), maskIsDirected);
  }

  // ---------------------------------------------------------------------------
  // The descriptor file (test/afu/Descriptor.cpp:20-104)
  // ---------------------------------------------------------------------------

  /** The characters `operator>>` treats as white space. */
  predicate IsSpace(c: char) {
    c == ' ' || c == '\t' || c == '\n' || c == '\r' || c == '\U{B}' || c == '\U{C}'
  }

  /** The length of the run of non-space characters at the start of `s`. */
  function WordLength(s: string): (n: nat)
    ensures n <= |s| && (forall i :: 0 <= i < n ==> !IsSpace(s[i])) && (n < |s| ==> IsSpace(s[n]))
  {
    if s == [] || IsSpace(s[0]) then 0 else 1 + WordLength(s[1..])
  }

  /** The successive `>> string` extractions of a line: its white-space separated words. */
  function Words(s: string): (r: seq<string>)
    ensures forall w :: w in r ==> w != [] && forall i :: 0 <= i < |w| ==> !IsSpace(w[i])
    decreases |s|
  {
    if s == [] then []
    else if IsSpace(s[0]) then Words(s[1..])
    else
      var n := WordLength(s);
      [s[..n]] + Words(s[n..])
  }

  /** The base of an extraction: 16 under `std::hex`, 10 otherwise. */
  function Base(hex: bool): (b: nat)
    ensures b == 10 || b == 16
  {
    if hex then 16 else 10
  }

  function DigitValue(c: char, hex: bool): (r: Option<nat>)
    ensures r.Some? ==> r.value < Base(hex)
    ensures r.Some? ==> c != 'x' && c != 'X' && c != '+' && c != '-'
  {
    if '0' <= c <= '9' then Some(c as nat - '0' as nat)
    else if hex && 'a' <= c <= 'f' then Some(c as nat - 'a' as nat + 10)
    else if hex && 'A' <= c <= 'F' then Some(c as nat - 'A' as nat + 10)
    else None
  }

  /** The length of the run of digits at the start of `s`. */
  function DigitRun(s: string, hex: bool): (k: nat)
    ensures k <= |s| && forall i :: 0 <= i < k ==> DigitValue(s[i], hex).Some?
    ensures k < |s| ==> DigitValue(s[k], hex).None?
  {
    if s == [] || DigitValue(s[0], hex).None? then 0 else 1 + DigitRun(s[1..], hex)
  }

  function Power(b: nat, k: nat): nat {
    if k == 0 then 1 else b * Power(b, k - 1)
  }

  /** The value of a numeral in positional notation: each digit weighs the base raised to
      the number of digits after it. */
  function Positional(w: string, hex: bool): nat
    requires forall i :: 0 <= i < |w| ==> DigitValue(w[i], hex).Some?
  {
    if w == [] then 0 else DigitValue(w[0], hex).value * Power(Base(hex), |w| - 1) + Positional(w[1..], hex)
  }

  /** The value of the digits at the start of `s`, in base 16 or 10, read from the most
      significant end: `acc` is the value of the digits read so far. */
  function Digits(s: string, hex: bool, acc: nat): (r: nat)
    ensures r >= acc
    decreases |s|
  {
    if s == [] || DigitValue(s[0], hex).None? then acc
    else Digits(s[1..], hex, acc * Base(hex) + DigitValue(s[0], hex).value)
  }

  /** The digits loop computes the positional value of the leading run of digits, on top of
      what it had read before them. */
  lemma {:induction false} DigitsValue(s: string, hex: bool, acc: nat)
    ensures Digits(s, hex, acc) == acc * Power(Base(hex), DigitRun(s, hex)) + Positional(s[..DigitRun(s, hex)], hex)
    decreases |s|
  {
    var k := DigitRun(s, hex);
    if s != [] && DigitValue(s[0], hex).Some? {
      var b, d := Base(hex), DigitValue(s[0], hex).value;
      DigitsValue(s[1..], hex, acc * b + d);
      assert DigitRun(s[1..], hex) == k - 1;
      assert s[..k][1..] == s[1..][..k - 1];
      assert Positional(s[..k], hex) == d * Power(b, k - 1) + Positional(s[1..][..k - 1], hex);
      ShiftIn(acc, b, d, Power(b, k - 1));
    }
  }

  /** Shifting one more digit in before `p` further places. */
  lemma ShiftIn(acc: nat, b: nat, d: nat, p: nat)
    ensures (acc * b + d) * p == acc * (b * p) + d * p
  {
  }

  const MaxWord: nat := 0xFFFF_FFFF_FFFF_FFFF

  /** A number that fits as a 64-bit word. */
  function Word(n: nat): bv64
    requires n <= MaxWord
  {
    n as bv64
  }

  /** `num_get` first accepts one sign character. */
  predicate Negative(s: string) {
    s != [] && s[0] == '-'
  }

  /** What `num_get` reads digits from: the text after an optional sign and, in base 16, an
      optional "0x" or "0X". */
  function Unsigned(s: string, hex: bool): (u: string)
    ensures |u| <= |s|
  {
    var t := if s != [] && (s[0] == '+' || s[0] == '-') then s[1..] else s;
    if hex && |t| >= 2 && t[0] == '0' && (t[1] == 'x' || t[1] == 'X') then t[2..] else t
  }

  function Magnitude(s: string, hex: bool): nat {
    Digits(Unsigned(s, hex), hex, 0)
  }

  /** Extraction of a `uint64_t` by `num_get`: the digits after the optional sign and hex
      prefix; no digit gives 0, a magnitude beyond 64 bits saturates at the largest value
      whatever the sign, and a minus sign negates modulo 2^64. */
  function ReadNumber(s: string, hex: bool): (r: bv64)
    ensures Magnitude(s, hex) > MaxWord ==> r == 0xFFFF_FFFF_FFFF_FFFF
    ensures Magnitude(s, hex) <= MaxWord && !Negative(s) ==> r == Word(Magnitude(s, hex))
    ensures Magnitude(s, hex) <= MaxWord && Negative(s) ==> r + Word(Magnitude(s, hex)) == 0
  {
    var n := Magnitude(s, hex);
    if n > MaxWord then 0xFFFF_FFFF_FFFF_FFFF
    else if Negative(s) then 0 - Word(n)
    else Word(n)
  }

  /** The value of a line: a "0x" prefix selects hexadecimal for the rest, anything else
      is decimal. */
  function ParseValue(sValue: string): bv64 {
    if |sValue| >= 2 && sValue[..2] == "0x" then ReadNumber(sValue[2..], true) else ReadNumber(sValue, false)
  }

  // Numerals, to state what any value parses to

  function DigitChar(d: nat): (c: char)
    requires d < 16
    ensures DigitValue(c, true) == Some(d) && (d < 10 ==> DigitValue(c, false) == Some(d))
  {
    if d < 10 then ('0' as int + d) as char else ('a' as int + d - 10) as char
  }

  /** `n` written in base 16 or 10 without leading zeros, most significant digit first. */
  function Numeral(n: nat, hex: bool): (w: string)
    ensures w != [] && forall i :: 0 <= i < |w| ==> DigitValue(w[i], hex).Some?
    decreases n
  {
    var b := Base(hex);
    if n < b then [DigitChar(n)] else Numeral(n / b, hex) + [DigitChar(n % b)]
  }

  lemma {:induction false} PositionalSnoc(w: string, c: char, hex: bool)
    requires forall i :: 0 <= i < |w| ==> DigitValue(w[i], hex).Some?
    requires DigitValue(c, hex).Some?
    ensures Positional(w + [c], hex) == Positional(w, hex) * Base(hex) + DigitValue(c, hex).value
    decreases |w|
  {
    if w != [] {
      var b, d := Base(hex), DigitValue(w[0], hex).value;
      assert (w + [c])[0] == w[0] && (w + [c])[1..] == w[1..] + [c];
      PositionalSnoc(w[1..], c, hex);
      assert Power(b, |w|) == b * Power(b, |w| - 1);
      ShiftIn(d, Power(b, |w| - 1), Positional(w[1..], hex), b);
    }
  }

  /** A numeral's positional value is the number it was written from. */
  lemma {:induction false} NumeralValue(n: nat, hex: bool)
    ensures Positional(Numeral(n, hex), hex) == n
    decreases n
  {
    var b := Base(hex);
    if n >= b {
      NumeralValue(n / b, hex);
      PositionalSnoc(Numeral(n / b, hex), DigitChar(n % b), hex);
    } else {
      assert Positional([DigitChar(n)][1..], hex) == 0;
    }
  }

  /** The digits loop reads a whole numeral back as its number. */
  lemma NumeralMagnitude(n: nat, hex: bool)
    ensures Digits(Numeral(n, hex), hex, 0) == n
  {
    var w := Numeral(n, hex);
    DigitsValue(w, hex, 0);
    assert DigitRun(w, hex) == |w| && w[..|w|] == w;
    NumeralValue(n, hex);
  }

  /** A numeral starts with a digit, so it carries neither a sign nor a hex prefix. */
  lemma PlainNumeral(w: string, hex: bool)
    requires w != [] && forall i :: 0 <= i < |w| ==> DigitValue(w[i], hex).Some?
    ensures !Negative(w) && Unsigned(w, hex) == w && (|w| >= 2 ==> w[..2] != "0x")
    ensures Negative("-" + w) && Unsigned("-" + w, hex) == w
    ensures !Negative("+" + w) && Unsigned("+" + w, hex) == w
  {
    assert DigitValue(w[0], hex).Some?;
    if |w| >= 2 {
      assert DigitValue(w[1], hex).Some?;
    }
    assert ("-" + w)[1..] == w && ("+" + w)[1..] == w;
  }

  /** A value whose second character is not 'x' is read in base 10. */
  lemma DecimalBranch(v: string)
    requires |v| < 2 || v[1] != 'x'
    ensures ParseValue(v) == ReadNumber(v, false)
  {
    if |v| >= 2 {
      assert v[..2][1] != "0x"[1];
    }
  }

  /** A value after "0x" is read in base 16. */
  lemma HexBranch(u: string)
    ensures ParseValue("0x" + u) == ReadNumber(u, true)
  {
    assert ("0x" + u)[..2] == "0x" && ("0x" + u)[2..] == u;
  }

  /** The extraction reads a numeral, signed or not, as its number. */
  lemma ReadNumeral(n: nat, hex: bool)
    requires n <= MaxWord
    ensures ReadNumber(Numeral(n, hex), hex) == Word(n)
    ensures ReadNumber("+" + Numeral(n, hex), hex) == Word(n)
    ensures ReadNumber("-" + Numeral(n, hex), hex) + Word(n) == 0
  {
    var w := Numeral(n, hex);
    NumeralMagnitude(n, hex);
    PlainNumeral(w, hex);
    assert Magnitude(w, hex) == n;
    assert Magnitude("+" + w, hex) == n;
    assert Magnitude("-" + w, hex) == n;
  }

  /** Every value a register can hold is read back from its decimal numeral, and from
      "0x" followed by its hexadecimal numeral. */
  lemma ParseNumeral(n: nat)
    requires n <= MaxWord
    ensures ParseValue(Numeral(n, false)) == Word(n)
    ensures ParseValue("0x" + Numeral(n, true)) == Word(n)
  {
    var w := Numeral(n, false);
    ReadNumeral(n, false);
    ReadNumeral(n, true);
    if |w| >= 2 {
      assert DigitValue(w[1], false).Some?;
    }
    DecimalBranch(w);
    HexBranch(Numeral(n, true));
  }

  /** A minus sign negates modulo 2^64; a plus sign changes nothing. */
  lemma ParseSigned(n: nat)
    requires n <= MaxWord
    ensures ParseValue("+" + Numeral(n, false)) == Word(n)
    ensures ParseValue("-" + Numeral(n, false)) + Word(n) == 0
  {
    var w := Numeral(n, false);
    ReadNumeral(n, false);
    assert DigitValue(w[0], false).Some?;
    assert ("+" + w)[1] == w[0] && ("-" + w)[1] == w[0];
    DecimalBranch("+" + w);
    DecimalBranch("-" + w);
  }

  /** The sign comes before the digits in base 16 as well. */
  lemma ParseSignedHex(n: nat)
    requires n <= MaxWord
    ensures ParseValue("0x-" + Numeral(n, true)) + Word(n) == 0
  {
    var h := Numeral(n, true);
    ReadNumeral(n, true);
    assert "0x-" + h == "0x" + ("-" + h);
    HexBranch("-" + h);
  }

  /** A number beyond 64 bits reads as the largest value, whatever its sign. */
  lemma ParseSaturates(n: nat)
    requires n > MaxWord
    ensures ParseValue(Numeral(n, false)) == 0xFFFF_FFFF_FFFF_FFFF
    ensures ParseValue("-" + Numeral(n, false)) == 0xFFFF_FFFF_FFFF_FFFF
    ensures ParseValue("0x" + Numeral(n, true)) == 0xFFFF_FFFF_FFFF_FFFF
  {
    var w, h := Numeral(n, false), Numeral(n, true);
    NumeralMagnitude(n, false);
    NumeralMagnitude(n, true);
    PlainNumeral(w, false);
    PlainNumeral(h, true);
    assert DigitValue(w[0], false).Some? && ("-" + w)[1] == w[0];
    if |w| >= 2 {
      assert DigitValue(w[1], false).Some?;
    }
    DecimalBranch(w);
    DecimalBranch("-" + w);
    HexBranch(h);
  }

  /** The three strings the loop extracts into.  They are declared outside the loop, so a
      line with fewer than three words leaves the missing ones as the previous line set
      them. */
  datatype Carry = Carry(field: string, colon: string, sValue: string)

  const NoWords: Carry := Carry("", "", "")

  predicate Skipped(line: string) {
    line == [] || line[0] == '#'
  }

  /** The words a line puts into the three strings: extraction stops at the first word
      that is missing. */
  function Extract(c: Carry, words: seq<string>): (r: Carry)
    ensures |words| >= 3 ==> r == Carry(words[0], words[1], words[2])
    ensures |words| == 0 ==> r == c
  {
    Carry(if |words| >= 1 then words[0] else c.field,
          if |words| >= 2 then words[1] else c.colon,
          if |words| >= 3 then words[2] else c.sValue)
  }

  /** One pass of the loop: skip comments and empty lines, otherwise extract, parse the
      value and assign the named field; an unknown field changes no register. */
  function StepLine(regs: Regs, c: Carry, line: string): (r: (Regs, Carry))
    requires Complete(regs)
    ensures Complete(r.0) && |r.0| == |regs|
    ensures Skipped(line) ==> r == (regs, c)
    ensures !Skipped(line) ==> r.1 == Extract(c, Words(line))
    ensures !Skipped(line) ==> r.0 == match FieldNamed(r.1.field)
      case None => regs
      case Some(f) => SetField(regs, f, ParseValue(r.1.sValue))
  {
    if Skipped(line) then (regs, c)
    else
      var c' := Extract(c, Words(line));
      match FieldNamed(c'.field)
      case None => (regs, c')
      case Some(f) => (SetField(regs, f, ParseValue(c'.sValue)), c')
  }

  /** The loop over all lines of the file. */
  function ParseLines(regs: Regs, c: Carry, lines: seq<string>): (r: (Regs, Carry))
    requires Complete(regs)
    ensures Complete(r.0) && |r.0| == |regs|
    decreases |lines|
  {
    if lines == [] then (regs, c) else var n := StepLine(regs, c, lines[0]); ParseLines(n.0, n.1, lines[1..])
  }

  /** Parsing a file in two pieces is parsing the whole, carrying the three strings across. */
  lemma {:induction false} ParseLinesAppend(regs: Regs, c: Carry, a: seq<string>, b: seq<string>)
    requires Complete(regs)
    ensures var m := ParseLines(regs, c, a); ParseLines(regs, c, a + b) == ParseLines(m.0, m.1, b)
    decreases |a|
  {
    if a == [] {
      assert a + b == b;
    } else {
      assert (a + b)[0] == a[0] && (a + b)[1..] == a[1..] + b;
      var n := StepLine(regs, c, a[0]);
      ParseLinesAppend(n.0, n.1, a[1..], b);
    }
  }

  /** A file whose lines all name no known field, or are comments, leaves every register as
      it was. */
  lemma {:induction false} UnknownFieldsChangeNothing(regs: Regs, c: Carry, lines: seq<string>)
    requires Complete(regs)
    requires forall i :: 0 <= i < |lines| ==> Skipped(lines[i]) || (|Words(lines[i])| >= 3 && FieldNamed(Words(lines[i])[0]).None?)
    ensures ParseLines(regs, c, lines).0 == regs
    decreases |lines|
  {
    if lines != [] {
      var n := StepLine(regs, c, lines[0]);
      assert n.0 == regs;
      UnknownFieldsChangeNothing(regs, n.1, lines[1..]);
    }
  }

  /** "0x10" is read in base 16 and "16" in base 10: both give sixteen. */
  lemma HexValue()
    ensures ParseValue("0x10") == 16
  {
    assert Numeral(16, true) == "10";
    ParseNumeral(16);
  }

  lemma DecimalValue()
    ensures ParseValue("16") == 16
  {
    assert Numeral(16, false) == "16";
    ParseNumeral(16);
  }

  /** `num_get` reads "-1" as the largest word and "+5" as five. */
  lemma SignExamples()
    ensures ParseValue("-1") == 0xFFFF_FFFF_FFFF_FFFF
    ensures ParseValue("+5") == 5
  {
    assert "-1" == "-" + Numeral(1, false) && "+5" == "+" + Numeral(5, false);
    ParseSigned(1);
    ParseSigned(5);
    assert Word(1) == 1 && Word(5) == 5;
  }

  /** Under `std::hex` `num_get` skips a "0x" or "0X" of its own, so a value may carry
      the prefix twice. */
  lemma ParseDoubleHexPrefix(n: nat)
    requires n <= MaxWord
    ensures ParseValue("0x0x" + Numeral(n, true)) == Word(n)
    ensures ParseValue("0x0X" + Numeral(n, true)) == Word(n)
  {
    var h := Numeral(n, true);
    var lower, upper := "0x" + h, "0X" + h;
    assert lower[0] == '0' && lower[1] == 'x' && lower[2..] == h;
    assert upper[0] == '0' && upper[1] == 'X' && upper[2..] == h;
    assert Unsigned(lower, true) == h && Unsigned(upper, true) == h;
    NumeralMagnitude(n, true);
    assert "0x0x" + h == "0x" + lower && "0x0X" + h == "0x" + upper;
    HexBranch(lower);
    HexBranch(upper);
  }

  lemma DoubleHexPrefix()
    ensures ParseValue("0x0x10") == 16
  {
    assert Numeral(16, true) == "10";
    assert "0x0x" + Numeral(16, true) == "0x0x10";
    ParseDoubleHexPrefix(16);
    assert Word(16) == 16;
  }

  /** A line of white space extracts no word. */
  lemma {:induction false} BlankHasNoWords(line: string)
    requires forall i :: 0 <= i < |line| ==> IsSpace(line[i])
    ensures Words(line) == []
    decreases |line|
  {
    if line != [] {
      BlankHasNoWords(line[1..]);
    }
  }

  /** A non-empty line of white space is not skipped, extracts nothing and so assigns the
      field named by the previous line once more, with the previous value. */
  lemma {:induction false} BlankLineRepeatsPrevious(regs: Regs, c: Carry, line: string)
    requires Complete(regs) && line != [] && forall i :: 0 <= i < |line| ==> IsSpace(line[i])
    ensures StepLine(regs, c, line).1 == c
    ensures StepLine(regs, c, line).0 == match FieldNamed(c.field)
      case None => regs
      case Some(f) => SetField(regs, f, ParseValue(c.sValue))
  {
    BlankHasNoWords(line);
    assert !Skipped(line);
  }

  /** `Descriptor`: the register vector, value-initialised to zero, filled by the parser. */
  class Descriptor {
    const regs: array<bv64>

    constructor (numRegs: nat)
      requires numRegs > HighestIndex
      ensures regs.Length == numRegs && forall i :: 0 <= i < numRegs ==> regs[i] == 0
      ensures fresh(regs)
    {
      regs := new bv64[numRegs](_ => 0);
    }

    /** `parse_descriptor_file` over the lines of the file. */
    method ParseDescriptorFile(lines: seq<string>)
      requires Complete(regs[..])
      modifies regs
      ensures regs[..] == ParseLines(old(regs[..]), NoWords, lines).0
    {
      var c := NoWords;
      var i := 0;
      while i < |lines|
        invariant 0 <= i <= |lines|
        invariant Complete(regs[..])
        invariant ParseLines(regs[..], c, lines[i..]) == ParseLines(old(regs[..]), NoWords, lines)
        decreases |lines| - i
      {
        var line := lines[i];
        ghost var before := regs[..];
        assert lines[i..][0] == line && lines[i..][1..] == lines[i + 1..];
        if !(line == [] || line[0] == '#') {
          var words := Words(line);
          if |words| >= 1 { c := c.(field := words[0]); }
          if |words| >= 2 { c := c.(colon := words[1]); }
          if |words| >= 3 { c := c.(sValue := words[2]); }
          var value := ParseValue(c.sValue);
          var f := FieldNamed(c.field);
          if f.Some? {
            var k := RegOf(f.value);
            regs[k] := Insert(f.value, regs[k], value);
            assert regs[..] == SetField(before, f.value, value);
          }
        }
        i := i + 1;
      }
      assert lines[i..] == [];
    }
  }

  datatype Option<T> = None | Some(value: T)
}
