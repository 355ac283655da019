/** AFU addressing in libcxl: a 16-bit bitmap with four adapters ("major")
    of four AFUs ("minor") each, the most significant nibble being adapter 0
    and, inside a nibble, the most significant bit being AFU 0. */
module AfuPosition {
  import opened Wire

  /** The single bitmap bit with index `k` counted from the most significant end
      (0x8000 >> k, tabulated). */
  function Bit(k: nat): (p: bv16)
    requires k < 16
    ensures p != 0 && p & (p - 1) == 0
  {
    if k == 0 then 0x8000 else if k == 1 then 0x4000 else if k == 2 then 0x2000 else if k == 3 then 0x1000
    else if k == 4 then 0x0800 else if k == 5 then 0x0400 else if k == 6 then 0x0200 else if k == 7 then 0x0100
    else if k == 8 then 0x0080 else if k == 9 then 0x0040 else if k == 10 then 0x0020 else if k == 11 then 0x0010
    else if k == 12 then 0x0008 else if k == 13 then 0x0004 else if k == 14 then 0x0002 else 0x0001
  }

  /** The `k` most significant bits of the bitmap, i.e. every bit with an index below `k`. */
  function Above(k: nat): (m: bv16)
    requires k < 16
    ensures m & Bit(k) == 0
  {
    if k == 0 then 0x0000 else if k == 1 then 0x8000 else if k == 2 then 0xC000 else if k == 3 then 0xE000
    else if k == 4 then 0xF000 else if k == 5 then 0xF800 else if k == 6 then 0xFC00 else if k == 7 then 0xFE00
    else if k == 8 then 0xFF00 else if k == 9 then 0xFF80 else if k == 10 then 0xFFC0 else if k == 11 then 0xFFE0
    else if k == 12 then 0xFFF0 else if k == 13 then 0xFFF8 else if k == 14 then 0xFFFC else 0xFFFE
  }

  /** The nibble of adapter `major`. */
  function AdapterNibble(major: nat): bv16
    requires major < 4
  {
    if major == 0 then 0xF000 else if major == 1 then 0x0F00 else if major == 2 then 0x00F0 else 0x000F
  }

  /** `x >> n` for a uint16 spelled out one position at a time. */
  function ShiftRight(x: bv16, n: nat): bv16
    decreases n
  {
    if n == 0 then x else ShiftRight(x >> 1, n - 1)
  }

  lemma {:induction false} ShiftBit(k: nat, n: nat)
    requires k < 16
    ensures ShiftRight(Bit(k), n) == if k + n < 16 then Bit(k + n) else 0
    decreases n
  {
    if n > 0 {
      var next := Bit(k) >> 1;
      assert ShiftRight(Bit(k), n) == ShiftRight(next, n - 1);
      if k == 15 {
        assert next == 0;
        ShiftZero(n - 1);
      } else {
        BitStep(k);
        ShiftBit(k + 1, n - 1);
        assert next == Bit(k + 1);
        assert k + 1 + (n - 1) == k + n;
      }
    }
  }

  lemma {:induction false} ShiftZero(n: nat)
    ensures ShiftRight(0, n) == 0
    decreases n
  {
    if n > 0 {
      ShiftZero(n - 1);
    }
  }

  /** Moving one bit down the bitmap. */
  lemma BitStep(k: nat)
    requires k < 15
    ensures Bit(k) >> 1 == Bit(k + 1)
    ensures Above(k + 1) == Above(k) | Bit(k)
  {
    if k < 8 {
      if k < 4 { } else { }
    } else {
      if k < 12 { } else { }
    }
  }

  /** `position = 0x8000; position >>= 4*major; position >>= minor` (uint16 arithmetic). */
  function Position(major: nat, minor: nat): (p: bv16)
    ensures p == 0 <==> 4 * major + minor >= 16
    ensures p != 0 ==> p == Bit(4 * major + minor)
  {
    ShiftTwice(4 * major, minor);
    ShiftRight(ShiftRight(0x8000, 4 * major), minor)
  }

  lemma ShiftTwice(a: nat, b: nat)
    ensures ShiftRight(ShiftRight(0x8000, a), b) == if a + b < 16 then Bit(a + b) else 0
  {
    ShiftBit(0, a);
    if a < 16 {
      ShiftBit(a, b);
    } else {
      ShiftZero(b);
    }
  }

  /** Distinct (major, minor) pairs of the 4x4 grid occupy distinct bits. */
  lemma PositionInjective(m1: nat, n1: nat, m2: nat, n2: nat)
    requires m1 < 4 && n1 < 4 && m2 < 4 && n2 < 4
    requires Position(m1, n1) == Position(m2, n2)
    ensures m1 == m2 && n1 == n2
  {
    var j, k := 4 * m1 + n1, 4 * m2 + n2;
    assert Bit(j) == Bit(k);
    assert Bit(j) & Bit(k) != 0;
    BitInjective(j, k);
  }

  lemma BitInjective(j: nat, k: nat)
    requires j < 16 && k < 16 && Bit(j) & Bit(k) != 0
    ensures j == k
  {
    if j < 8 {
      if j < 4 { } else { }
    } else {
      if j < 12 { } else { }
    }
  }

  /** `afu->dbg_id = (major << 4) | minor`, stored in one byte. */
  function DebugId(major: nat, minor: nat): (id: Byte)
    requires major < 16 && minor < 16
    ensures id >> 4 == major as bv8 && id & 0xF == minor as bv8
  {
    ((major as bv8) << 4) | (minor as bv8)
  }

  /** Bit `k` is the most significant bit set in `position`. */
  predicate HighestBit(position: bv16, k: nat)
    requires k < 16
  {
    position & Bit(k) != 0 && position & Above(k) == 0
  }

  /** `_new_afu` recovers (major, minor) from a position by two scans: first the
      adapter nibble holding the highest set bit, then the highest set bit inside
      that nibble.  A zero position fails with ENODEV (None). */
  method DecodePosition(position: bv16) returns (r: Option<(nat, nat)>)
    ensures r.None? <==> position == 0
    ensures r.Some? ==> r.value.0 < 4 && r.value.1 < 4
    ensures r.Some? ==> HighestBit(position, 4 * r.value.0 + r.value.1)
  {
    if position == 0 {
      return None;
    }
    var major, afuMask := ScanAdapters(position);
    var minor := ScanAfus(position, major, afuMask);
    return Some((major, minor));
  }

  /** What the adapter scan knows: it looks at nibble `major`, nothing is set above it,
      and the AFU mask sits on the nibble's first bit. */
  predicate AdapterScan(position: bv16, major: nat, adapterMask: bv16, afuMask: bv16) {
    major < 4 && adapterMask == AdapterNibble(major) && afuMask == Bit(4 * major)
    && position & Above(4 * major) == 0
  }

  /** The first scan: shift both masks down by a nibble until the adapter mask meets the position. */
  method ScanAdapters(position: bv16) returns (major: nat, afuMask: bv16)
    requires position != 0
    ensures major < 4 && AdapterScan(position, major, AdapterNibble(major), afuMask)
    ensures position & AdapterNibble(major) != 0
  {
    var adapterMask: bv16, mask: bv16, m := 0xF000, 0x8000, 0;
    while position & adapterMask == 0
      invariant AdapterScan(position, m, adapterMask, mask)
      decreases 4 - m
    {
      MajorStep(position, m, adapterMask, mask);
      adapterMask := adapterMask >> 4;
      mask := mask >> 4;
      m := m + 1;
    }
    major, afuMask := m, mask;
  }

  /** What the AFU scan knows: it looks at bit `minor` of nibble `major`, and nothing is set above it. */
  predicate AfuScan(position: bv16, major: nat, minor: nat, afuMask: bv16) {
    major < 4 && minor < 4 && afuMask == Bit(4 * major + minor)
    && position & Above(4 * major + minor) == 0
  }

  /** The second scan: shift the AFU mask down one bit at a time inside the adapter nibble. */
  method ScanAfus(position: bv16, major: nat, mask: bv16) returns (minor: nat)
    requires major < 4 && AdapterScan(position, major, AdapterNibble(major), mask)
    requires position & AdapterNibble(major) != 0
    ensures minor < 4 && HighestBit(position, 4 * major + minor)
  {
    var afuMask := mask;
    var m := 0;
    while position & afuMask == 0
      invariant AfuScan(position, major, m, afuMask)
      decreases 4 - m
    {
      NibbleStep(position, major, m, afuMask);
      afuMask := afuMask >> 1;
      m := m + 1;
    }
    ScanDone(position, major, m, afuMask);
    minor := m;
  }

  lemma ScanDone(position: bv16, major: nat, minor: nat, afuMask: bv16)
    requires AfuScan(position, major, minor, afuMask) && position & afuMask != 0
    ensures minor < 4 && HighestBit(position, 4 * major + minor)
  {
  }

  /** Inside nibble `major`, a clear bit at `minor` with nothing set above it
      means some lower bit of the nibble is set, so the scan stays inside the nibble. */
  lemma NibbleStep(position: bv16, major: nat, minor: nat, afuMask: bv16)
    requires AfuScan(position, major, minor, afuMask)
    requires position & AdapterNibble(major) != 0
    requires position & afuMask == 0
    ensures AfuScan(position, major, minor + 1, afuMask >> 1)
  {
    NibbleCover(major);
    BitStep(4 * major + minor);
  }

  /** A nibble lies within its last bit and the bits above that. */
  lemma NibbleCover(major: nat)
    requires major < 4
    ensures AdapterNibble(major) & (Above(4 * major + 3) | Bit(4 * major + 3)) == AdapterNibble(major)
  {
    if major < 2 {
      if major == 0 { } else { }
    } else {
      if major == 2 { } else { }
    }
  }

  /** An empty adapter nibble with nothing set above it: the scan moves to the next nibble,
      which exists because the position is not zero. */
  lemma MajorStep(position: bv16, major: nat, adapterMask: bv16, afuMask: bv16)
    requires position != 0 && AdapterScan(position, major, adapterMask, afuMask)
    requires position & adapterMask == 0
    ensures AdapterScan(position, major + 1, adapterMask >> 4, afuMask >> 4)
  {
    if major < 2 {
      if major == 0 { } else { }
    } else {
      if major == 2 { } else { }
    }
  }

  /** The position found by `_new_afu` for a bit set by `_pslse_open` is that bit's (major, minor). */
  method DecodeOfPosition(major: nat, minor: nat) returns (r: Option<(nat, nat)>)
    requires major < 4 && minor < 4
    ensures r == Some((major, minor))
  {
    r := DecodePosition(Position(major, minor));
    var k := 4 * r.value.0 + r.value.1;
    assert Bit(4 * major + minor) & Bit(k) != 0;
    OnlyBit(4 * major + minor, k);
    PositionInjective(major, minor, r.value.0, r.value.1);
  }

  lemma OnlyBit(j: nat, k: nat)
    requires j < 16 && k < 16 && Bit(j) & Bit(k) != 0
    ensures Bit(j) == Bit(k)
  {
  }

  /** `_pslse_open`: the AFU must be present in the bitmap the emulator announced,
      then `_new_afu` recovers (major, minor) from the position and derives the debug id.
      None is the ENODEV failure of either function. */
  datatype AfuIdent = AfuIdent(major: nat, minor: nat, position: bv16, dbgId: Byte)

  method OpenPosition(afuMap: bv16, major: nat, minor: nat) returns (r: Option<AfuIdent>)
    requires major < 4 && minor < 4
    ensures r.Some? <==> afuMap & Position(major, minor) != 0
    ensures r.Some? ==> r.value == AfuIdent(major, minor, Position(major, minor), DebugId(major, minor))
  {
    var position := Position(major, minor);
    if afuMap & position != position {
      return None;
    }
    var decoded := DecodeOfPosition(major, minor);
    var (maj, min) := decoded.value;
    return Some(AfuIdent(maj, min, position, DebugId(maj, min)));
  }

  // ---------------------------------------------------------------------------
  // cxl_afu_open_dev: "/dev/cxl/afuM.Nt" -> (major M, minor N, type t)
  // ---------------------------------------------------------------------------

  /** Reading character `i` of a NUL-terminated C string: the terminator sits at index |s|,
      anything beyond it is out of bounds. */
  datatype CChar = Char(c: char) | OutOfBounds

  function CharAt(s: string, i: nat): (r: CChar)
    ensures i < |s| ==> r == Char(s[i])
    ensures i == |s| ==> r == Char('\0')
    ensures r.OutOfBounds? <==> i > |s|
  {
    if i < |s| then Char(s[i]) else if i == |s| then Char('\0') else OutOfBounds
  }

  /** Everything after the last '/', as `strrchr(path, '/') + 1` yields; None when there is no '/'. */
  function AfterLastSlash(path: string): (r: Option<string>)
    ensures r.None? <==> '/' !in path
    ensures r.Some? ==> '/' !in r.value && |r.value| < |path|
    ensures r.Some? ==> path[|path| - |r.value| - 1] == '/' && path[|path| - |r.value|..] == r.value
    decreases |path|
  {
    if |path| == 0 then None
    else if path[|path| - 1] == '/' then Some([])
    else match AfterLastSlash(path[..|path| - 1]) {
      case None => None
      case Some(tail) => Some(tail + [path[|path| - 1]])
    }
  }

  datatype DevName =
    | Undefined              // no '/' in the path, or a read past the terminator
    | NoDevice               // ENODEV: major or minor digit outside '0'..'3'
    | Dev(major: nat, minor: nat, afuType: char)

  predicate IsGridDigit(c: CChar) {
    c.Char? && '0' <= c.c <= '3'
  }

  function ParseDevName(path: string): (r: DevName)
    ensures r.Dev? ==> r.major < 4 && r.minor < 4
    ensures r.Dev? <==>
      AfterLastSlash(path).Some? && |AfterLastSlash(path).value| >= 6
      && '0' <= AfterLastSlash(path).value[3] <= '3' && '0' <= AfterLastSlash(path).value[5] <= '3'
    ensures r.Dev? ==>
      var id := AfterLastSlash(path).value;
      r.major == (id[3] as int) - ('0' as int) && r.minor == (id[5] as int) - ('0' as int)
      && r.afuType == (if |id| == 6 then '\0' else id[6])
  {
    match AfterLastSlash(path) {
      case None => Undefined
      case Some(id) =>
        var c3 := CharAt(id, 3);
        if c3.OutOfBounds? then Undefined
        else if !IsGridDigit(c3) then NoDevice
        else
          var c5 := CharAt(id, 5);
          if c5.OutOfBounds? then Undefined
          else if !IsGridDigit(c5) then NoDevice
          else
            var c6 := CharAt(id, 6);
            Dev((c3.c as int) - ('0' as int), (c5.c as int) - ('0' as int), c6.c)
    }
  }
}
