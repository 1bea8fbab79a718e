/** The canonical encoding of a machine configuration (crates/dh-vmm/src/config.rs). The reader's cursor is
    the list of bytes still to read. */
module MachineConfig {
  import opened Common
  import opened Bytes
  import opened VirtualTime
  import Cmdline

  const CONFIG_VERSION: u32 := 1
  const MEM_ALIGN: nat := 0x20_0000
  const DEFAULT_SKID_MARGIN: u32 := 8192
  const DEFAULT_RESYNC_SLACK: u32 := 1024
  const MAX_CPUID_LEAVES: nat := 4096
  const MAX_DEVICES: nat := 256
  const MAGIC: bytes := [0x44, 0x48, 0x4D, 0x43, 0x46, 0x47, 0, 0]

  datatype CpuidLeaf = CpuidLeaf(function_: u32, index: u32, flags: u32, eax: u32, ebx: u32, ecx: u32, edx: u32)

  datatype BootSpec =
    | Elf(kernel: Digest, cmdline: bytes)
    | BzImage(kernel: Digest, initramfs: Digest, cmdline: bytes)

  /** The fixed-size start of a configuration. */
  datatype Head = Head(version: u32, memBytes: u64, vcpus: u32, clock: ClockRatio, image: Digest)

  datatype Config = Config(
    head: Head, boot: BootSpec, epochLen: u64, epochsOn: bool,
    skidMargin: u32, resyncSlack: u32, cpuid: seq<CpuidLeaf>, devices: seq<u16>)

  datatype ConfigError =
    | UnsupportedVersion | MemNotAligned | VcpusNotOne | ZeroEpochLen | CmdlineTooLong
    | BadCmdline(why: Cmdline.CmdlineError)
    | CpuidTableTooLarge | DeviceSetTooLarge | CpuidTableUnsorted | DeviceSetUnsorted

  datatype DecodeError =
    | BadMagic | Truncated | TrailingBytes(trailing: nat) | BadBootTag(found: byte) | BadHashEpochs(found: byte)
    | ZeroClockTerm | LengthTooLarge(len: nat) | InvalidConfig(error: ConfigError)

  // ---- validity ------------------------------------------------------------------------

  function Text(b: bytes): string
  {
    seq(|b|, i requires 0 <= i < |b| => b[i] as char)
  }

  predicate LeafBefore(a: CpuidLeaf, b: CpuidLeaf)
  {
    a.function_ < b.function_ || (a.function_ == b.function_ && a.index < b.index)
  }

  /** `validate` */
  function Validate(c: Config): Option<ConfigError>
  {
    if c.head.version != CONFIG_VERSION then Some(UnsupportedVersion)
    else if c.head.memBytes == 0 || c.head.memBytes % MEM_ALIGN != 0 then Some(MemNotAligned)
    else if c.head.vcpus != 1 then Some(VcpusNotOne)
    else if c.epochLen == 0 then Some(ZeroEpochLen)
    else if |c.boot.cmdline| > Cmdline.MAX_CMDLINE then Some(CmdlineTooLong)
    else if c.boot.BzImage? && Cmdline.ExtrasFromCanonical(Text(c.boot.cmdline)).Err? then
      Some(BadCmdline(Cmdline.ExtrasFromCanonical(Text(c.boot.cmdline)).error))
    else if |c.cpuid| > MAX_CPUID_LEAVES then Some(CpuidTableTooLarge)
    else if |c.devices| > MAX_DEVICES then Some(DeviceSetTooLarge)
    else if exists i :: 0 <= i < |c.cpuid| - 1 && !LeafBefore(c.cpuid[i], c.cpuid[i + 1]) then Some(CpuidTableUnsorted)
    else if exists i :: 0 <= i < |c.devices| - 1 && c.devices[i] >= c.devices[i + 1] then Some(DeviceSetUnsorted)
    else None
  }

  /** The lengths fit their fields; `Validate` sees to it. */
  predicate Sized(c: Config)
  {
    |c.boot.cmdline| <= Cmdline.MAX_CMDLINE && |c.cpuid| <= MAX_CPUID_LEAVES && |c.devices| <= MAX_DEVICES
  }

  function WithDefaults(c: Config): Config
  {
    c.(skidMargin := DEFAULT_SKID_MARGIN, resyncSlack := DEFAULT_RESYNC_SLACK)
  }

  // ---- encoding ------------------------------------------------------------------------

  function HeadBytes(h: Head): (b: bytes)
    ensures |b| == 64
  {
    MAGIC + U32(h.version) + U64(h.memBytes) + U32(h.vcpus) + U32(h.clock.num) + U32(h.clock.den) + h.image
  }

  function LineBytes(line: bytes): bytes
    requires |line| <= Cmdline.MAX_CMDLINE
  {
    U32(|line|) + line
  }

  function BootBytes(boot: BootSpec): bytes
    requires |boot.cmdline| <= Cmdline.MAX_CMDLINE
  {
    match boot
    case Elf(kernel, cmdline) => [1] + kernel + LineBytes(cmdline)
    case BzImage(kernel, initramfs, cmdline) => [2] + (kernel + initramfs) + LineBytes(cmdline)
  }

  function EpochBytes(epochLen: u64, on: bool): (b: bytes)
    ensures |b| == 9
  {
    U64(epochLen) + [if on then 1 else 2]
  }

  function LeafBytes(l: CpuidLeaf): (b: bytes)
    ensures |b| == 28
  {
    U32(l.function_) + U32(l.index) + U32(l.flags) + U32(l.eax) + U32(l.ebx) + U32(l.ecx) + U32(l.edx)
  }

  function LeavesBytes(ls: seq<CpuidLeaf>): bytes
  {
    if |ls| == 0 then [] else LeafBytes(ls[0]) + LeavesBytes(ls[1..])
  }

  function DevicesBytes(ds: seq<u16>): bytes
  {
    if |ds| == 0 then [] else U16(ds[0]) + DevicesBytes(ds[1..])
  }

  function Encode(c: Config): bytes
    requires Sized(c)
  {
    HeadBytes(c.head) + (BootBytes(c.boot) + (EpochBytes(c.epochLen, c.epochsOn)
      + (U32(|c.cpuid|) + (LeavesBytes(c.cpuid) + (U32(|c.devices|) + DevicesBytes(c.devices))))))
  }

  /** `canonical_encode`: an invalid configuration has no canonical form. */
  function CanonicalEncode(c: Config): Result<bytes, ConfigError>
  {
    match Validate(c) case Some(e) => Err(e) case None => Ok(Encode(c))
  }

  // ---- decoding ------------------------------------------------------------------------

  datatype Read<T> = Read(value: T, rest: bytes)

  function ReadHead(b: bytes): Result<Read<Head>, DecodeError>
  {
    if |b| < 8 then Err(Truncated)
    else if b[..8] != MAGIC then Err(BadMagic)
    else if |b| < 32 then Err(Truncated)
    else
      var num, den := GetU32(b[24..28]), GetU32(b[28..32]);
      if num == 0 || den == 0 then Err(ZeroClockTerm)
      else if |b| < 64 then Err(Truncated)
      else Ok(Read(Head(GetU32(b[8..12]), GetU64(b[12..20]), GetU32(b[20..24]), Ratio(num, den), b[32..64]), b[64..]))
  }

  function ReadLine(b: bytes): Result<Read<bytes>, DecodeError>
  {
    if |b| < 4 then Err(Truncated)
    else
      var n := GetU32(b[..4]);
      if n > Cmdline.MAX_CMDLINE then Err(LengthTooLarge(n))
      else if |b| < 4 + n then Err(Truncated)
      else Ok(Read(b[4..4 + n], b[4 + n..]))
  }

  function ReadBoot(b: bytes): Result<Read<BootSpec>, DecodeError>
  {
    if |b| < 1 then Err(Truncated)
    else if b[0] != 1 && b[0] != 2 then Err(BadBootTag(b[0]))
    else if |b| < (if b[0] == 1 then 33 else 65) then Err(Truncated)
    else match ReadLine(b[if b[0] == 1 then 33 else 65..])
         case Err(e) => Err(e)
         case Ok(line) =>
           if b[0] == 1 then Ok(Read(Elf(b[1..33], line.value), line.rest))
           else Ok(Read(BzImage(b[1..33], b[33..65], line.value), line.rest))
  }

  function ReadEpochs(b: bytes): Result<Read<(u64, bool)>, DecodeError>
  {
    if |b| < 9 then Err(Truncated)
    else if b[8] != 1 && b[8] != 2 then Err(BadHashEpochs(b[8]))
    else Ok(Read((GetU64(b[..8]), b[8] == 1), b[9..]))
  }

  function ReadCount(b: bytes): Result<Read<u32>, DecodeError>
  {
    if |b| < 4 then Err(Truncated) else Ok(Read(GetU32(b[..4]), b[4..]))
  }

  function LeafAt(b: bytes): CpuidLeaf
    requires |b| >= 28
  {
    CpuidLeaf(GetU32(b[0..4]), GetU32(b[4..8]), GetU32(b[8..12]), GetU32(b[12..16]), GetU32(b[16..20]),
              GetU32(b[20..24]), GetU32(b[24..28]))
  }

  function ReadLeaves(b: bytes, n: nat): Result<Read<seq<CpuidLeaf>>, DecodeError>
    decreases n
  {
    if n == 0 then Ok(Read([], b))
    else if |b| < 28 then Err(Truncated)
    else match ReadLeaves(b[28..], n - 1)
         case Err(e) => Err(e)
         case Ok(more) => Ok(Read([LeafAt(b)] + more.value, more.rest))
  }

  function ReadDevices(b: bytes, n: nat): Result<Read<seq<u16>>, DecodeError>
    decreases n
  {
    if n == 0 then Ok(Read([], b))
    else if |b| < 2 then Err(Truncated)
    else match ReadDevices(b[2..], n - 1)
         case Err(e) => Err(e)
         case Ok(more) => Ok(Read([GetU16(b[..2])] + more.value, more.rest))
  }

  // ---- each reader accepts exactly what its writer writes -------------------------------------

  lemma Front(a: bytes, rest: bytes)
    ensures (a + rest)[..|a|] == a && (a + rest)[|a|..] == rest
  {}

  lemma CountExact(b: bytes, n: u32, rest: bytes)
    ensures ReadCount(b) == Ok(Read(n, rest)) <==> b == U32(n) + rest
  {
    Front(U32(n), rest);
    U32RoundTrip(n);
    if |b| >= 4 { assert b == b[..4] + b[4..]; }
  }

  lemma LineExact(b: bytes, line: bytes, rest: bytes)
    ensures ReadLine(b) == Ok(Read(line, rest)) <==> |line| <= Cmdline.MAX_CMDLINE && b == LineBytes(line) + rest
  {
    if |line| <= Cmdline.MAX_CMDLINE && b == LineBytes(line) + rest {
      U32RoundTrip(|line|);
      assert b[..4] == U32(|line|) && b[4..4 + |line|] == line && b[4 + |line|..] == rest;
    }
    if ReadLine(b) == Ok(Read(line, rest)) {
      var n := GetU32(b[..4]);
      assert b == b[..4] + b[4..4 + n] + b[4 + n..];
    }
  }

  lemma EpochsExact(b: bytes, len: u64, on: bool, rest: bytes)
    ensures ReadEpochs(b) == Ok(Read((len, on), rest)) <==> b == EpochBytes(len, on) + rest
  {
    if b == EpochBytes(len, on) + rest {
      U64RoundTrip(len);
      assert b[..8] == U64(len) && b[8] == (if on then 1 else 2) && b[9..] == rest;
    }
    if ReadEpochs(b) == Ok(Read((len, on), rest)) {
      assert b == b[..8] + [b[8]] + b[9..];
    }
  }

  lemma HeadParts(h: Head, rest: bytes)
    ensures var b := HeadBytes(h) + rest;
            && b[..8] == MAGIC && b[8..12] == U32(h.version) && b[12..20] == U64(h.memBytes)
               && b[20..24] == U32(h.vcpus)
            && b[24..28] == U32(h.clock.num) && b[28..32] == U32(h.clock.den) && b[32..64] == h.image && b[64..] == rest
  {}

  lemma HeadExact(b: bytes, h: Head, rest: bytes)
    ensures ReadHead(b) == Ok(Read(h, rest)) <==> b == HeadBytes(h) + rest
  {
    if b == HeadBytes(h) + rest {
      HeadParts(h, rest);
      U32RoundTrip(h.version); U64RoundTrip(h.memBytes); U32RoundTrip(h.vcpus);
      U32RoundTrip(h.clock.num); U32RoundTrip(h.clock.den);
    }
    if ReadHead(b) == Ok(Read(h, rest)) {
      assert b == b[..8] + b[8..12] + b[12..20] + b[20..24] + b[24..28] + b[28..32] + b[32..64] + b[64..];
    }
  }

  lemma BootParts(tag: byte, k: bytes, line: bytes, rest: bytes)
    ensures var b := [tag] + k + line + rest; b[0] == tag && b[1..1 + |k|] == k && b[1 + |k|..] == line + rest
  {}

  lemma TwoHashes(b: bytes, kernel: Digest, initramfs: Digest)
    requires |b| >= 65 && b[1..65] == kernel + initramfs
    ensures b[1..33] == kernel && b[33..65] == initramfs
  {
    assert b[1..33] == b[1..65][..32] && b[33..65] == b[1..65][32..];
  }

  lemma ElfReads(kernel: Digest, line: bytes, rest: bytes)
    requires |line| <= Cmdline.MAX_CMDLINE
    ensures ReadBoot(BootBytes(Elf(kernel, line)) + rest) == Ok(Read(Elf(kernel, line), rest))
  {
    BootParts(1, kernel, LineBytes(line), rest);
    LineExact(LineBytes(line) + rest, line, rest);
  }

  lemma BzImageReads(kernel: Digest, initramfs: Digest, line: bytes, rest: bytes)
    requires |line| <= Cmdline.MAX_CMDLINE
    ensures var boot := BzImage(kernel, initramfs, line); ReadBoot(BootBytes(boot) + rest) == Ok(Read(boot, rest))
  {
    BootParts(2, kernel + initramfs, LineBytes(line), rest);
    TwoHashes([2] + (kernel + initramfs) + LineBytes(line) + rest, kernel, initramfs);
    LineExact(LineBytes(line) + rest, line, rest);
  }

  lemma BootBack(b: bytes)
    requires ReadBoot(b).Ok?
    ensures var r := ReadBoot(b).value; |r.value.cmdline| <= Cmdline.MAX_CMDLINE && b == BootBytes(r.value) + r.rest
  {
    var r := ReadBoot(b).value;
    var at := if b[0] == 1 then 33 else 65;
    LineExact(b[at..], r.value.cmdline, r.rest);
    TagHashLine(b, at, LineBytes(r.value.cmdline), r.rest);
    if b[0] != 1 { assert b[1..65] == b[1..33] + b[33..65]; }
  }

  lemma TagHashLine(b: bytes, at: nat, line: bytes, rest: bytes)
    requires 1 <= at <= |b| && b[at..] == line + rest
    ensures b == [b[0]] + b[1..at] + line + rest
  {
    assert b == [b[0]] + b[1..at] + b[at..];
  }

  lemma BootExact(b: bytes, boot: BootSpec, rest: bytes)
    ensures ReadBoot(b) == Ok(Read(boot, rest)) <==>
              |boot.cmdline| <= Cmdline.MAX_CMDLINE && b == BootBytes(boot) + rest
  {
    if |boot.cmdline| <= Cmdline.MAX_CMDLINE {
      match boot
      case Elf(kernel, line) => ElfReads(kernel, line, rest);
      case BzImage(kernel, initramfs, line) => BzImageReads(kernel, initramfs, line, rest);
    }
    if ReadBoot(b).Ok? { BootBack(b); }
  }

  lemma LeafReads(l: CpuidLeaf, rest: bytes)
    ensures LeafAt(LeafBytes(l) + rest) == l
  {
    var b := LeafBytes(l) + rest;
    assert b[0..4] == U32(l.function_) && b[4..8] == U32(l.index) && b[8..12] == U32(l.flags)
           && b[12..16] == U32(l.eax);
    assert b[16..20] == U32(l.ebx) && b[20..24] == U32(l.ecx) && b[24..28] == U32(l.edx);
    U32RoundTrip(l.function_); U32RoundTrip(l.index); U32RoundTrip(l.flags); U32RoundTrip(l.eax);
    U32RoundTrip(l.ebx); U32RoundTrip(l.ecx); U32RoundTrip(l.edx);
  }

  lemma LeafBack(b: bytes)
    requires |b| >= 28
    ensures b[..28] == LeafBytes(LeafAt(b))
  {
    assert b[..28] == b[0..4] + b[4..8] + b[8..12] + b[12..16] + b[16..20] + b[20..24] + b[24..28];
  }

  lemma {:induction false} LeavesRead(ls: seq<CpuidLeaf>, rest: bytes)
    ensures ReadLeaves(LeavesBytes(ls) + rest, |ls|) == Ok(Read(ls, rest))
  {
    if |ls| == 0 {
      assert [] + rest == rest;
    } else {
      Joined(LeafBytes(ls[0]), LeavesBytes(ls[1..]), rest);
      LeafReads(ls[0], LeavesBytes(ls[1..]) + rest);
      LeavesRead(ls[1..], rest);
      assert ls == [ls[0]] + ls[1..];
    }
  }

  lemma {:induction false} LeavesBack(b: bytes, n: nat)
    requires ReadLeaves(b, n).Ok?
    ensures var r := ReadLeaves(b, n).value; |r.value| == n && b == LeavesBytes(r.value) + r.rest
    decreases n
  {
    if n > 0 {
      LeavesBack(b[28..], n - 1);
      var more := ReadLeaves(b[28..], n - 1).value;
      LeafBack(b);
      Joined(b[..28], LeavesBytes(more.value), more.rest);
      FirstLeaf(LeafAt(b), more.value);
      assert b == b[..28] + b[28..];
    }
  }

  lemma FirstLeaf(l: CpuidLeaf, ls: seq<CpuidLeaf>)
    ensures LeavesBytes([l] + ls) == LeafBytes(l) + LeavesBytes(ls)
  {
    assert ([l] + ls)[1..] == ls;
  }

  lemma LeavesExact(b: bytes, n: nat, ls: seq<CpuidLeaf>, rest: bytes)
    ensures ReadLeaves(b, n) == Ok(Read(ls, rest)) <==> |ls| == n && b == LeavesBytes(ls) + rest
  {
    LeavesRead(ls, rest);
    if ReadLeaves(b, n).Ok? { LeavesBack(b, n); }
  }

  lemma Joined(a: bytes, b: bytes, c: bytes)
    ensures (a + b) + c == a + (b + c) && ((a + b) + c)[..|a|] == a && ((a + b) + c)[|a|..] == b + c
  {}

  lemma {:induction false} DevicesExact(b: bytes, n: nat, ds: seq<u16>, rest: bytes)
    ensures ReadDevices(b, n) == Ok(Read(ds, rest)) <==> |ds| == n && b == DevicesBytes(ds) + rest
    decreases n
  {
    if n == 0 {
      assert ds == [] ==> DevicesBytes(ds) + rest == rest;
    } else {
      if |ds| == n && b == DevicesBytes(ds) + rest {
        Joined(U16(ds[0]), DevicesBytes(ds[1..]), rest);
        U16RoundTrip(ds[0]);
        DevicesExact(b[2..], n - 1, ds[1..], rest);
        assert ds == [ds[0]] + ds[1..];
      }
      if ReadDevices(b, n) == Ok(Read(ds, rest)) {
        DevicesExact(b[2..], n - 1, ds[1..], rest);
        Joined(b[..2], DevicesBytes(ds[1..]), rest);
        assert b == b[..2] + b[2..];
      }
    }
  }

  // ---- the whole ---------------------------------------------------------------------------

  /** The two tables that end an encoding. */
  datatype Tables = Tables(cpuid: seq<CpuidLeaf>, devices: seq<u16>)

  function TableBytes(t: Tables): bytes
    requires |t.cpuid| <= MAX_CPUID_LEAVES && |t.devices| <= MAX_DEVICES
  {
    U32(|t.cpuid|) + (LeavesBytes(t.cpuid) + (U32(|t.devices|) + DevicesBytes(t.devices)))
  }

  function DecodeTables(b: bytes): Result<Tables, DecodeError>
  {
    match ReadCount(b)
    case Err(e) => Err(e)
    case Ok(n) =>
      if n.value > MAX_CPUID_LEAVES then Err(InvalidConfig(CpuidTableTooLarge))
      else match ReadLeaves(n.rest, n.value)
           case Err(e) => Err(e)
           case Ok(leaves) =>
             match ReadCount(leaves.rest)
             case Err(e) => Err(e)
             case Ok(m) =>
               if m.value > MAX_DEVICES then Err(InvalidConfig(DeviceSetTooLarge))
               else match ReadDevices(m.rest, m.value)
                    case Err(e) => Err(e)
                    case Ok(devices) =>
                      if |devices.rest| > 0 then Err(TrailingBytes(|devices.rest|))
                      else Ok(Tables(leaves.value, devices.value))
  }

  /** `canonical_decode` */
  function Decode(b: bytes): Result<Config, DecodeError>
  {
    match ReadHead(b)
    case Err(e) => Err(e)
    case Ok(head) =>
      match ReadBoot(head.rest)
      case Err(e) => Err(e)
      case Ok(boot) =>
        match ReadEpochs(boot.rest)
        case Err(e) => Err(e)
        case Ok(epochs) =>
          match DecodeTables(epochs.rest)
          case Err(e) => Err(e)
          case Ok(t) =>
            var c := Config(head.value, boot.value, epochs.value.0, epochs.value.1, DEFAULT_SKID_MARGIN,
                            DEFAULT_RESYNC_SLACK, t.cpuid, t.devices);
            match Validate(c) case Some(e) => Err(InvalidConfig(e)) case None => Ok(c)
  }

  lemma TablesComplete(t: Tables)
    requires |t.cpuid| <= MAX_CPUID_LEAVES && |t.devices| <= MAX_DEVICES
    ensures DecodeTables(TableBytes(t)) == Ok(t)
  {
    var b3 := DevicesBytes(t.devices);
    var b2 := U32(|t.devices|) + b3;
    var b1 := LeavesBytes(t.cpuid) + b2;
    CountExact(U32(|t.cpuid|) + b1, |t.cpuid|, b1);
    LeavesExact(b1, |t.cpuid|, t.cpuid, b2);
    CountExact(b2, |t.devices|, b3);
    DevicesExact(b3, |t.devices|, t.devices, []);
    assert b3 + [] == b3;
  }

  lemma TablesSound(b: bytes)
    requires DecodeTables(b).Ok?
    ensures var t := DecodeTables(b).value;
            |t.cpuid| <= MAX_CPUID_LEAVES && |t.devices| <= MAX_DEVICES && b == TableBytes(t)
  {
    var t := DecodeTables(b).value;
    var n := ReadCount(b).value;
    var leaves := ReadLeaves(n.rest, n.value).value;
    var m := ReadCount(leaves.rest).value;
    CountExact(b, n.value, n.rest);
    LeavesExact(n.rest, n.value, leaves.value, leaves.rest);
    CountExact(leaves.rest, m.value, m.rest);
    DevicesExact(m.rest, m.value, t.devices, []);
    assert DevicesBytes(t.devices) + [] == DevicesBytes(t.devices);
  }

  lemma ValidIsSized(c: Config)
    requires Validate(c).None?
    ensures Sized(c)
  {}

  /** Decoding an encoding gives the configuration back, with the landing margins at their defaults. */
  lemma DecodeEncode(c: Config)
    requires CanonicalEncode(c).Ok?
    ensures Sized(c) && CanonicalEncode(c) == Ok(Encode(c)) && Decode(Encode(c)) == Ok(WithDefaults(c))
  {
    ValidIsSized(c);
    var t := Tables(c.cpuid, c.devices);
    var b2 := EpochBytes(c.epochLen, c.epochsOn) + TableBytes(t);
    var b1 := BootBytes(c.boot) + b2;
    HeadExact(Encode(c), c.head, b1);
    BootExact(b1, c.boot, b2);
    EpochsExact(b2, c.epochLen, c.epochsOn, TableBytes(t));
    TablesComplete(t);
    SameVerdict(c);
  }

  /** The margins have no part in validity or in the encoding. */
  lemma SameVerdict(c: Config)
    ensures Validate(WithDefaults(c)) == Validate(c)
  {}

  /** Whatever decodes is the encoding of what it decodes to. */
  lemma EncodeDecode(b: bytes)
    requires Decode(b).Ok?
    ensures var c := Decode(b).value; Validate(c).None? && c == WithDefaults(c) && Sized(c) && Encode(c) == b
  {
    var head := ReadHead(b).value;
    var boot := ReadBoot(head.rest).value;
    var epochs := ReadEpochs(boot.rest).value;
    HeadExact(b, head.value, head.rest);
    BootExact(head.rest, boot.value, boot.rest);
    EpochsExact(boot.rest, epochs.value.0, epochs.value.1, epochs.rest);
    TablesSound(epochs.rest);
    ValidIsSized(Decode(b).value);
  }

  /** Two valid configurations have the same encoding exactly if they differ in their margins only. */
  lemma SameEncoding(c: Config, d: Config)
    requires Validate(c).None? && Validate(d).None?
    ensures Sized(c) && Sized(d) && (Encode(c) == Encode(d) <==> WithDefaults(c) == WithDefaults(d))
  {
    DecodeEncode(c);
    DecodeEncode(d);
    if WithDefaults(c) == WithDefaults(d) {
      assert Encode(c) == Encode(WithDefaults(c)) && Encode(d) == Encode(WithDefaults(d));
    }
  }
}
