/** The 256-byte DHILOG header (crates/dh-inputlog/src/dhilog.rs, crates/dh-inputlog/src/reader.rs). */
module LogHeader {
  import opened Common
  import opened Bytes

  const HEADER_LEN: nat := 256
  const MAGIC: bytes := [0x44, 0x48, 0x49, 0x4C, 0x4F, 0x47]

  datatype Header = Header(
    version: u16, flags: u32,
    baseSnapshot: Digest, endSnapshot: Digest, entropySeed: Digest, configHash: Digest,
    clockNum: u32, clockDen: u32, recordCount: u64, endIcount: u64, endVns: u64,
    endStateHash: Digest, bodyHash: Digest, fingerprint: u64)

  // The three flag bits: sealed, has auxiliary records, has epoch hashes.

  predicate Sealed(flags: u32) { flags % 2 == 1 }
  predicate AuxFlag(flags: u32) { flags / 2 % 2 == 1 }
  predicate EpochFlag(flags: u32) { flags / 4 % 2 == 1 }

  function FlagsFor(aux: bool, epochs: bool): (f: u32)
    ensures f <= 7 && Sealed(f) && AuxFlag(f) == aux && EpochFlag(f) == epochs
  {
    1 + (if aux then 2 else 0) + (if epochs then 4 else 0)
  }

  // ---- the layout, in five runs of fields -------------------------------------------

  function Preamble(h: Header): (b: bytes)
    ensures |b| == 16
  {
    MAGIC + U16(h.version) + U32(256) + U32(h.flags)
  }

  function Identities(h: Header): (b: bytes)
    ensures |b| == 128
  {
    h.baseSnapshot + h.endSnapshot + h.entropySeed + h.configHash
  }

  function Extent(h: Header): (b: bytes)
    ensures |b| == 32
  {
    U32(h.clockNum) + U32(h.clockDen) + U64(h.recordCount) + U64(h.endIcount) + U64(h.endVns)
  }

  function Hashes(h: Header): (b: bytes)
    ensures |b| == 64
  {
    h.endStateHash + h.bodyHash
  }

  function Trailer(h: Header): (b: bytes)
    ensures |b| == 16
  {
    U64(h.fingerprint) + Zeros(8)
  }

  function HeaderBytes(h: Header): (b: bytes)
    ensures |b| == HEADER_LEN
  {
    Preamble(h) + Identities(h) + Extent(h) + Hashes(h) + Trailer(h)
  }

  /** The fields at their places, whatever the bytes between them hold. */
  function HeaderAt(b: bytes): Header
    requires |b| >= HEADER_LEN
  {
    var p, i, e, s, t := b[..16], b[16..144], b[144..176], b[176..240], b[240..256];
    Header(GetU16(p[6..8]), GetU32(p[12..16]),
           i[0..32], i[32..64], i[64..96], i[96..128],
           GetU32(e[0..4]), GetU32(e[4..8]), GetU64(e[8..16]), GetU64(e[16..24]), GetU64(e[24..32]),
           s[0..32], s[32..64], GetU64(t[0..8]))
  }

  lemma HeaderRuns(h: Header, t: bytes)
    ensures var b := HeaderBytes(h) + t;
            b[..16] == Preamble(h) && b[16..144] == Identities(h) && b[144..176] == Extent(h)
            && b[176..240] == Hashes(h) && b[240..256] == Trailer(h)
  {}

  lemma PreambleParts(h: Header)
    ensures var p := Preamble(h);
            p[0..6] == MAGIC && p[6..8] == U16(h.version) && p[8..12] == U32(256) && p[12..16] == U32(h.flags)
  {}

  lemma IdentitiesParts(h: Header)
    ensures var i := Identities(h);
            i[0..32] == h.baseSnapshot && i[32..64] == h.endSnapshot && i[64..96] == h.entropySeed
            && i[96..128] == h.configHash
  {}

  lemma ExtentParts(h: Header)
    ensures var e := Extent(h);
            && e[0..4] == U32(h.clockNum) && e[4..8] == U32(h.clockDen) && e[8..16] == U64(h.recordCount)
            && e[16..24] == U64(h.endIcount) && e[24..32] == U64(h.endVns)
  {}

  lemma TrailerParts(h: Header)
    ensures Trailer(h)[0..8] == U64(h.fingerprint) && Trailer(h)[8..16] == Zeros(8)
  {}

  /** Reading the header back. */
  lemma HeaderReads(h: Header, t: bytes)
    ensures HeaderAt(HeaderBytes(h) + t) == h
  {
    HeaderRuns(h, t);
    PreambleParts(h);
    IdentitiesParts(h);
    ExtentParts(h);
    TrailerParts(h);
    assert Hashes(h)[0..32] == h.endStateHash && Hashes(h)[32..64] == h.bodyHash;
    U16RoundTrip(h.version);
    U32RoundTrip(h.flags); U32RoundTrip(h.clockNum); U32RoundTrip(h.clockDen);
    U64RoundTrip(h.recordCount); U64RoundTrip(h.endIcount); U64RoundTrip(h.endVns); U64RoundTrip(h.fingerprint);
  }

  /** The bytes that no field covers are as the layout has them. */
  predicate Shaped(b: bytes)
    requires |b| >= HEADER_LEN
  {
    b[0..6] == MAGIC && b[8..12] == U32(256) && b[248..256] == Zeros(8)
  }

  lemma PreambleBack(b: bytes)
    requires |b| >= HEADER_LEN && Shaped(b)
    ensures b[..16] == Preamble(HeaderAt(b))
  {
    var p := b[..16];
    assert p[0..6] == b[0..6] && p[8..12] == b[8..12];
    assert p == p[0..6] + p[6..8] + p[8..12] + p[12..16];
  }

  lemma MiddleBack(b: bytes)
    requires |b| >= HEADER_LEN
    ensures b[16..144] == Identities(HeaderAt(b)) && b[176..240] == Hashes(HeaderAt(b))
  {
    var i, s := b[16..144], b[176..240];
    assert i == i[0..32] + i[32..64] + i[64..96] + i[96..128];
    assert s == s[0..32] + s[32..64];
  }

  lemma ExtentBack(b: bytes)
    requires |b| >= HEADER_LEN
    ensures b[144..176] == Extent(HeaderAt(b))
  {
    var e := b[144..176];
    assert e == e[0..4] + e[4..8] + e[8..16] + e[16..24] + e[24..32];
  }

  lemma TrailerBack(b: bytes)
    requires |b| >= HEADER_LEN && Shaped(b)
    ensures b[240..256] == Trailer(HeaderAt(b))
  {
    var t := b[240..256];
    assert t[8..16] == b[248..256];
    assert t == t[0..8] + t[8..16];
  }

  /** A shaped header is the layout of the fields it holds. */
  lemma HeaderBack(b: bytes)
    requires |b| >= HEADER_LEN && Shaped(b)
    ensures b[..256] == HeaderBytes(HeaderAt(b))
  {
    PreambleBack(b);
    MiddleBack(b);
    ExtentBack(b);
    TrailerBack(b);
    assert b[..256] == b[..16] + b[16..144] + b[144..176] + b[176..240] + b[240..256];
  }

  lemma HeaderIsShaped(h: Header, t: bytes)
    ensures Shaped(HeaderBytes(h) + t)
  {
    var b := HeaderBytes(h) + t;
    HeaderRuns(h, t);
    PreambleParts(h);
    TrailerParts(h);
    assert b[0..6] == b[..16][0..6] && b[8..12] == b[..16][8..12] && b[248..256] == b[240..256][8..16];
  }
}
