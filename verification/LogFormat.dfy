/** The DHILOG v1 layout: records, their framing, and what makes a list of records a log
    (crates/dh-inputlog/src/dhilog.rs, crates/dh-inputlog/src/reader.rs). */
module LogFormat {
  import opened Common
  import opened Bytes

  const MAX_PAYLOAD: nat := 4096
  const MAX_DEV_EVENT_DATA: nat := 4088
  const MAX_NET_RX_FRAME: nat := 2048

  const KIND_PAD_SET: byte := 0x01
  const KIND_DEV_EVENT: byte := 0x02
  const KIND_NET_RX: byte := 0x03
  const KIND_ENTROPY: byte := 0x40
  const KIND_TIMER_FIRE: byte := 0x41
  const KIND_EPOCH_HASH: byte := 0x42
  const KIND_SDK_EVENT: byte := 0x43
  const KIND_NET_TX: byte := 0x44
  const KIND_FRAME_MARK: byte := 0x45
  const KIND_BISECTION_CHECKPOINT: byte := 0x46
  const KIND_END: byte := 0x7F

  datatype Record = Record(kind: byte, rflags: byte, seqNo: u32, icount: u64, rip: u64, payload: bytes)

  /** Records in file order, the last one outermost. */
  datatype Records = Empty | More(before: Records, last: Record)

  // ---- framing ----------------------------------------------------------------------

  function Head(r: Record): (b: bytes)
    requires |r.payload| <= MAX_PAYLOAD
    ensures |b| == 24
  {
    [r.kind, r.rflags] + U16(|r.payload|) + U32(r.seqNo) + U64(r.icount) + U64(r.rip)
  }

  function FrameLen(payloadLen: nat): (n: nat)
    ensures n >= 24 + payloadLen
  {
    24 + payloadLen + PadLen(payloadLen)
  }

  /** One record: head, payload, zeros up to the next multiple of eight. */
  function Frame(r: Record): (b: bytes)
    requires |r.payload| <= MAX_PAYLOAD
    ensures |b| == FrameLen(|r.payload|)
  {
    Head(r) + r.payload + Zeros(PadLen(|r.payload|))
  }

  predicate Framable(rs: Records)
  {
    match rs
    case Empty => true
    case More(before, r) => Framable(before) && |r.payload| <= MAX_PAYLOAD
  }

  function Body(rs: Records): bytes
    requires Framable(rs)
  {
    match rs
    case Empty => []
    case More(before, r) => Body(before) + Frame(r)
  }

  function Count(rs: Records): nat
  {
    match rs
    case Empty => 0
    case More(before, _) => Count(before) + 1
  }

  lemma HeadParts(r: Record)
    requires |r.payload| <= MAX_PAYLOAD
    ensures var b := Head(r);
            && b[0] == r.kind && b[1] == r.rflags && b[2..4] == U16(|r.payload|) && b[4..8] == U32(r.seqNo)
            && b[8..16] == U64(r.icount) && b[16..24] == U64(r.rip)
  {}

  lemma FrameParts(r: Record)
    requires |r.payload| <= MAX_PAYLOAD
    ensures var b, n := Frame(r), |r.payload|;
            b[..24] == Head(r) && b[24..24 + n] == r.payload && b[24 + n..FrameLen(n)] == Zeros(PadLen(n))
  {}

  lemma HeadInjective(r: Record, s: Record)
    requires |r.payload| <= MAX_PAYLOAD && |s.payload| <= MAX_PAYLOAD && Head(r) == Head(s)
    ensures |r.payload| == |s.payload| && s == r.(payload := s.payload)
  {
    HeadParts(r);
    HeadParts(s);
    U16RoundTrip(|r.payload|); U16RoundTrip(|s.payload|);
    U32RoundTrip(r.seqNo); U32RoundTrip(s.seqNo);
    U64RoundTrip(r.icount); U64RoundTrip(s.icount);
    U64RoundTrip(r.rip); U64RoundTrip(s.rip);
  }

  // ---- kinds -------------------------------------------------------------------------

  predicate IsCanonicalKind(kind: byte)
  {
    kind == KIND_PAD_SET || kind == KIND_DEV_EVENT || kind == KIND_NET_RX
  }

  predicate IsAuxKind(kind: byte)
  {
    KIND_ENTROPY <= kind <= KIND_BISECTION_CHECKPOINT || kind == KIND_END
  }

  /** The payload layout of a known kind. */
  predicate LayoutOk(kind: byte, payload: bytes, icount: u64)
  {
    if kind == KIND_PAD_SET then |payload| == 12
    else if kind == KIND_DEV_EVENT then |payload| >= 8 && GetU32(payload[4..8]) == |payload| - 8
    else if kind == KIND_NET_RX then 1 <= |payload| <= MAX_NET_RX_FRAME
    else if kind == KIND_ENTROPY || kind == KIND_SDK_EVENT || kind == KIND_NET_TX then |payload| == 16
    else if kind == KIND_TIMER_FIRE then |payload| == 20
    else if kind == KIND_EPOCH_HASH || kind == KIND_END then |payload| == 40
    else if kind == KIND_FRAME_MARK then |payload| == 8
    else
      |payload| == 56 && GetU16(payload[0..2]) == 1 && GetU16(payload[2..4]) == 0 && GetU64(payload[40..48]) == icount
  }

  /** A record that a reader accepts by itself: known kinds have their class and layout, and unknown ones
      are auxiliary. */
  predicate RecordOk(r: Record)
  {
    && |r.payload| <= MAX_PAYLOAD && r.rflags <= 1
    && (IsCanonicalKind(r.kind) ==> r.rflags == 0)
    && (!IsCanonicalKind(r.kind) ==> r.rflags == 1)
    && (IsCanonicalKind(r.kind) || IsAuxKind(r.kind) ==> LayoutOk(r.kind, r.payload, r.icount))
  }

  /** A record that may follow `before`. */
  predicate Follows(before: Records, r: Record)
  {
    RecordOk(r) && r.seqNo == Count(before) && (before.More? ==> before.last.icount <= r.icount)
  }

  predicate WellFormed(rs: Records)
  {
    match rs
    case Empty => true
    case More(before, r) => WellFormed(before) && Follows(before, r)
  }

  predicate HasKind(rs: Records, kind: byte)
  {
    match rs
    case Empty => false
    case More(before, r) => r.kind == kind || HasKind(before, kind)
  }

  /** Auxiliary records other than END. */
  predicate HasAux(rs: Records)
  {
    match rs
    case Empty => false
    case More(before, r) => (r.rflags == 1 && r.kind != KIND_END) || HasAux(before)
  }

  // ---- prefixes -----------------------------------------------------------------------

  predicate IsPrefix(p: Records, rs: Records)
  {
    p == rs || (rs.More? && IsPrefix(p, rs.before))
  }

  lemma {:induction false} PrefixBody(p: Records, rs: Records)
    requires Framable(rs) && IsPrefix(p, rs)
    ensures Framable(p) && Body(p) <= Body(rs) && (p != rs ==> |Body(p)| < |Body(rs)|)
  {
    if p != rs { PrefixBody(p, rs.before); }
  }

  /** After a proper prefix of a body comes the frame of the next record. */
  lemma {:induction false} NextFrame(p: Records, rs: Records) returns (r: Record)
    requires Framable(rs) && IsPrefix(p, rs) && p != rs
    ensures Framable(p) && |r.payload| <= MAX_PAYLOAD && IsPrefix(More(p, r), rs) && Body(p) + Frame(r) <= Body(rs)
  {
    if p == rs.before {
      r := rs.last;
    } else {
      r := NextFrame(p, rs.before);
      PrefixBody(rs.before, rs);
    }
  }

  /** A frame at the start of bytes determines its record. */
  lemma FrameInjective(r: Record, s: Record, b: bytes)
    requires |r.payload| <= MAX_PAYLOAD && |s.payload| <= MAX_PAYLOAD && Frame(r) <= b && Frame(s) <= b
    ensures r == s
  {
    assert b[..24] == Head(r) && b[..24] == Head(s);
    HeadInjective(r, s);
    var n := |r.payload|;
    assert Frame(r)[24..24 + n] == r.payload && Frame(s)[24..24 + n] == s.payload;
    assert b[24..24 + n] == Frame(r)[24..24 + n] && b[24..24 + n] == Frame(s)[24..24 + n];
  }

  /** Framing is unambiguous: bodies determine their records. */
  lemma {:induction false} BodyInjective(a: Records, b: Records, p: Records)
    requires Framable(a) && Framable(b) && Body(a) == Body(b) && IsPrefix(p, a) && IsPrefix(p, b)
    ensures a == b
    decreases Count(a) - Count(p)
  {
    PrefixBody(p, a);
    PrefixBody(p, b);
    if p != a {
      var r := NextFrame(p, a);
      var s := NextFrame(p, b);
      SameTail(Body(p), Frame(r), Frame(s), Body(a));
      FrameInjective(r, s, Body(a)[|Body(p)|..]);
      PrefixCount(More(p, r), a);
      BodyInjective(a, b, More(p, r));
    }
  }

  lemma SameTail(p: bytes, x: bytes, y: bytes, b: bytes)
    requires p + x <= b && p + y <= b
    ensures x <= b[|p|..] && y <= b[|p|..]
  {
    assert (p + x)[|p|..] == x && (p + y)[|p|..] == y;
  }

  lemma {:induction false} PrefixCount(p: Records, rs: Records)
    requires IsPrefix(p, rs)
    ensures Count(p) <= Count(rs)
  {
    if p != rs { PrefixCount(p, rs.before); }
  }

  /** Framed bytes at the start of a body are records at the start of its log. */
  lemma {:induction false} PrefixOf(p: Records, rs: Records)
    requires Framable(p) && Framable(rs) && Body(p) <= Body(rs)
    ensures IsPrefix(p, rs)
  {
    match p
    case Empty => EmptyPrefix(rs);
    case More(before, r) =>
      PrefixOf(before, rs);
      PrefixBody(before, rs);
      var s := NextFrame(before, rs);
      SameTail(Body(before), Frame(r), Frame(s), Body(rs));
      FrameInjective(r, s, Body(rs)[|Body(before)|..]);
  }

  lemma {:induction false} EmptyPrefix(rs: Records)
    ensures IsPrefix(Empty, rs)
  {
    if rs.More? { EmptyPrefix(rs.before); }
  }

  lemma {:induction false} PrefixWellFormed(p: Records, rs: Records)
    requires WellFormed(rs) && IsPrefix(p, rs)
    ensures WellFormed(p)
  {
    if p != rs { PrefixWellFormed(p, rs.before); }
  }

  lemma {:induction false} PrefixKinds(p: Records, rs: Records, kind: byte)
    requires IsPrefix(p, rs) && HasKind(p, kind)
    ensures HasKind(rs, kind)
  {
    if p != rs { PrefixKinds(p, rs.before, kind); }
  }
}
