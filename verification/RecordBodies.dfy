/** The typed payloads of DHILOG records (crates/dh-inputlog/src/dhilog.rs, crates/dh-inputlog/src/reader.rs). */
module RecordBodies {
  import opened Common
  import opened Bytes
  import opened LogFormat

  datatype RecordBody =
    | PadSet(port: byte, buttons: u32, frameHint: u32)
    | DevEvent(deviceId: u16, eventType: u16, data: bytes)
    | NetRx(frame: bytes)
    | Entropy(len: u32, digest8: u64)
    | TimerFire(vector: byte, deadline: u64, delivered: u64)
    | EpochHash(epoch: u64, chain: Digest)
    | SdkEvent(stream: u16, len: u32, digest8: u64)
    | NetTx(len: u32, digest8: u64)
    | FrameMark(frameIndex: u32)
    | BisectionCheckpoint(version: u16, flags: u16, gap: u32, snapshot: Digest, checkpointIcount: u64, vns: u64)
    | End(stopReason: byte, endStateHash: Digest)
    | Unknown(kind: byte, payload: bytes)

  function KindOf(body: RecordBody): byte
  {
    match body
    case PadSet(_, _, _) => KIND_PAD_SET
    case DevEvent(_, _, _) => KIND_DEV_EVENT
    case NetRx(_) => KIND_NET_RX
    case Entropy(_, _) => KIND_ENTROPY
    case TimerFire(_, _, _) => KIND_TIMER_FIRE
    case EpochHash(_, _) => KIND_EPOCH_HASH
    case SdkEvent(_, _, _) => KIND_SDK_EVENT
    case NetTx(_, _) => KIND_NET_TX
    case FrameMark(_) => KIND_FRAME_MARK
    case BisectionCheckpoint(_, _, _, _, _, _) => KIND_BISECTION_CHECKPOINT
    case End(_, _) => KIND_END
    case Unknown(kind, _) => kind
  }

  function AuxOf(body: RecordBody): byte
  {
    if body.PadSet? || body.DevEvent? || body.NetRx? then 0 else 1
  }

  /** The payload as the writer lays it out; unused bytes are zero. */
  function PayloadOf(body: RecordBody): bytes
    requires body.DevEvent? ==> |body.data| <= U32_MAX
  {
    match body
    case PadSet(port, buttons, hint) => [port] + Zeros(3) + U32(buttons) + U32(hint)
    case DevEvent(device, event, data) => U16(device) + U16(event) + U32(|data|) + data
    case NetRx(frame) => frame
    case Entropy(len, digest8) => U32(len) + Zeros(4) + U64(digest8)
    case TimerFire(vector, deadline, delivered) => [vector] + Zeros(3) + U64(deadline) + U64(delivered)
    case EpochHash(epoch, chain) => U64(epoch) + chain
    case SdkEvent(stream, len, digest8) => U16(stream) + Zeros(2) + U32(len) + U64(digest8)
    case NetTx(len, digest8) => U32(len) + Zeros(4) + U64(digest8)
    case FrameMark(frame) => U32(frame) + Zeros(4)
    case BisectionCheckpoint(version, flags, gap, snapshot, icount, vns) =>
      U16(version) + U16(flags) + U32(gap) + snapshot + U64(icount) + U64(vns)
    case End(reason, hash) => [reason] + Zeros(7) + hash
    case Unknown(_, payload) => payload
  }

  /** `Record::body`; every slice is within a payload that was accepted. */
  function BodyOf(r: Record): RecordBody
    requires RecordOk(r)
  {
    var p := r.payload;
    if r.kind == KIND_PAD_SET then PadSet(p[0], GetU32(p[4..8]), GetU32(p[8..12]))
    else if r.kind == KIND_DEV_EVENT then DevEvent(GetU16(p[0..2]), GetU16(p[2..4]), p[8..])
    else if r.kind == KIND_NET_RX then NetRx(p)
    else if r.kind == KIND_ENTROPY then Entropy(GetU32(p[0..4]), GetU64(p[8..16]))
    else if r.kind == KIND_TIMER_FIRE then TimerFire(p[0], GetU64(p[4..12]), GetU64(p[12..20]))
    else if r.kind == KIND_EPOCH_HASH then EpochHash(GetU64(p[0..8]), p[8..40])
    else if r.kind == KIND_SDK_EVENT then SdkEvent(GetU16(p[0..2]), GetU32(p[4..8]), GetU64(p[8..16]))
    else if r.kind == KIND_NET_TX then NetTx(GetU32(p[0..4]), GetU64(p[8..16]))
    else if r.kind == KIND_FRAME_MARK then FrameMark(GetU32(p[0..4]))
    else if r.kind == KIND_BISECTION_CHECKPOINT then
      BisectionCheckpoint(GetU16(p[0..2]), GetU16(p[2..4]), GetU32(p[4..8]), p[8..40], GetU64(p[40..48]),
                          GetU64(p[48..56]))
    else if r.kind == KIND_END then End(p[0], p[8..40])
    else Unknown(r.kind, p)
  }

  /** The bodies a writer can put at `icount`. */
  predicate Writable(body: RecordBody, icount: u64)
  {
    match body
    case DevEvent(_, _, data) => |data| <= MAX_DEV_EVENT_DATA
    case NetRx(frame) => 1 <= |frame| <= MAX_NET_RX_FRAME
    case BisectionCheckpoint(version, flags, _, _, at, _) => version == 1 && flags == 0 && at == icount
    case Unknown(_, _) => false
    case _ => true
  }

  function RecordFor(body: RecordBody, seqNo: u32, icount: u64, rip: u64): Record
    requires Writable(body, icount)
  {
    Record(KindOf(body), AuxOf(body), seqNo, icount, rip, PayloadOf(body))
  }

  // ---- round trips, layout by layout --------------------------------------------------

  /** The record made of a body is accepted and reads back as that body. */
  predicate ReadsBack(body: RecordBody, seqNo: u32, icount: u64, rip: u64)
    requires Writable(body, icount)
  {
    var r := RecordFor(body, seqNo, icount, rip);
    RecordOk(r) && BodyOf(r) == body
  }

  lemma PadSetReads(body: RecordBody, seqNo: u32, icount: u64, rip: u64)
    requires body.PadSet?
    ensures ReadsBack(body, seqNo, icount, rip)
  {
    var p := PayloadOf(body);
    assert p[0] == body.port && p[4..8] == U32(body.buttons) && p[8..12] == U32(body.frameHint);
    U32RoundTrip(body.buttons);
    U32RoundTrip(body.frameHint);
  }

  lemma DevEventReads(body: RecordBody, seqNo: u32, icount: u64, rip: u64)
    requires body.DevEvent? && Writable(body, icount)
    ensures ReadsBack(body, seqNo, icount, rip)
  {
    var p := PayloadOf(body);
    assert p[0..2] == U16(body.deviceId) && p[2..4] == U16(body.eventType) && p[4..8] == U32(|body.data|)
           && p[8..] == body.data;
    U16RoundTrip(body.deviceId);
    U16RoundTrip(body.eventType);
    U32RoundTrip(|body.data|);
  }

  lemma LenDigestReads(body: RecordBody, seqNo: u32, icount: u64, rip: u64)
    requires body.Entropy? || body.NetTx?
    ensures ReadsBack(body, seqNo, icount, rip)
  {
    var p := PayloadOf(body);
    assert p[0..4] == U32(body.len) && p[8..16] == U64(body.digest8);
    U32RoundTrip(body.len);
    U64RoundTrip(body.digest8);
  }

  lemma TimerFireReads(body: RecordBody, seqNo: u32, icount: u64, rip: u64)
    requires body.TimerFire?
    ensures ReadsBack(body, seqNo, icount, rip)
  {
    var p := PayloadOf(body);
    assert p[0] == body.vector && p[4..12] == U64(body.deadline) && p[12..20] == U64(body.delivered);
    U64RoundTrip(body.deadline);
    U64RoundTrip(body.delivered);
  }

  lemma EpochHashReads(body: RecordBody, seqNo: u32, icount: u64, rip: u64)
    requires body.EpochHash?
    ensures ReadsBack(body, seqNo, icount, rip)
  {
    var p := PayloadOf(body);
    assert p[0..8] == U64(body.epoch) && p[8..40] == body.chain;
    U64RoundTrip(body.epoch);
  }

  lemma SdkEventReads(body: RecordBody, seqNo: u32, icount: u64, rip: u64)
    requires body.SdkEvent?
    ensures ReadsBack(body, seqNo, icount, rip)
  {
    var p := PayloadOf(body);
    assert p[0..2] == U16(body.stream) && p[4..8] == U32(body.len) && p[8..16] == U64(body.digest8);
    U16RoundTrip(body.stream);
    U32RoundTrip(body.len);
    U64RoundTrip(body.digest8);
  }

  lemma FrameMarkReads(body: RecordBody, seqNo: u32, icount: u64, rip: u64)
    requires body.FrameMark?
    ensures ReadsBack(body, seqNo, icount, rip)
  {
    assert PayloadOf(body)[0..4] == U32(body.frameIndex);
    U32RoundTrip(body.frameIndex);
  }

  lemma CheckpointReads(body: RecordBody, seqNo: u32, icount: u64, rip: u64)
    requires body.BisectionCheckpoint? && Writable(body, icount)
    ensures ReadsBack(body, seqNo, icount, rip)
  {
    var p := PayloadOf(body);
    assert p[0..2] == U16(body.version) && p[2..4] == U16(body.flags) && p[4..8] == U32(body.gap);
    assert p[8..40] == body.snapshot && p[40..48] == U64(body.checkpointIcount) && p[48..56] == U64(body.vns);
    U16RoundTrip(body.version);
    U16RoundTrip(body.flags);
    U32RoundTrip(body.gap);
    U64RoundTrip(body.checkpointIcount);
    U64RoundTrip(body.vns);
  }

  lemma EndReads(body: RecordBody, seqNo: u32, icount: u64, rip: u64)
    requires body.End?
    ensures ReadsBack(body, seqNo, icount, rip) && AllZero(PayloadOf(body)[1..8])
  {
    var p := PayloadOf(body);
    assert p[0] == body.stopReason && p[8..40] == body.endStateHash;
  }

  /** What a writer puts into a record is accepted, and reads back as the body it was made from. */
  lemma BodyRoundTrip(body: RecordBody, seqNo: u32, icount: u64, rip: u64)
    requires Writable(body, icount)
    ensures ReadsBack(body, seqNo, icount, rip) == true  // proved as one fact
  {
    match body
    case PadSet(_, _, _) => PadSetReads(body, seqNo, icount, rip);
    case DevEvent(_, _, _) => DevEventReads(body, seqNo, icount, rip);
    case NetRx(_) => NetRxReads(body, seqNo, icount, rip);
    case Entropy(_, _) => LenDigestReads(body, seqNo, icount, rip);
    case TimerFire(_, _, _) => TimerFireReads(body, seqNo, icount, rip);
    case EpochHash(_, _) => EpochHashReads(body, seqNo, icount, rip);
    case SdkEvent(_, _, _) => SdkEventReads(body, seqNo, icount, rip);
    case NetTx(_, _) => LenDigestReads(body, seqNo, icount, rip);
    case FrameMark(_) => FrameMarkReads(body, seqNo, icount, rip);
    case BisectionCheckpoint(_, _, _, _, _, _) => CheckpointReads(body, seqNo, icount, rip);
    case End(_, _) => EndReads(body, seqNo, icount, rip);
  }

  lemma NetRxReads(body: RecordBody, seqNo: u32, icount: u64, rip: u64)
    requires body.NetRx? && Writable(body, icount)
    ensures ReadsBack(body, seqNo, icount, rip)
  {}
}
