/** The validating DHILOG reader: total on any bytes, accepting exactly the images of well-formed logs
    (crates/dh-inputlog/src/reader.rs). */
module LogReader {
  import opened Common
  import opened Bytes
  import opened LogFormat
  import opened LogHeader

  datatype ReadError =
    | TooShort
    | BadMagic
    | UnsupportedVersion(version: u16)
    | BadHeaderLen(headerLen: u32)
    | UnknownHeaderFlags(headerFlags: u32)
    | NotSealed
    | ReservedNonzero
    | BodyHashMismatch
    | Truncated(seqNo: u32)
    | PayloadTooLong(seqNo: u32)
    | SeqMismatch(expected: u32, found: u32)
    | IcountRegressed(seqNo: u32)
    | UnknownRecordFlags(rflags: byte, seqNo: u32)
    | UnknownCanonicalKind(kind: byte, seqNo: u32)
    | KindAuxMismatch(kind: byte, seqNo: u32)
    | BadPayloadLayout(kind: byte, seqNo: u32)
    | UnsupportedBisectionCheckpointVersion(checkpointVersion: u16, seqNo: u32)
    | InvalidBisectionCheckpointFlags(checkpointFlags: u16, seqNo: u32)
    | BisectionCheckpointIcountMismatch(seqNo: u32, recordIcount: u64, checkpointIcount: u64)
    | NonzeroPadding(seqNo: u32)
    | RecordCountMismatch(header: u64, actual: nat)
    | EndNotLast
    | EndMismatch
    | BadClock
    | HasAuxFlagMismatch
    | EpochHashesFlagMismatch

  // ---- the header ---------------------------------------------------------------------

  /** `parse_header_with_seal` */
  function ParseHeader(b: bytes, requireSealed: bool): Result<Header, ReadError>
  {
    if |b| < HEADER_LEN then Err(TooShort)
    else
      var h := HeaderAt(b);
      if b[0..6] != MAGIC then Err(BadMagic)
      else if h.version / 256 != 1 then Err(UnsupportedVersion(h.version))
      else if GetU32(b[8..12]) != 256 then Err(BadHeaderLen(GetU32(b[8..12])))
      else if h.flags > 7 then Err(UnknownHeaderFlags(h.flags))
      else if requireSealed && !Sealed(h.flags) then Err(NotSealed)
      else if b[248..256] != Zeros(8) then Err(ReservedNonzero)
      else if h.clockDen == 0 then Err(BadClock)
      else Ok(h)
  }

  predicate HeaderOk(h: Header, requireSealed: bool)
  {
    h.version / 256 == 1 && h.flags <= 7 && (requireSealed ==> Sealed(h.flags)) && h.clockDen != 0
  }

  /** The header parser accepts exactly the layouts of good headers. */
  lemma ParseHeaderExact(b: bytes, requireSealed: bool, h: Header)
    ensures ParseHeader(b, requireSealed) == Ok(h) <==> HeaderBytes(h) <= b && HeaderOk(h, requireSealed)
  {
    if |b| >= HEADER_LEN {
      U32RoundTrip(256);
      if Shaped(b) { HeaderBack(b); }
      if HeaderBytes(h) <= b {
        assert b == HeaderBytes(h) + b[256..];
        HeaderReads(h, b[256..]);
        HeaderIsShaped(h, b[256..]);
      }
    }
  }

  // ---- one record -----------------------------------------------------------------------

  /** `validate_kind` */
  function ValidateKind(kind: byte, aux: bool, payload: bytes, seqNo: u32, icount: u64): Option<ReadError>
  {
    if !IsCanonicalKind(kind) && !IsAuxKind(kind) then
      (if aux then None else Some(UnknownCanonicalKind(kind, seqNo)))
    else if IsAuxKind(kind) != aux then Some(KindAuxMismatch(kind, seqNo))
    else if kind == KIND_BISECTION_CHECKPOINT && |payload| == 56 && GetU16(payload[0..2]) != 1 then
      Some(UnsupportedBisectionCheckpointVersion(GetU16(payload[0..2]), seqNo))
    else if kind == KIND_BISECTION_CHECKPOINT && |payload| == 56 && GetU16(payload[2..4]) != 0 then
      Some(InvalidBisectionCheckpointFlags(GetU16(payload[2..4]), seqNo))
    else if kind == KIND_BISECTION_CHECKPOINT && |payload| == 56 && GetU64(payload[40..48]) != icount then
      Some(BisectionCheckpointIcountMismatch(seqNo, icount, GetU64(payload[40..48])))
    else if !LayoutOk(kind, payload, icount) then Some(BadPayloadLayout(kind, seqNo))
    else None
  }

  function PayloadLenAt(t: bytes): nat
    requires |t| >= 24
  {
    GetU16(t[2..4])
  }

  /** The record read at the start of `t`. */
  function RecordAt(t: bytes): Record
    requires |t| >= 24 && 24 + PayloadLenAt(t) <= |t|
  {
    Record(t[0], t[1], GetU32(t[4..8]), GetU64(t[8..16]), GetU64(t[16..24]), t[24..24 + PayloadLenAt(t)])
  }

  /** Where a scan is: `offset` bytes and `count` records into a body. */
  datatype Scan = Scan(offset: nat, count: nat, lastIcount: u64)

  function SeqForError(count: nat): u32
  {
    if count <= U32_MAX then count else U32_MAX
  }

  /** The checks of `scan_next_record`, in order, on the bytes from the offset on. */
  function ScanRecord(t: bytes, count: nat, lastIcount: u64): Result<Record, ReadError>
  {
    var at := SeqForError(count);
    if |t| < 24 then Err(Truncated(at))
    else if PayloadLenAt(t) > MAX_PAYLOAD then Err(PayloadTooLong(at))
    else if |t| < FrameLen(PayloadLenAt(t)) then Err(Truncated(at))
    else
      var r := RecordAt(t);
      if r.seqNo != count then Err(SeqMismatch(at, r.seqNo))
      else if count > 0 && r.icount < lastIcount then Err(IcountRegressed(r.seqNo))
      else if r.rflags > 1 then Err(UnknownRecordFlags(r.rflags, r.seqNo))
      else if !AllZero(t[24 + |r.payload|..FrameLen(|r.payload|)]) then Err(NonzeroPadding(r.seqNo))
      else match ValidateKind(r.kind, r.rflags == 1, r.payload, r.seqNo, r.icount)
           case Some(e) => Err(e)
           case None => Ok(r)
  }

  lemma ValidateKindExact(r: Record)
    requires |r.payload| <= MAX_PAYLOAD && r.rflags <= 1
    ensures ValidateKind(r.kind, r.rflags == 1, r.payload, r.seqNo, r.icount).None? <==> RecordOk(r)
  {}

  lemma HeadBack(t: bytes)
    requires |t| >= 24 && PayloadLenAt(t) <= MAX_PAYLOAD && 24 + PayloadLenAt(t) <= |t|
    ensures Head(RecordAt(t)) == t[..24]
  {
    assert t[..24] == [t[0], t[1]] + t[2..4] + t[4..8] + t[8..16] + t[16..24];
  }

  /** Zero padding is what makes the bytes a frame. */
  lemma FrameBack(t: bytes)
    requires |t| >= 24 && PayloadLenAt(t) <= MAX_PAYLOAD && FrameLen(PayloadLenAt(t)) <= |t|
    ensures var n := PayloadLenAt(t); AllZero(t[24 + n..FrameLen(n)]) ==> Frame(RecordAt(t)) <= t
  {
    HeadBack(t);
    var n := PayloadLenAt(t);
    var pad := t[24 + n..FrameLen(n)];
    if AllZero(pad) {
      AllZeroIsZeros(pad);
      assert t[..FrameLen(n)] == t[..24] + t[24..24 + n] + pad;
    }
  }

  lemma FrameReads(r: Record, t: bytes)
    requires |r.payload| <= MAX_PAYLOAD && Frame(r) <= t
    ensures |t| >= 24 && PayloadLenAt(t) == |r.payload| && FrameLen(|r.payload|) <= |t| && RecordAt(t) == r
    ensures AllZero(t[24 + |r.payload|..FrameLen(|r.payload|)])
  {
    var n := |r.payload|;
    HeadParts(r);
    FrameParts(r);
    PrefixSlice(Frame(r), t, 0, 24);
    assert t[2..4] == t[..24][2..4] && t[4..8] == t[..24][4..8] && t[8..16] == t[..24][8..16]
           && t[16..24] == t[..24][16..24];
    U16RoundTrip(n);
    U32RoundTrip(r.seqNo);
    U64RoundTrip(r.icount);
    U64RoundTrip(r.rip);
    PrefixSlice(Frame(r), t, 24, 24 + n);
    PrefixSlice(Frame(r), t, 24 + n, FrameLen(n));
  }

  /** What a scan has behind it. */
  ghost predicate Scanned(body: bytes, scan: Scan, p: Records)
  {
    && WellFormed(p) && Framable(p) && Body(p) <= body
    && scan.offset == |Body(p)| && scan.count == Count(p) && (p.More? ==> scan.lastIcount == p.last.icount)
  }

  /** A record is read exactly if a record that may come next is framed there. */
  lemma ScanExact(t: bytes, p: Records, lastIcount: u64)
    requires p.More? ==> lastIcount == p.last.icount
    ensures forall r :: ScanRecord(t, Count(p), lastIcount) == Ok(r) <==> Follows(p, r) && Frame(r) <= t
  {
    forall r ensures ScanRecord(t, Count(p), lastIcount) == Ok(r) <==> Follows(p, r) && Frame(r) <= t {
      if |t| >= 24 && PayloadLenAt(t) <= MAX_PAYLOAD && FrameLen(PayloadLenAt(t)) <= |t| {
        FrameBack(t);
        if RecordAt(t).rflags <= 1 { ValidateKindExact(RecordAt(t)); }
      }
      if Follows(p, r) && Frame(r) <= t { FrameReads(r, t); }
    }
  }

  /** `scan_next_record`: the next record, or the end, or why there is neither. */
  method ScanNext(body: bytes, scan: Scan, ghost p: Records) returns (r: Result<Option<Record>, ReadError>, next: Scan)
    requires Scanned(body, scan, p)
    ensures r == Ok(None) <==> Body(p) == body
    ensures r.Ok? && r.value.Some? ==> Follows(p, r.value.value) && Scanned(body, next, More(p, r.value.value))
    ensures r.Err? ==> forall q :: Follows(p, q) ==> !(Body(p) + Frame(q) <= body)
  {
    next := scan;
    if scan.offset >= |body| { return Ok(None), next; }
    var t := body[scan.offset..];
    var found := ScanRecord(t, scan.count, scan.lastIcount);
    ScanExact(t, p, scan.lastIcount);
    forall q | Follows(p, q) ensures Body(p) + Frame(q) <= body <==> Frame(q) <= t {
      AfterPrefix(Body(p), Frame(q), body);
    }
    if found.Err? { return Err(found.error), next; }
    next := Scan(scan.offset + FrameLen(|found.value.payload|), scan.count + 1, found.value.icount);
    return Ok(Some(found.value)), next;
  }

  // ---- the whole body ------------------------------------------------------------------------

  predicate EndMatches(h: Header, r: Record)
    requires RecordOk(r) && r.kind == KIND_END
  {
    r.rip == 0 && AllZero(r.payload[1..8]) && r.icount == h.endIcount && r.payload[8..40] == h.endStateHash
  }

  /** The log that a header promises: well-formed records of which the last, and only the last, is END. */
  ghost predicate Accepted(h: Header, rs: Records)
  {
    && WellFormed(rs) && rs.More? && rs.last.kind == KIND_END && EndMatches(h, rs.last)
    && !HasKind(rs.before, KIND_END)
    && Count(rs) == h.recordCount && AuxFlag(h.flags) == HasAux(rs)
       && EpochFlag(h.flags) == HasKind(rs, KIND_EPOCH_HASH)
  }

  /** The flags of the record walk. */
  datatype Seen = Seen(end: bool, aux: bool, epoch: bool)

  /** The walk has met `p`, which any accepted log with these bytes starts with. */
  ghost predicate Walked(h: Header, body: bytes, p: Records, seen: Seen)
  {
    && WellFormed(p) && Framable(p) && Body(p) <= body
    && (seen.end <==> p.More? && p.last.kind == KIND_END) && (p.More? ==> !HasKind(p.before, KIND_END))
    && (seen.end ==> EndMatches(h, p.last))
    && (seen.aux || seen.epoch <==> HasAux(p)) && (seen.epoch <==> HasKind(p, KIND_EPOCH_HASH))
  }

  /** No log with these bytes is accepted. */
  ghost predicate Rejects(h: Header, body: bytes)
  {
    forall rs :: Accepted(h, rs) && Framable(rs) ==> Body(rs) != body
  }

  lemma RejectsAfterEnd(h: Header, body: bytes, p: Records, seen: Seen)
    requires Walked(h, body, p, seen) && seen.end && Body(p) != body
    ensures Rejects(h, body)
  {
    forall rs | Accepted(h, rs) && Framable(rs) && Body(rs) == body ensures false {
      PrefixOf(p, rs);
      PrefixKinds(p, rs.before, KIND_END);
    }
  }

  lemma RejectsUnreadable(h: Header, body: bytes, p: Records)
    requires WellFormed(p) && Framable(p) && Body(p) <= body && Body(p) != body
    requires forall q :: Follows(p, q) ==> !(Body(p) + Frame(q) <= body)
    ensures Rejects(h, body)
  {
    forall rs | Accepted(h, rs) && Framable(rs) && Body(rs) == body ensures false {
      PrefixOf(p, rs);
      var r := NextFrame(p, rs);
      PrefixWellFormed(More(p, r), rs);
    }
  }

  lemma RejectsBadEnd(h: Header, body: bytes, p: Records, r: Record)
    requires WellFormed(More(p, r)) && Framable(More(p, r)) && Body(More(p, r)) <= body
    requires r.kind == KIND_END && !EndMatches(h, r)
    ensures Rejects(h, body)
  {
    forall rs | Accepted(h, rs) && Framable(rs) && Body(rs) == body ensures false {
      PrefixOf(More(p, r), rs);
      if More(p, r) != rs { PrefixKinds(More(p, r), rs.before, KIND_END); }
    }
  }

  lemma RejectsWhole(h: Header, body: bytes, p: Records)
    requires Framable(p) && Body(p) == body && !Accepted(h, p)
    ensures Rejects(h, body)
  {
    forall rs | Accepted(h, rs) && Framable(rs) && Body(rs) == body ensures false {
      EmptyPrefix(rs);
      EmptyPrefix(p);
      BodyInjective(rs, p, Empty);
    }
  }

  /** What one more record does to the walk. */
  function Note(seen: Seen, r: Record): Seen
  {
    if r.kind == KIND_END then seen.(end := true)
    else if r.kind == KIND_EPOCH_HASH then seen.(epoch := true)
    else if r.rflags == 1 then seen.(aux := true)
    else seen
  }

  lemma WalkedMore(h: Header, body: bytes, p: Records, seen: Seen, r: Record)
    requires Walked(h, body, p, seen) && !seen.end && Follows(p, r) && Framable(More(p, r)) && Body(More(p, r)) <= body
    requires r.kind == KIND_END ==> EndMatches(h, r)
    ensures Walked(h, body, More(p, r), Note(seen, r))
  {}

  /** `validate_records` */
  method ValidateRecords(h: Header, body: bytes) returns (r: Option<ReadError>, ghost rs: Records)
    ensures r.None? ==> Accepted(h, rs) && Framable(rs) && Body(rs) == body
    ensures r.Some? ==> Rejects(h, body)
  {
    var scan, seen := Scan(0, 0, 0), Seen(false, false, false);
    rs := Empty;
    while scan.offset < |body|
      invariant Scanned(body, scan, rs)
      invariant Walked(h, body, rs, seen) == true  // proved as one fact
      decreases |body| - scan.offset
    {
      if seen.end {
        RejectsAfterEnd(h, body, rs, seen);
        return Some(EndNotLast), rs;
      }
      var found, next := ScanNext(body, scan, rs);
      if found.Err? {
        RejectsUnreadable(h, body, rs);
        return Some(found.error), rs;
      }
      var rec := found.value.value;
      if rec.kind == KIND_END && (rec.rip != 0 || !AllZero(rec.payload[1..8]) || rec.icount != h.endIcount ||
                                  rec.payload[8..40] != h.endStateHash) {
        RejectsBadEnd(h, body, rs, rec);
        return Some(EndMismatch), rs;
      }
      WalkedMore(h, body, rs, seen, rec);
      rs, scan, seen := More(rs, rec), next, Note(seen, rec);
    }
    r := if !seen.end then Some(EndNotLast)
         else if scan.count != h.recordCount then Some(RecordCountMismatch(h.recordCount, scan.count))
         else if AuxFlag(h.flags) != (seen.aux || seen.epoch) then Some(HasAuxFlagMismatch)
         else if EpochFlag(h.flags) != seen.epoch then Some(EpochHashesFlagMismatch)
         else None;
    if r.Some? { RejectsWhole(h, body, rs); }
  }

  // ---- parse -------------------------------------------------------------------------------------

  /** `b` is the sealed image of these records under this header. */
  ghost predicate IsImage(hash: Hash, b: bytes, h: Header, rs: Records)
  {
    && HeaderOk(h, true) && Accepted(h, rs) && Framable(rs)
    && h.bodyHash == hash(Body(rs)) && b == HeaderBytes(h) + Body(rs)
  }

  /** `LogReader::parse`: total, and accepting exactly the sealed images. */
  method Parse(hash: Hash, b: bytes) returns (r: Result<Header, ReadError>, ghost rs: Records)
    ensures r.Ok? ==> IsImage(hash, b, r.value, rs)
    ensures r.Err? ==> forall g, qs :: !IsImage(hash, b, g, qs)
  {
    rs := Empty;
    var header := ParseHeader(b, true);
    forall h: Header ensures header == Ok(h) <==> HeaderBytes(h) <= b && HeaderOk(h, true) {
      ParseHeaderExact(b, true, h);
    }
    if header.Err? { return Err(header.error), rs; }
    var h, body := header.value, b[256..];
    assert b == HeaderBytes(h) + body;
    forall g, qs | IsImage(hash, b, g, qs) ensures g == h && Body(qs) == body {
      assert HeaderBytes(g) <= b;
      assert b[256..] == Body(qs);
    }
    if hash(body) != h.bodyHash { return Err(BodyHashMismatch), rs; }
    var bad;
    bad, rs := ValidateRecords(h, body);
    if bad.Some? { return Err(bad.value), rs; }
    return Ok(h), rs;
  }

  /** A sealed image determines its header and records. */
  lemma ImageUnique(hash: Hash, b: bytes, h: Header, rs: Records, g: Header, qs: Records)
    requires IsImage(hash, b, h, rs) && IsImage(hash, b, g, qs)
    ensures h == g && rs == qs
  {
    ParseHeaderExact(b, true, h);
    ParseHeaderExact(b, true, g);
    assert b[256..] == Body(rs) && b[256..] == Body(qs);
    EmptyPrefix(rs);
    EmptyPrefix(qs);
    BodyInjective(rs, qs, Empty);
  }

  // ---- inspection -----------------------------------------------------------------------------------

  /** `LogInspection::parse_unsealed`: for an artifact that was never sealed, the longest run of records that
      can be read, and why it ends. */
  method Inspect(b: bytes) returns (r: Result<Header, ReadError>, records: seq<Record>, stop: Option<ReadError>,
                                    ghost rs: Records)
    ensures forall h :: r == Ok(h) <==> HeaderBytes(h) <= b && HeaderOk(h, false)
    ensures r.Ok? ==>
              && |b| >= 256 && WellFormed(rs) && Framable(rs) && Body(rs) <= b[256..] && records == ToSeq(rs)
              && (stop.None? <==> Body(rs) == b[256..])
              && (stop.Some? ==> forall q :: Follows(rs, q) ==> !(Body(rs) + Frame(q) <= b[256..]))
  {
    r, records, stop, rs := ParseHeader(b, false), [], None, Empty;
    forall h ensures r == Ok(h) <==> HeaderBytes(h) <= b && HeaderOk(h, false) {
      ParseHeaderExact(b, false, h);
    }
    if r.Err? { return; }
    var body, scan, more := b[256..], Scan(0, 0, 0), true;
    while more
      invariant Scanned(body, scan, rs) && records == ToSeq(rs)
      invariant more ==> stop.None?
      invariant !more ==> (stop.None? <==> Body(rs) == body)
      invariant stop.Some? ==> forall q :: Follows(rs, q) ==> !(Body(rs) + Frame(q) <= body)
      decreases |body| - scan.offset, more
    {
      var found, next := ScanNext(body, scan, rs);
      match found {
        case Ok(Some(rec)) => records, rs, scan := records + [rec], More(rs, rec), next;
        case Ok(None) => more := false;
        case Err(e) => more, stop := false, Some(e);
      }
    }
  }

  // ---- the unchecked iterator ------------------------------------------------------------------------

  /** `Records::next`: no checks, only the reads; every index is within an accepted body, and what comes
      out is the next record that the walk validated. */
  method NextRecord(body: bytes, offset: nat, ghost p: Records, ghost rs: Records)
    returns (r: Option<Record>, next: nat)
    requires Framable(rs) && Body(rs) == body && IsPrefix(p, rs) && Framable(p) && offset == |Body(p)|
    ensures r.None? <==> p == rs
    ensures r.Some? ==> IsPrefix(More(p, r.value), rs) && Framable(More(p, r.value)) && next == |Body(More(p, r.value))|
  {
    next := offset;
    PrefixBody(p, rs);
    if offset >= |body| { return None, next; }
    ghost var q := NextFrame(p, rs);
    var t := body[offset..];
    AfterPrefix(Body(p), Frame(q), body);
    var rec, len := ReadFrame(t, q);
    PrefixBody(More(p, rec), rs);
    return Some(rec), offset + len;
  }

  /** The reads of one frame. */
  method ReadFrame(t: bytes, ghost q: Record) returns (r: Record, len: nat)
    requires |q.payload| <= MAX_PAYLOAD && Frame(q) <= t
    ensures r == q && len == |Frame(q)|
  {
    FrameReads(q, t);
    var n := GetU16(t[2..4]);
    r := Record(t[0], t[1], GetU32(t[4..8]), GetU64(t[8..16]), GetU64(t[16..24]), t[24..24 + n]);
    len := 24 + n + PadLen(n);
  }

  function ToSeq(rs: Records): seq<Record>
  {
    match rs
    case Empty => []
    case More(before, r) => ToSeq(before) + [r]
  }

  /** Iterating a parsed log yields exactly its records, in order, END once and last. */
  method AllRecords(hash: Hash, b: bytes, h: Header, ghost rs: Records) returns (out: seq<Record>)
    requires IsImage(hash, b, h, rs)
    ensures out == ToSeq(rs) && |out| > 0 && out[|out| - 1].kind == KIND_END
    ensures forall i :: 0 <= i < |out| - 1 ==> out[i].kind != KIND_END
  {
    var body, offset := b[256..], 0;
    out := [];
    ghost var p := Empty;
    EmptyPrefix(rs);
    var more := true;
    while more
      invariant IsPrefix(p, rs) && Framable(p) && offset == |Body(p)| && out == ToSeq(p)
      invariant !more ==> p == rs
      decreases Count(rs) - Count(p), more
    {
      PrefixCount(p, rs);
      var r, next := NextRecord(body, offset, p, rs);
      if r.None? {
        more := false;
      } else {
        PrefixCount(More(p, r.value), rs);
        out, offset, p := out + [r.value], next, More(p, r.value);
      }
    }
    OnlyLastEnds(rs.before);
  }

  lemma {:induction false} OnlyLastEnds(rs: Records)
    requires !HasKind(rs, KIND_END)
    ensures forall r :: r in ToSeq(rs) ==> r.kind != KIND_END
  {
    if rs.More? { OnlyLastEnds(rs.before); }
  }
}
