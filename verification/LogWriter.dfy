/** The append-only DHILOG writer (crates/dh-inputlog/src/dhilog.rs), and the round trip through the reader. */
module LogWriting {
  import opened Common
  import opened Bytes
  import opened LogFormat
  import opened LogHeader
  import opened RecordBodies
  import LogReader

  const FORMAT_VERSION: u16 := 0x0100

  datatype SegmentHeader = SegmentHeader(
    baseSnapshot: Digest, entropySeed: Digest, configHash: Digest, clockNum: u32, clockDen: u32, fingerprint: u64)

  datatype SealParams = SealParams(
    endSnapshot: Digest, endIcount: u64, endVns: u64, endStateHash: Digest, stopReason: byte)

  datatype WriteError = PayloadTooLong | IcountRegressed | SeqOverflow | EmptyNetRx

  /** One call of a record method. The methods themselves write neither END nor unknown kinds, and give a
      checkpoint its fixed version, flags and count. */
  datatype Op = Op(icount: u64, rip: u64, body: RecordBody)

  predicate Callable(op: Op)
  {
    && !op.body.End? && !op.body.Unknown?
    && (op.body.BisectionCheckpoint? ==>
          op.body.version == 1 && op.body.flags == 0 && op.body.checkpointIcount == op.icount)
  }

  /** `r` is the record of a call, as number `n`: a reader accepts it and reads the call's body from it. */
  predicate Carries(r: Record, op: Op, n: nat)
  {
    r.seqNo == n && r.icount == op.icount && r.rip == op.rip && RecordOk(r) && BodyOf(r) == op.body
  }

  lemma CarriesRenumbered(r: Record, op: Op, n: u32)
    requires Carries(r, op, 0)
    ensures Carries(r.(seqNo := n), op, n) == true
  {}

  /** Lay out the payload of a call. */
  method MakeRecord(op: Op) returns (r: Record)
    requires Callable(op) && BodyError(op.body).None?
    ensures Carries(r, op, 0) == true
    ensures |r.payload| <= MAX_PAYLOAD && RecordOk(r) && r.kind != KIND_END
    ensures (r.kind == KIND_EPOCH_HASH <==> op.body.EpochHash?)
  {
    BodyRoundTrip(op.body, 0, op.icount, op.rip);
    r := RecordFor(op.body, 0, op.icount, op.rip);
  }

  /** The header that `seal` fills in. */
  function SealedHeader(hash: Hash, seg: SegmentHeader, params: SealParams, aux: bool, epochs: bool, count: u64,
                        body: bytes): Header
  {
    Header(FORMAT_VERSION, FlagsFor(aux, epochs), seg.baseSnapshot, params.endSnapshot, seg.entropySeed, seg.configHash,
           seg.clockNum, seg.clockDen, count, params.endIcount, params.endVns, params.endStateHash, hash(body),
           seg.fingerprint)
  }

  /** The buffer and counters after the records `rs`, whatever these hold. */
  ghost predicate Framed(rs: Records, buf: bytes, count: nat, lastIcount: u64)
  {
    && Framable(rs) && buf == Zeros(256) + Body(rs)
    && count == Count(rs) && (rs.More? ==> lastIcount == rs.last.icount)
  }

  /** The same, for records that a reader accepts. */
  ghost predicate LogState(rs: Records, buf: bytes, count: nat, lastIcount: u64)
  {
    WellFormed(rs) && Framed(rs, buf, count, lastIcount)
  }

  lemma Grow(rs: Records, buf: bytes, count: nat, lastIcount: u64, r: Record)
    requires Framed(rs, buf, count, lastIcount) && |r.payload| <= MAX_PAYLOAD
    ensures Framed(More(rs, r), buf + Frame(r), count + 1, r.icount) == true
  {
    Concat(Zeros(256), Body(rs), Frame(r));
  }

  lemma GrowWell(rs: Records, r: Record, count: nat, lastIcount: u64)
    requires WellFormed(rs) && count == Count(rs) && (rs.More? ==> lastIcount == rs.last.icount)
    requires RecordOk(r) && r.seqNo == count && (count > 0 ==> lastIcount <= r.icount)
    ensures WellFormed(More(rs, r)) == true
  {}

  lemma Concat(a: bytes, b: bytes, c: bytes)
    ensures (a + b) + c == a + (b + c) && (a + b)[|a|..] == b
  {}

  /** What the framing step refuses, in its order, after `count` records of which the last is at `last`. */
  function FramingError(count: nat, last: u64, payloadLen: nat, icount: u64): Option<WriteError>
  {
    if payloadLen > MAX_PAYLOAD then Some(PayloadTooLong)
    else if count > 0 && icount < last then Some(IcountRegressed)
    else if count > U32_MAX then Some(SeqOverflow)
    else None
  }

  /** What a record method refuses of its own: a body that is out of bounds. */
  function BodyError(body: RecordBody): Option<WriteError>
  {
    match body
    case DevEvent(_, _, data) => if |data| > MAX_DEV_EVENT_DATA then Some(PayloadTooLong) else None
    case NetRx(frame) =>
      if |frame| == 0 then Some(EmptyNetRx) else if |frame| > MAX_NET_RX_FRAME then Some(PayloadTooLong) else None
    case _ => None
  }

  /** What a record method refuses: first its own bounds, then what the framing refuses. */
  function ErrorOf(count: nat, last: u64, op: Op): Option<WriteError>
  {
    if BodyError(op.body).Some? then BodyError(op.body) else FramingError(count, last, 0, op.icount)
  }

  class LogWriter {
    var buf: bytes
    const header: SegmentHeader
    var recordCount: nat
    var lastIcount: u64
    var hasAux: bool
    var wroteEpochHash: bool
    ghost var rs: Records

    ghost predicate Valid()
      reads this
    {
      && (LogState(rs, buf, recordCount, lastIcount) == true)  // proved as one fact
      && !HasKind(rs, KIND_END) && hasAux == HasAux(rs) && wroteEpochHash == HasKind(rs, KIND_EPOCH_HASH)
    }

    constructor (header: SegmentHeader)
      ensures Valid() && this.header == header && rs == Empty
    {
      this.header := header;
      buf, recordCount, lastIcount, hasAux, wroteEpochHash, rs := Zeros(256), 0, 0, false, false, Empty;
      new;
      assert Zeros(256) + [] == Zeros(256);
    }

    /** `record`: frame and append, or fail with nothing changed. */
    method Record(kind: byte, rflags: byte, icount: u64, rip: u64, payload: bytes) returns (e: Option<WriteError>)
      requires Framed(rs, buf, recordCount, lastIcount)
      modifies this
      ensures e == old(FramingError(recordCount, lastIcount, |payload|, icount))
      ensures e.Some? ==> unchanged(this)
      ensures wroteEpochHash == old(wroteEpochHash)
      ensures e.None? ==>
                && rs == More(old(rs), LogFormat.Record(kind, rflags, old(recordCount), icount, rip, payload))
                && (Framed(rs, buf, recordCount, lastIcount) == true)
                && recordCount == old(recordCount) + 1 && lastIcount == icount
                   && hasAux == (old(hasAux) || rflags % 2 == 1)
    {
      if |payload| > MAX_PAYLOAD { return Some(PayloadTooLong); }
      if recordCount > 0 && icount < lastIcount { return Some(IcountRegressed); }
      if recordCount > U32_MAX { return Some(SeqOverflow); }
      var r := LogFormat.Record(kind, rflags, recordCount, icount, rip, payload);
      Grow(rs, buf, recordCount, lastIcount, r);
      buf := buf + Frame(r);
      rs := More(rs, r);
      recordCount, lastIcount := recordCount + 1, icount;
      if rflags % 2 == 1 { hasAux := true; }
      return None;
    }

    /** The record methods. */
    method Append(op: Op) returns (e: Option<WriteError>)
      requires Valid() && Callable(op)
      modifies this
      ensures Valid() && e == old(ErrorOf(recordCount, lastIcount, op))
      ensures e.Some? ==> unchanged(this)
      ensures e.None? ==> rs.More? && rs.before == old(rs) && (Carries(rs.last, op, old(recordCount)) == true)
      ensures e.None? ==> recordCount == old(recordCount) + 1 && lastIcount == op.icount
    {
      e := BodyError(op.body);
      if e.Some? { return; }
      var r := MakeRecord(op);
      e := Record(r.kind, r.rflags, op.icount, op.rip, r.payload);
      if e.None? {
        CarriesRenumbered(r, op, old(recordCount));
        GrowWell(old(rs), rs.last, old(recordCount), old(lastIcount));
        if op.body.EpochHash? { wroteEpochHash := true; }
      }
    }

    /** `seal`: append END, fill the header in, and hand out the image. */
    method Seal(hash: Hash, params: SealParams) returns (r: Result<bytes, WriteError>)
      requires Valid()
      modifies this
      ensures r.Err? ==> Some(r.error) == old(FramingError(recordCount, lastIcount, 40, params.endIcount))
      ensures r.Ok? ==> old(FramingError(recordCount, lastIcount, 40, params.endIcount)).None?
      ensures r.Ok? ==>
                && rs == More(old(rs), EndRecord(params, old(recordCount))) && Framable(rs)
                && var h := SealedHeader(hash, header, params, HasAux(old(rs)), HasKind(old(rs), KIND_EPOCH_HASH),
                                         old(recordCount) + 1, Body(rs));
                   r.value == HeaderBytes(h) + Body(rs)
    {
      var aux := hasAux;
      EndIsOk(params, 0);
      var e := Record(KIND_END, 1, params.endIcount, 0, PayloadOf(End(params.stopReason, params.endStateHash)));
      if e.Some? { return Err(e.value); }
      hasAux := aux;
      Concat(Zeros(256), Body(rs), []);
      var h := SealedHeader(hash, header, params, hasAux, wroteEpochHash, recordCount, buf[256..]);
      buf := HeaderBytes(h) + buf[256..];
      return Ok(buf);
    }
  }

  function EndRecord(params: SealParams, n: nat): Record
    requires n <= U32_MAX
  {
    LogFormat.Record(KIND_END, 1, n, params.endIcount, 0, PayloadOf(End(params.stopReason, params.endStateHash)))
  }

  lemma EndIsOk(params: SealParams, n: u32)
    ensures var r := EndRecord(params, n);
            RecordOk(r) && |r.payload| == 40 && AllZero(r.payload[1..8]) && r.payload[8..40] == params.endStateHash
  {
    EndReads(End(params.stopReason, params.endStateHash), n, params.endIcount, 0);
    var p := EndRecord(params, n).payload;
    assert p[8..40] == params.endStateHash;
  }

  // ---- the round trip -------------------------------------------------------------------

  /** A sealed image is one that the reader accepts, with the records written and END. */
  lemma SealedIsImage(hash: Hash, seg: SegmentHeader, params: SealParams, rs: Records) returns (h: Header, all: Records)
    requires WellFormed(rs) && Framable(rs) && !HasKind(rs, KIND_END) && seg.clockDen != 0
    requires Count(rs) <= U32_MAX && (rs.More? ==> rs.last.icount <= params.endIcount)
    ensures all == More(rs, EndRecord(params, Count(rs))) && Framable(all)
    ensures h == SealedHeader(hash, seg, params, HasAux(rs), HasKind(rs, KIND_EPOCH_HASH), Count(rs) + 1, Body(all))
    ensures LogReader.IsImage(hash, HeaderBytes(h) + Body(all), h, all) == true
  {
    var end := EndRecord(params, Count(rs));
    EndIsOk(params, Count(rs));
    all := More(rs, end);
    h := SealedHeader(hash, seg, params, HasAux(rs), HasKind(rs, KIND_EPOCH_HASH), Count(rs) + 1, Body(all));
    EndCompletes(h, rs, end);
  }

  lemma EndCompletes(h: Header, rs: Records, r: Record)
    requires WellFormed(rs) && !HasKind(rs, KIND_END) && Follows(rs, r) && r.kind == KIND_END
    requires LogReader.EndMatches(h, r)
    requires h.recordCount == Count(rs) + 1
    requires AuxFlag(h.flags) == HasAux(rs) && EpochFlag(h.flags) == HasKind(rs, KIND_EPOCH_HASH)
    ensures LogReader.Accepted(h, More(rs, r)) == true
  {}

  /** The records are those of the calls, in order. */
  ghost predicate Holds(rs: Records, ops: seq<Op>)
  {
    match rs
    case Empty => ops == []
    case More(before, r) => |ops| > 0 && Holds(before, ops[..|ops| - 1]) && Carries(r, ops[|ops| - 1], |ops| - 1)
  }

  lemma {:induction false} HoldsCount(rs: Records, ops: seq<Op>)
    requires Holds(rs, ops)
    ensures Count(rs) == |ops|
  {
    if rs.More? { HoldsCount(rs.before, ops[..|ops| - 1]); }
  }

  /** The calls as a reader sees them. */
  lemma {:induction false} HoldsReads(rs: Records, ops: seq<Op>)
    requires Holds(rs, ops)
    ensures |LogReader.ToSeq(rs)| == |ops|
    ensures forall i :: 0 <= i < |ops| ==> Carries(LogReader.ToSeq(rs)[i], ops[i], i)
  {
    if rs.More? {
      var before := ops[..|ops| - 1];
      HoldsReads(rs.before, before);
      forall i | 0 <= i < |ops| ensures Carries(LogReader.ToSeq(rs)[i], ops[i], i) {
        if i < |ops| - 1 { assert ops[i] == before[i]; }
      }
    }
  }

  lemma HoldsMore(rs: Records, ops: seq<Op>, r: Record, op: Op)
    requires Holds(rs, ops) && Carries(r, op, Count(rs))
    ensures Holds(More(rs, r), ops + [op]) == true
  {
    HoldsCount(rs, ops);
    assert (ops + [op])[..|ops|] == ops;
  }

  function LastIcount(ops: seq<Op>): u64
  {
    if ops == [] then 0 else ops[|ops| - 1].icount
  }

  /** The calls that succeed: each is judged after those kept before it. */
  function Kept(ops: seq<Op>): seq<Op>
  {
    if ops == [] then []
    else
      var before, op := Kept(ops[..|ops| - 1]), ops[|ops| - 1];
      if ErrorOf(|before|, LastIcount(before), op).None? then before + [op] else before
  }

  /** A writer that holds these calls judges the next as `Kept` does. */
  lemma SameJudge(rs: Records, ops: seq<Op>, buf: bytes, count: nat, last: u64)
    requires Holds(rs, ops) && LogState(rs, buf, count, last)
    ensures count == |ops| && (count > 0 ==> last == LastIcount(ops))
  {
    HoldsCount(rs, ops);
  }

  /** Any calls on a new writer; the ones that succeed are kept. */
  method WriteAll(seg: SegmentHeader, ops: seq<Op>) returns (w: LogWriter, kept: seq<Op>)
    requires forall op :: op in ops ==> Callable(op)
    ensures fresh(w) && w.Valid() && w.header == seg && (Holds(w.rs, kept) == true)
    ensures kept == Kept(ops)
  {
    w := new LogWriter(seg);
    kept := [];
    for i := 0 to |ops|
      invariant fresh(w) && w.Valid() && w.header == seg
      invariant Holds(w.rs, kept) == true  // proved as one fact
      invariant kept == Kept(ops[..i])
    {
      assert ops[..i + 1][..i] == ops[..i];
      SameJudge(w.rs, kept, w.buf, w.recordCount, w.lastIcount);
      ghost var rs := w.rs;
      var e := w.Append(ops[i]);
      if e.None? {
        HoldsMore(rs, kept, w.rs.last, ops[i]);
        kept := kept + [ops[i]];
      }
    }
    assert ops[..|ops|] == ops;
  }

  /** Sealing what was written and reading it back gives the records, and then END. A zero clock denominator
      is the only thing a reader has against a sealed log. */
  method SealAndRead(hash: Hash, w: LogWriter, params: SealParams)
    returns (sealed: Result<bytes, WriteError>, parsed: Result<Header, LogReader.ReadError>, out: seq<Record>)
    requires w.Valid()
    modifies w
    ensures var e := old(FramingError(w.recordCount, w.lastIcount, 40, params.endIcount));
            if sealed.Ok? then e.None? else e == Some(sealed.error)
    ensures sealed.Ok? ==> old(w.recordCount) <= U32_MAX && (parsed.Ok? <==> w.header.clockDen != 0)
    ensures sealed.Ok? && parsed.Ok? ==>
              && out == LogReader.ToSeq(old(w.rs)) + [EndRecord(params, old(w.recordCount))]
              && |sealed.value| >= 256
              && parsed.value == SealedHeader(hash, w.header, params, HasAux(old(w.rs)),
                                              HasKind(old(w.rs), KIND_EPOCH_HASH), old(w.recordCount) + 1,
                                              sealed.value[256..])
  {
    parsed, out := Err(LogReader.TooShort), [];
    ghost var rs := w.rs;
    sealed := w.Seal(hash, params);
    if sealed.Err? { return; }
    parsed, out := ReadBack(hash, w.header, params, rs, sealed.value);
  }

  /** Reading what a writer with the records `rs` sealed. */
  method ReadBack(hash: Hash, seg: SegmentHeader, params: SealParams, ghost rs: Records, image: bytes)
    returns (parsed: Result<Header, LogReader.ReadError>, out: seq<Record>)
    requires WellFormed(rs) && Framable(rs) && !HasKind(rs, KIND_END)
    requires Count(rs) <= U32_MAX && (rs.More? ==> rs.last.icount <= params.endIcount)
    requires var all := More(rs, EndRecord(params, Count(rs)));
             && Framable(all)
             && image == HeaderBytes(SealedHeader(hash, seg, params, HasAux(rs), HasKind(rs, KIND_EPOCH_HASH),
                                                  Count(rs) + 1, Body(all))) + Body(all)
    ensures parsed.Ok? <==> seg.clockDen != 0
    ensures parsed.Ok? ==>
              && out == LogReader.ToSeq(rs) + [EndRecord(params, Count(rs))] && |image| >= 256
              && parsed.value == SealedHeader(hash, seg, params, HasAux(rs), HasKind(rs, KIND_EPOCH_HASH),
                                              Count(rs) + 1, image[256..])
  {
    ghost var all := More(rs, EndRecord(params, Count(rs)));
    ghost var h := SealedHeader(hash, seg, params, HasAux(rs), HasKind(rs, KIND_EPOCH_HASH), Count(rs) + 1, Body(all));
    if seg.clockDen != 0 { ghost var _, _ := SealedIsImage(hash, seg, params, rs); }
    parsed, out := ReadSealed(hash, image, h, all);
  }

  /** What a reader makes of a sealed image. */
  method ReadSealed(hash: Hash, image: bytes, ghost h: Header, ghost all: Records)
    returns (parsed: Result<Header, LogReader.ReadError>, out: seq<Record>)
    requires Framable(all) && image == HeaderBytes(h) + Body(all)
    requires (h.clockDen != 0 ==> LogReader.IsImage(hash, image, h, all))
    ensures parsed.Ok? <==> h.clockDen != 0
    ensures parsed.Ok? ==> parsed.value == h && out == LogReader.ToSeq(all)
    ensures |image| >= 256 && image[256..] == Body(all)
  {
    out := [];
    Concat(HeaderBytes(h), Body(all), []);
    ghost var qs;
    parsed, qs := LogReader.Parse(hash, image);
    if parsed.Ok? {
      SameHeader(hash, image, h, Body(all), parsed.value, qs);
      LogReader.ImageUnique(hash, image, h, all, parsed.value, qs);
      out := LogReader.AllRecords(hash, image, parsed.value, qs);
    }
  }

  lemma SameHeader(hash: Hash, b: bytes, h: Header, t: bytes, g: Header, qs: Records)
    requires b == HeaderBytes(h) + t && LogReader.IsImage(hash, b, g, qs)
    ensures g == h && g.clockDen != 0
  {
    HeaderReads(h, t);
    HeaderReads(g, Body(qs));
  }

  predicate SomeAux(ops: seq<Op>)
  {
    exists i :: 0 <= i < |ops| && AuxOf(ops[i].body) == 1
  }

  predicate SomeEpoch(ops: seq<Op>)
  {
    exists i :: 0 <= i < |ops| && ops[i].body.EpochHash?
  }

  lemma CarriesKind(r: Record, op: Op, n: nat)
    requires Carries(r, op, n) && Callable(op)
    ensures r.kind != KIND_END && r.rflags == AuxOf(op.body) && (r.kind == KIND_EPOCH_HASH <==> op.body.EpochHash?)
  {}

  /** The flags that the records call for are those that the calls do. */
  lemma {:induction false} HoldsFlags(rs: Records, ops: seq<Op>)
    requires Holds(rs, ops) && forall i :: 0 <= i < |ops| ==> Callable(ops[i])
    ensures HasAux(rs) == SomeAux(ops) && HasKind(rs, KIND_EPOCH_HASH) == SomeEpoch(ops)
  {
    if rs.More? {
      var before, k := ops[..|ops| - 1], |ops| - 1;
      HoldsFlags(rs.before, before);
      CarriesKind(rs.last, ops[k], k);
      assert forall i :: 0 <= i < k ==> before[i] == ops[i];
    }
  }

  lemma {:induction false} KeptCallable(ops: seq<Op>)
    requires forall op :: op in ops ==> Callable(op)
    ensures forall i :: 0 <= i < |Kept(ops)| ==> Callable(Kept(ops)[i])
  {
    if ops != [] { KeptCallable(ops[..|ops| - 1]); }
  }

  /** Any calls, then a seal, then a parse: whatever the calls that failed, the reader gets exactly those that
      succeeded, in order, and then END, under the header of the segment, with the flags that they call for. */
  method WriteAndRead(hash: Hash, seg: SegmentHeader, ops: seq<Op>, params: SealParams)
    returns (sealed: Result<bytes, WriteError>, kept: seq<Op>, parsed: Result<Header, LogReader.ReadError>,
             out: seq<Record>)
    requires forall op :: op in ops ==> Callable(op)
    ensures kept == Kept(ops)
    ensures sealed.Ok? <==> |kept| <= U32_MAX && LastIcount(kept) <= params.endIcount
    ensures sealed.Ok? ==> (parsed.Ok? <==> seg.clockDen != 0)
    ensures sealed.Ok? && parsed.Ok? ==>
              && |out| == |kept| + 1 && (forall i :: 0 <= i < |kept| ==> Carries(out[i], kept[i], i))
              && |kept| <= U32_MAX && out[|kept|] == EndRecord(params, |kept|)
              && |sealed.value| >= 256
              && parsed.value == SealedHeader(hash, seg, params, SomeAux(kept), SomeEpoch(kept), |kept| + 1,
                                              sealed.value[256..])
  {
    var w;
    w, kept := WriteAll(seg, ops);
    KeptCallable(ops);
    HoldsCount(w.rs, kept);
    HoldsReads(w.rs, kept);
    HoldsFlags(w.rs, kept);
    SameJudge(w.rs, kept, w.buf, w.recordCount, w.lastIcount);
    sealed, parsed, out := SealAndRead(hash, w, params);
  }

  /** A segment whose clock has denominator zero seals, and does not parse. */
  method SealsUnreadable(hash: Hash, params: SealParams)
    returns (sealed: Result<bytes, WriteError>, parsed: Result<Header, LogReader.ReadError>)
    ensures sealed.Ok? && parsed.Err?
  {
    var kept, out;
    sealed, kept, parsed, out := WriteAndRead(hash, SegmentHeader(Zeros(32), Zeros(32), Zeros(32), 1, 0, 0), [],
                                              params);
  }
}
