/** The EVTC section: the detchannel host's state in a snapshot (crates/dh-devices/src/detchannel.rs). The
    validators' cursor is the list of bytes still to read. */
module Evtc {
  import opened Common
  import opened Bytes

  const NEVER_COMMITTED: u32 := 0xFFFF_FFFF
  const NAME_ABSENT: u32 := 0xFFFF_FFFF

  // The statuses of a CHANNEL_INIT commit.
  const INIT_OK: u32 := 0
  const INIT_BAD_GPA: u32 := 1
  const INIT_BAD_MAGIC_VERSION: u32 := 2
  const INIT_ALREADY_ATTACHED: u32 := 3

  datatype Attachment = Attachment(gpa: u64, seqC: u32, seqI: u32)

  datatype Pending = Pending(nameId: u32, name: Option<bytes>)

  datatype Entry = Entry(iseq: u32, pending: Pending)

  datatype Section = Section(
    initLo: u32, initHi: u32, initStatus: u32, injectIseq: Option<u32>, quiesceAck: Option<u32>,
    channel: Option<Attachment>, pending: seq<Entry>)

  predicate Attached(status: u32)
  {
    status == INIT_OK || status == INIT_ALREADY_ATTACHED
  }

  predicate Detached(status: u32)
  {
    status == NEVER_COMMITTED || status == INIT_BAD_GPA || status == INIT_BAD_MAGIC_VERSION
  }

  // ---- the layout ---------------------------------------------------------------------

  function OptBytes(x: Option<u32>): (b: bytes)
    ensures |b| == 5
  {
    match x case None => [0] + Zeros(4) case Some(v) => [1] + U32(v)
  }

  function AttachmentBytes(x: Option<Attachment>): (b: bytes)
    ensures |b| == 17
  {
    match x case None => [0] + Zeros(16) case Some(a) => [1] + (U64(a.gpa) + U32(a.seqC) + U32(a.seqI))
  }

  predicate NameOk(utf8: bytes -> bool, p: Pending)
  {
    p.name.Some? ==> |p.name.value| < NAME_ABSENT && utf8(p.name.value)
  }

  function EntryBytes(e: Entry): bytes
    requires e.pending.name.Some? ==> |e.pending.name.value| < NAME_ABSENT
  {
    (U32(e.iseq) + U32(e.pending.nameId))
    + (match e.pending.name case None => U32(NAME_ABSENT) case Some(n) => U32(|n|) + n)
  }

  predicate NamesFit(es: seq<Entry>)
  {
    forall e :: e in es ==> e.pending.name.Some? ==> |e.pending.name.value| < NAME_ABSENT
  }

  function EntriesBytes(es: seq<Entry>): bytes
    requires NamesFit(es)
  {
    if |es| == 0 then [] else EntryBytes(es[0]) + EntriesBytes(es[1..])
  }

  function PrefixBytes(s: Section): (b: bytes)
    ensures |b| == 39
  {
    (U32(s.initLo) + U32(s.initHi) + U32(s.initStatus))
    + (OptBytes(s.injectIseq) + (OptBytes(s.quiesceAck) + AttachmentBytes(s.channel)))
  }

  /** Version 2: the prefix, the number of pending queries, and the queries. */
  function SectionBytes(s: Section): bytes
    requires |s.pending| <= U32_MAX && NamesFit(s.pending)
  {
    PrefixBytes(s) + (U32(|s.pending|) + EntriesBytes(s.pending))
  }

  predicate AscendingFrom(prev: int, es: seq<Entry>)
    decreases |es|
  {
    |es| == 0 || (prev < es[0].iseq && AscendingFrom(es[0].iseq, es[1..]))
  }

  /** The entries of one section: names that fit and decode, in ascending order of `iseq` above `prev`. */
  ghost predicate EntriesOk(utf8: bytes -> bool, es: seq<Entry>, prev: int)
  {
    AscendingFrom(prev, es) && forall e :: e in es ==> NameOk(utf8, e.pending)
  }

  predicate PrefixOk(s: Section)
  {
    if s.channel.Some? then Attached(s.initStatus) else Detached(s.initStatus)
  }

  /** A section that validates. */
  ghost predicate SectionOk(utf8: bytes -> bool, s: Section)
  {
    && PrefixOk(s) && (s.channel.None? ==> s.pending == [])
    && |s.pending| <= U32_MAX && EntriesOk(utf8, s.pending, -1)
  }

  // ---- reading ------------------------------------------------------------------------

  function ReadOpt(b: bytes): Option<Option<u32>>
    requires |b| == 5
  {
    if b[0] == 0 then (if AllZero(b[1..]) then Some(None) else None)
    else if b[0] == 1 then Some(Some(GetU32(b[1..])))
    else None
  }

  function ReadAttachment(b: bytes): Option<Option<Attachment>>
    requires |b| == 17
  {
    if b[0] == 0 then (if AllZero(b[1..]) then Some(None) else None)
    else if b[0] == 1 then Some(Some(Attachment(GetU64(b[1..9]), GetU32(b[9..13]), GetU32(b[13..17]))))
    else None
  }

  /** `validate_evtc_prefix` and the fixed fields of `restore`. */
  function ReadPrefix(b: bytes): Option<Section>
  {
    if |b| < 39 then None
    else
      var iseq, ack, channel := ReadOpt(b[12..17]), ReadOpt(b[17..22]), ReadAttachment(b[22..39]);
      if iseq.None? || ack.None? || channel.None? then None
      else
        var s := Section(GetU32(b[0..4]), GetU32(b[4..8]), GetU32(b[8..12]), iseq.value, ack.value, channel.value, []);
        if PrefixOk(s) then Some(s) else None
  }

  datatype Read<T> = Read(value: T, rest: bytes)

  function ReadEntry(utf8: bytes -> bool, b: bytes, prev: int): Option<Read<Entry>>
  {
    if |b| < 12 then None
    else
      var iseq, nameId, n := GetU32(b[0..4]), GetU32(b[4..8]), GetU32(b[8..12]);
      if iseq <= prev then None
      else if n == NAME_ABSENT then Some(Read(Entry(iseq, Pending(nameId, None)), b[12..]))
      else if 12 + n > |b| || !utf8(b[12..12 + n]) then None
      else Some(Read(Entry(iseq, Pending(nameId, Some(b[12..12 + n]))), b[12 + n..]))
  }

  /** The entry loop of `evtc_pending_injects`; it must use up all the bytes. */
  function ReadEntries(utf8: bytes -> bool, b: bytes, n: nat, prev: int): Option<seq<Entry>>
    decreases n
  {
    if n == 0 then (if b == [] then Some([]) else None)
    else match ReadEntry(utf8, b, prev)
         case None => None
         case Some(r) =>
           match ReadEntries(utf8, r.rest, n - 1, r.value.iseq)
           case None => None
           case Some(es) => Some([r.value] + es)
  }

  /** `evtc_pending_injects` behind the prefix. */
  function ReadPending(utf8: bytes -> bool, b: bytes, attached: bool): Option<seq<Entry>>
  {
    if |b| < 4 then None
    else
      var n := GetU32(b[..4]);
      if !attached && n != 0 then None else ReadEntries(utf8, b[4..], n, -1)
  }

  function ReadSection(utf8: bytes -> bool, b: bytes, version: u16): Option<Section>
  {
    match ReadPrefix(b)
    case None => None
    case Some(s) =>
      if version == 1 then (if |b| == 39 then Some(s) else None)
      else if version != 2 then None
      else match ReadPending(utf8, b[39..], s.channel.Some?)
           case None => None
           case Some(es) => Some(s.(pending := es))
  }

  // ---- the cursor loops ---------------------------------------------------------------

  lemma Slice(b: bytes, at: nat, i: nat, j: nat)
    requires i <= j && at + j <= |b|
    ensures b[at..][i..j] == b[at + i..at + j] && b[at..][j..] == b[at + j..]
  {}

  /** One entry at the cursor. */
  method EntryAt(utf8: bytes -> bool, b: bytes, at: nat, prev: int) returns (e: Option<Entry>, next: nat)
    requires at <= |b|
    ensures match ReadEntry(utf8, b[at..], prev)
            case None => e.None?
            case Some(r) => e == Some(r.value) && next <= |b| && b[next..] == r.rest
  {
    if at + 12 > |b| { return None, at; }
    Slice(b, at, 0, 4);
    Slice(b, at, 4, 8);
    Slice(b, at, 8, 12);
    var iseq, nameId := GetU32(b[at..at + 4]), GetU32(b[at + 4..at + 8]);
    var n: nat := GetU32(b[at + 8..at + 12]);
    if iseq <= prev { return None, at; }
    next := at + 12;
    if n == NAME_ABSENT { return Some(Entry(iseq, Pending(nameId, None))), next; }
    if next + n > |b| { return None, at; }
    Slice(b, at, 12, 12 + n);
    var name := b[next..next + n];
    if !utf8(name) { return None, at; }
    return Some(Entry(iseq, Pending(nameId, Some(name)))), next + n;
  }

  function Onto(es: seq<Entry>, more: Option<seq<Entry>>): Option<seq<Entry>>
  {
    if more.None? then None else Some(es + more.value)
  }

  /** A loop that is to read `all` has read `es`, and `left` entries of `rest` are to come. */
  ghost predicate Reading(utf8: bytes -> bool, all: Option<seq<Entry>>, es: seq<Entry>, rest: bytes, left: nat,
                          prev: int)
  {
    all == Onto(es, ReadEntries(utf8, rest, left, prev))
  }

  lemma ReadingStarts(utf8: bytes -> bool, b: bytes, n: nat)
    ensures Reading(utf8, ReadEntries(utf8, b, n, -1), [], b, n, -1) == true
  {
    var all := ReadEntries(utf8, b, n, -1);
    if all.Some? { assert [] + all.value == all.value; }
  }

  lemma ReadingNext(utf8: bytes -> bool, all: Option<seq<Entry>>, es: seq<Entry>, rest: bytes, left: nat, prev: int)
    requires Reading(utf8, all, es, rest, left, prev) && left > 0
    ensures match ReadEntry(utf8, rest, prev)
            case None => all == None
            case Some(r) => Reading(utf8, all, es + [r.value], r.rest, left - 1, r.value.iseq) == true
  {
    match ReadEntry(utf8, rest, prev)
    case None =>
    case Some(r) =>
      var more := ReadEntries(utf8, r.rest, left - 1, r.value.iseq);
      if more.Some? { assert es + ([r.value] + more.value) == (es + [r.value]) + more.value; }
  }

  lemma ReadingEnds(utf8: bytes -> bool, all: Option<seq<Entry>>, es: seq<Entry>, rest: bytes, prev: int)
    requires Reading(utf8, all, es, rest, 0, prev)
    ensures all == if rest == [] then Some(es) else None
  {
    assert es + [] == es;
  }

  /** The entry loop of `evtc_pending_injects`. */
  method EntriesFrom(utf8: bytes -> bool, b: bytes, start: nat, n: nat) returns (r: Option<seq<Entry>>)
    requires start <= |b|
    ensures r == ReadEntries(utf8, b[start..], n, -1)
  {
    var es: seq<Entry>, at: nat, prev: int := [], start, -1;
    ghost var all := ReadEntries(utf8, b[start..], n, -1);
    ReadingStarts(utf8, b[start..], n);
    for k := 0 to n
      invariant at <= |b| && (Reading(utf8, all, es, b[at..], n - k, prev) == true)  // proved as one fact
    {
      ReadingNext(utf8, all, es, b[at..], n - k, prev);
      var e, next := EntryAt(utf8, b, at, prev);
      if e.None? { return None; }
      es, at, prev := es + [e.value], next, e.value.iseq;
    }
    ReadingEnds(utf8, all, es, b[at..], prev);
    if at != |b| { return None; }
    return Some(es);
  }

  /** `evtc_pending_injects` for version 2. */
  method PendingInjects(utf8: bytes -> bool, b: bytes, attached: bool) returns (r: Option<seq<Entry>>)
    requires |b| >= 39
    ensures r == ReadPending(utf8, b[39..], attached)
  {
    if |b| < 43 { return None; }
    Slice(b, 39, 0, 4);
    var n := GetU32(b[39..43]);
    if !attached && n != 0 { return None; }
    r := EntriesFrom(utf8, b, 43, n);
  }

  /** `validate_evtc_section` and the reads of `restore`. */
  method ParseSection(utf8: bytes -> bool, b: bytes, version: u16) returns (r: Option<Section>)
    ensures r == ReadSection(utf8, b, version)
  {
    var s := ReadPrefix(b);
    if s.None? { return None; }
    if version == 1 { return if |b| == 39 then s else None; }
    if version != 2 { return None; }
    var es := PendingInjects(utf8, b, s.value.channel.Some?);
    return if es.None? then None else Some(s.value.(pending := es.value));
  }

  // ---- each reader accepts exactly what its writer writes ---------------------------------------

  lemma OptExact(b: bytes, x: Option<u32>)
    requires |b| == 5
    ensures ReadOpt(b) == Some(x) <==> b == OptBytes(x)
  {
    assert b == [b[0]] + b[1..];
    if AllZero(b[1..]) { AllZeroIsZeros(b[1..]); }
    if x.Some? {
      U32RoundTrip(x.value);
      assert OptBytes(x)[1..] == U32(x.value);
    } else {
      assert OptBytes(x)[1..] == Zeros(4);
    }
  }

  lemma AttachmentExact(b: bytes, x: Option<Attachment>)
    requires |b| == 17
    ensures ReadAttachment(b) == Some(x) <==> b == AttachmentBytes(x)
  {
    assert b == [b[0]] + b[1..];
    if AllZero(b[1..]) { AllZeroIsZeros(b[1..]); }
    assert b[1..] == b[1..9] + b[9..13] + b[13..17];
    if x.Some? {
      var a, y := x.value, AttachmentBytes(x);
      assert y[1..9] == U64(a.gpa) && y[9..13] == U32(a.seqC) && y[13..17] == U32(a.seqI);
      U64RoundTrip(a.gpa); U32RoundTrip(a.seqC); U32RoundTrip(a.seqI);
    } else {
      assert AttachmentBytes(x)[1..] == Zeros(16);
    }
  }

  lemma PrefixParts(s: Section, t: bytes)
    ensures var b := PrefixBytes(s) + t;
            && b[0..4] == U32(s.initLo) && b[4..8] == U32(s.initHi) && b[8..12] == U32(s.initStatus)
            && b[12..17] == OptBytes(s.injectIseq) && b[17..22] == OptBytes(s.quiesceAck)
               && b[22..39] == AttachmentBytes(s.channel)
            && b[39..] == t
  {
    var p := PrefixBytes(s);
    assert p[0..4] == U32(s.initLo) && p[4..8] == U32(s.initHi) && p[8..12] == U32(s.initStatus);
    assert p[12..17] == OptBytes(s.injectIseq) && p[17..22] == OptBytes(s.quiesceAck)
           && p[22..39] == AttachmentBytes(s.channel);
    PrefixSlice(p, p + t, 0, 4);
    PrefixSlice(p, p + t, 4, 8);
    PrefixSlice(p, p + t, 8, 12);
    PrefixSlice(p, p + t, 12, 17);
    PrefixSlice(p, p + t, 17, 22);
    PrefixSlice(p, p + t, 22, 39);
  }

  lemma PrefixReads(s: Section, t: bytes)
    requires PrefixOk(s)
    ensures ReadPrefix(PrefixBytes(s) + t) == Some(s.(pending := []))
  {
    PrefixParts(s, t);
    OptExact(OptBytes(s.injectIseq), s.injectIseq);
    OptExact(OptBytes(s.quiesceAck), s.quiesceAck);
    AttachmentExact(AttachmentBytes(s.channel), s.channel);
    U32RoundTrip(s.initLo); U32RoundTrip(s.initHi); U32RoundTrip(s.initStatus);
  }

  lemma PrefixBack(b: bytes)
    requires ReadPrefix(b).Some?
    ensures PrefixOk(ReadPrefix(b).value) && b == PrefixBytes(ReadPrefix(b).value) + b[39..]
  {
    var s := ReadPrefix(b).value;
    OptExact(b[12..17], s.injectIseq);
    OptExact(b[17..22], s.quiesceAck);
    AttachmentExact(b[22..39], s.channel);
    PrefixJoined(b);
  }

  lemma PrefixJoined(b: bytes)
    requires |b| >= 39
    ensures b == (b[0..4] + b[4..8] + b[8..12]) + (b[12..17] + (b[17..22] + b[22..39])) + b[39..]
  {}

  lemma NamelessParts(a: u32, b: u32, rest: bytes)
    ensures var x := (U32(a) + U32(b)) + U32(NAME_ABSENT) + rest;
            x[0..4] == U32(a) && x[4..8] == U32(b) && x[8..12] == U32(NAME_ABSENT) && x[12..] == rest
  {}

  lemma NamedParts(a: u32, b: u32, name: bytes, rest: bytes)
    requires |name| <= U32_MAX
    ensures var x, n := (U32(a) + U32(b)) + (U32(|name|) + name) + rest, |name|;
            x[0..4] == U32(a) && x[4..8] == U32(b) && x[8..12] == U32(n) && x[12..12 + n] == name && x[12 + n..] == rest
  {}

  lemma EntryReads(utf8: bytes -> bool, e: Entry, rest: bytes, prev: int)
    requires NameOk(utf8, e.pending) && prev < e.iseq
    ensures ReadEntry(utf8, EntryBytes(e) + rest, prev) == Some(Read(e, rest))
  {
    U32RoundTrip(e.iseq);
    U32RoundTrip(e.pending.nameId);
    match e.pending.name
    case None =>
      NamelessParts(e.iseq, e.pending.nameId, rest);
      U32RoundTrip(NAME_ABSENT);
    case Some(n) =>
      NamedParts(e.iseq, e.pending.nameId, n, rest);
      U32RoundTrip(|n|);
  }

  lemma EntryBack(utf8: bytes -> bool, b: bytes, prev: int)
    requires ReadEntry(utf8, b, prev).Some?
    ensures var r := ReadEntry(utf8, b, prev).value;
            NameOk(utf8, r.value.pending) && prev < r.value.iseq && b == EntryBytes(r.value) + r.rest
  {
    var r := ReadEntry(utf8, b, prev).value;
    if r.value.pending.name.None? {
      assert b == (b[0..4] + b[4..8]) + b[8..12] + b[12..];
    } else {
      var n := GetU32(b[8..12]);
      assert b == (b[0..4] + b[4..8]) + (b[8..12] + b[12..12 + n]) + b[12 + n..];
    }
  }

  lemma FirstEntry(e: Entry, es: seq<Entry>)
    requires NamesFit([e] + es)
    ensures NamesFit(es) && EntriesBytes([e] + es) == EntryBytes(e) + EntriesBytes(es)
  {
    assert ([e] + es)[1..] == es;
    assert forall x :: x in es ==> x in [e] + es;
  }

  lemma FirstReads(utf8: bytes -> bool, e: Entry, es: seq<Entry>, prev: int)
    requires NameOk(utf8, e.pending) && prev < e.iseq && NamesFit(es)
    requires ReadEntries(utf8, EntriesBytes(es), |es|, e.iseq) == Some(es)
    ensures ReadEntries(utf8, EntryBytes(e) + EntriesBytes(es), |es| + 1, prev) == Some([e] + es)
  {
    EntryReads(utf8, e, EntriesBytes(es), prev);
  }

  lemma {:induction false} EntriesRead(utf8: bytes -> bool, es: seq<Entry>, prev: int)
    requires EntriesOk(utf8, es, prev)
    ensures NamesFit(es) && ReadEntries(utf8, EntriesBytes(es), |es|, prev) == Some(es)
    decreases |es|
  {
    if |es| > 0 {
      var e, more := es[0], es[1..];
      assert es == [e] + more;
      EntriesRead(utf8, more, e.iseq);
      FirstEntry(e, more);
      FirstReads(utf8, e, more, prev);
    }
  }

  lemma {:induction false} EntriesBack(utf8: bytes -> bool, b: bytes, n: nat, prev: int)
    requires ReadEntries(utf8, b, n, prev).Some?
    ensures var es := ReadEntries(utf8, b, n, prev).value;
            |es| == n && EntriesOk(utf8, es, prev) && NamesFit(es) && b == EntriesBytes(es)
    decreases n
  {
    if n > 0 {
      var r := ReadEntry(utf8, b, prev).value;
      EntryBack(utf8, b, prev);
      EntriesBack(utf8, r.rest, n - 1, r.value.iseq);
      var more := ReadEntries(utf8, r.rest, n - 1, r.value.iseq).value;
      OneMore(utf8, r.value, more, prev);
      FirstEntry(r.value, more);
    }
  }

  lemma OneMore(utf8: bytes -> bool, e: Entry, es: seq<Entry>, prev: int)
    requires EntriesOk(utf8, es, e.iseq) && NameOk(utf8, e.pending) && prev < e.iseq
    ensures EntriesOk(utf8, [e] + es, prev) && NamesFit([e] + es)
  {
    assert ([e] + es)[1..] == es;
  }

  /** What validates is the layout of a good section, and nothing else is. */
  lemma SectionReads(utf8: bytes -> bool, s: Section)
    requires SectionOk(utf8, s)
    ensures NamesFit(s.pending) && ReadSection(utf8, SectionBytes(s), 2) == Some(s)
  {
    var tail := EntriesTail(utf8, s.pending);
    PrefixReads(s, tail);
    PrefixParts(s, tail);
  }

  lemma EntriesTail(utf8: bytes -> bool, es: seq<Entry>) returns (tail: bytes)
    requires |es| <= U32_MAX && EntriesOk(utf8, es, -1)
    ensures NamesFit(es) && tail == U32(|es|) + EntriesBytes(es)
    ensures forall attached :: (!attached ==> es == []) ==> ReadPending(utf8, tail, attached) == Some(es)
  {
    EntriesRead(utf8, es, -1);
    tail := U32(|es|) + EntriesBytes(es);
    assert tail[..4] == U32(|es|) && tail[4..] == EntriesBytes(es);
    U32RoundTrip(|es|);
  }

  lemma SectionBack(utf8: bytes -> bool, b: bytes)
    requires ReadSection(utf8, b, 2).Some?
    ensures var s := ReadSection(utf8, b, 2).value; SectionOk(utf8, s) && NamesFit(s.pending) && b == SectionBytes(s)
  {
    var p := ReadPrefix(b).value;
    PrefixBack(b);
    var t := b[39..];
    var n := GetU32(t[..4]);
    EntriesBack(utf8, t[4..], n, -1);
    assert t == t[..4] + t[4..];
    var s := ReadSection(utf8, b, 2).value;
    assert PrefixBytes(s) == PrefixBytes(p);
  }
}
