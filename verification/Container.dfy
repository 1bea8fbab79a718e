/** The DHSNAP container: framed sections, each tag at most once (crates/dh-snapshot/src/dhsnap.rs). */
module Container {
  import opened Common
  import opened Bytes

  const MAGIC: bytes := [0x44, 0x48, 0x53, 0x4E, 0x41, 0x50]
  const FORMAT_VERSION: u16 := 0x0100

  type Tag = t: bytes | |t| == 4 witness [0, 0, 0, 0]

  const KNOWN_TAGS: set<Tag> := {
    [0x4D, 0x43, 0x46, 0x47], [0x56, 0x43, 0x50, 0x55], [0x4C, 0x41, 0x50, 0x43], [0x54, 0x49, 0x4D, 0x45],
    [0x45, 0x4E, 0x54, 0x52], [0x43, 0x4C, 0x4B, 0x44], [0x50, 0x41, 0x44, 0x44], [0x45, 0x56, 0x54, 0x43],
    [0x42, 0x4C, 0x4B, 0x4F], [0x4E, 0x45, 0x54, 0x4C], [0x53, 0x45, 0x52, 0x4C]}

  datatype Section = Section(tag: Tag, version: u16, contents: bytes)

  /** Sections in file order, the last one outermost. */
  datatype Sections = Empty | More(before: Sections, last: Section)

  // ---- the layout ------------------------------------------------------------------------

  predicate Fits(s: Section)
  {
    |s.contents| <= U32_MAX
  }

  function SectionHead(s: Section): (b: bytes)
    requires Fits(s)
    ensures |b| == 12
  {
    s.tag + U16(s.version) + Zeros(2) + U32(|s.contents|)
  }

  function FrameLen(len: nat): (n: nat)
    ensures n >= 12 + len
  {
    12 + len + PadLen(len)
  }

  function Frame(s: Section): (b: bytes)
    requires Fits(s)
    ensures |b| == FrameLen(|s.contents|)
  {
    SectionHead(s) + s.contents + Zeros(PadLen(|s.contents|))
  }

  predicate HasTag(ss: Sections, t: Tag)
  {
    match ss
    case Empty => false
    case More(before, s) => s.tag == t || HasTag(before, t)
  }

  predicate MayFollow(ss: Sections, s: Section)
  {
    Fits(s) && s.tag in KNOWN_TAGS && !HasTag(ss, s.tag)
  }

  predicate Good(ss: Sections)
  {
    match ss
    case Empty => true
    case More(before, s) => Good(before) && MayFollow(before, s)
  }

  function Count(ss: Sections): nat
  {
    match ss
    case Empty => 0
    case More(before, _) => Count(before) + 1
  }

  function Body(ss: Sections): bytes
    requires Good(ss)
  {
    match ss
    case Empty => []
    case More(before, s) => Body(before) + Frame(s)
  }

  function FileHead(version: u16, count: u32): (b: bytes)
    ensures |b| == 16
  {
    MAGIC + U16(version) + U32(count) + Zeros(4)
  }

  /** `b` is a container of these sections. Only the minor version is free. */
  ghost predicate IsImage(b: bytes, version: u16, ss: Sections)
  {
    version / 256 == 1 && Good(ss) && Count(ss) <= U32_MAX && b == FileHead(version, Count(ss)) + Body(ss)
  }

  // ---- reading one section -------------------------------------------------------------------

  lemma HeadParts(s: Section)
    requires Fits(s)
    ensures var b := SectionHead(s);
            b[0..4] == s.tag && b[4..6] == U16(s.version) && b[6..8] == Zeros(2) && b[8..12] == U32(|s.contents|)
  {}

  function LenAt(t: bytes): nat
    requires |t| >= 12
  {
    GetU32(t[8..12])
  }

  function SectionAt(t: bytes): Section
    requires |t| >= 12 && 12 + LenAt(t) <= |t|
  {
    Section(t[0..4], GetU16(t[4..6]), t[12..12 + LenAt(t)])
  }

  lemma FrameReads(s: Section, t: bytes)
    requires Fits(s) && Frame(s) <= t
    ensures |t| >= 12 && LenAt(t) == |s.contents| && FrameLen(|s.contents|) <= |t| && SectionAt(t) == s
    ensures t[6..8] == Zeros(2) && AllZero(t[12 + |s.contents|..FrameLen(|s.contents|)])
  {
    var n := |s.contents|;
    HeadParts(s);
    FrameParts(s);
    PrefixSlice(Frame(s), t, 0, 12);
    assert t[0..4] == t[..12][0..4] && t[4..6] == t[..12][4..6] && t[6..8] == t[..12][6..8]
           && t[8..12] == t[..12][8..12];
    U16RoundTrip(s.version);
    U32RoundTrip(n);
    PrefixSlice(Frame(s), t, 12, 12 + n);
    PrefixSlice(Frame(s), t, 12 + n, FrameLen(n));
  }

  lemma FrameParts(s: Section)
    requires Fits(s)
    ensures var b, n := Frame(s), |s.contents|;
            b[..12] == SectionHead(s) && b[12..12 + n] == s.contents && b[12 + n..FrameLen(n)] == Zeros(PadLen(n))
  {}

  lemma FrameBack(t: bytes)
    requires |t| >= 12 && FrameLen(LenAt(t)) <= |t|
    requires t[6..8] == Zeros(2) && AllZero(t[12 + LenAt(t)..FrameLen(LenAt(t))])
    ensures Fits(SectionAt(t)) && Frame(SectionAt(t)) <= t
  {
    var n := LenAt(t);
    var pad := t[12 + n..FrameLen(n)];
    AllZeroIsZeros(pad);
    assert t[..12] == t[0..4] + t[4..6] + t[6..8] + t[8..12];
    assert t[..FrameLen(n)] == t[..12] + t[12..12 + n] + pad;
  }

  datatype ReadError =
    | TooShort | BadMagic | UnsupportedVersion(found: u16) | NonzeroHeaderPad | Truncated(index: nat)
    | UnknownTag(tag: Tag, index: nat) | DuplicateTag(tag: Tag) | NonzeroPadding(index: nat)
    | SectionCountMismatch(header: u32, actual: nat)

  /** One round of the section loop, on the bytes from the offset on. */
  function ScanSection(t: bytes, ss: Sections): Result<Section, ReadError>
  {
    var index := Count(ss);
    if |t| < 12 then Err(Truncated(index))
    else if t[6..8] != Zeros(2) then Err(NonzeroPadding(index))
    else if |t| < FrameLen(LenAt(t)) then Err(Truncated(index))
    else
      var s := SectionAt(t);
      if s.tag !in KNOWN_TAGS then Err(UnknownTag(s.tag, index))
      else if HasTag(ss, s.tag) then Err(DuplicateTag(s.tag))
      else if !AllZero(t[12 + LenAt(t)..FrameLen(LenAt(t))]) then Err(NonzeroPadding(index))
      else Ok(s)
  }

  /** A section is read exactly if one that may come next is framed there. */
  lemma ScanExact(t: bytes, ss: Sections, s: Section)
    ensures ScanSection(t, ss) == Ok(s) <==> MayFollow(ss, s) && Frame(s) <= t
  {
    if MayFollow(ss, s) && Frame(s) <= t { FrameReads(s, t); }
    if ScanSection(t, ss) == Ok(s) { FrameBack(t); }
  }

  // ---- prefixes ---------------------------------------------------------------------------------

  predicate IsPrefix(p: Sections, ss: Sections)
  {
    p == ss || (ss.More? && IsPrefix(p, ss.before))
  }

  lemma {:induction false} NextFrame(p: Sections, ss: Sections) returns (s: Section)
    requires Good(ss) && IsPrefix(p, ss) && p != ss
    ensures Good(p) && MayFollow(p, s) && IsPrefix(More(p, s), ss) && Body(p) + Frame(s) <= Body(ss)
  {
    if p == ss.before {
      s := ss.last;
    } else {
      s := NextFrame(p, ss.before);
    }
  }

  lemma {:induction false} PrefixGood(p: Sections, ss: Sections)
    requires Good(ss) && IsPrefix(p, ss)
    ensures Good(p) && Body(p) <= Body(ss)
  {
    if p != ss { PrefixGood(p, ss.before); }
  }

  lemma {:induction false} EmptyPrefix(ss: Sections)
    ensures IsPrefix(Empty, ss)
  {
    if ss.More? { EmptyPrefix(ss.before); }
  }

  /** Framed bytes at the start of a body are sections at its start. */
  lemma {:induction false} PrefixOf(p: Sections, ss: Sections)
    requires Good(p) && Good(ss) && Body(p) <= Body(ss)
    ensures IsPrefix(p, ss)
  {
    match p
    case Empty => EmptyPrefix(ss);
    case More(before, s) =>
      PrefixOf(before, ss);
      var r := NextFrame(before, ss);
      PrefixGood(before, ss);
      AfterPrefix(Body(before), Frame(s), Body(ss));
      AfterPrefix(Body(before), Frame(r), Body(ss));
      FrameReads(s, Body(ss)[|Body(before)|..]);
      FrameReads(r, Body(ss)[|Body(before)|..]);
  }

  lemma BodyInjective(a: Sections, b: Sections)
    requires Good(a) && Good(b) && Body(a) == Body(b)
    ensures a == b
  {
    PrefixOf(a, b);
    if a != b { ShorterPrefix(a, b); }
  }

  lemma {:induction false} ShorterPrefix(p: Sections, ss: Sections)
    requires Good(ss) && IsPrefix(p, ss) && p != ss
    ensures Good(p) && |Body(p)| < |Body(ss)|
  {
    if p != ss.before { ShorterPrefix(p, ss.before); }
  }

  // ---- the parser --------------------------------------------------------------------------------

  /** No container has this body. */
  ghost predicate NoBody(body: bytes)
  {
    forall ss :: Good(ss) ==> Body(ss) != body
  }

  /** The section loop of `Container::parse`. */
  method ScanBody(body: bytes) returns (r: Result<nat, ReadError>, ghost ss: Sections)
    ensures r.Ok? ==> Good(ss) && Body(ss) == body && r.value == Count(ss)
    ensures r.Err? ==> NoBody(body)
  {
    var seen := Empty;
    var offset := 0;
    while offset < |body|
      invariant Good(seen) && Body(seen) <= body && offset == |Body(seen)|
      decreases |body| - offset
    {
      var t := body[offset..];
      var found := ScanSection(t, seen);
      if found.Err? {
        NothingFollows(body, seen, t);
        return Err(found.error), seen;
      }
      ScanExact(t, seen, found.value);
      AfterPrefix(Body(seen), Frame(found.value), body);
      offset := offset + FrameLen(|found.value.contents|);
      seen := More(seen, found.value);
    }
    return Ok(Count(seen)), seen;
  }

  lemma NothingFollows(body: bytes, p: Sections, t: bytes)
    requires Good(p) && Body(p) <= body && |Body(p)| < |body| && t == body[|Body(p)|..] && ScanSection(t, p).Err?
    ensures NoBody(body)
  {
    forall ss | Good(ss) && Body(ss) == body ensures false {
      PrefixOf(p, ss);
      var s := NextFrame(p, ss);
      AfterPrefix(Body(p), Frame(s), body);
      ScanExact(t, p, s);
    }
  }

  lemma HeadReads(version: u16, count: u32, t: bytes)
    ensures var b := FileHead(version, count) + t;
            b[0..6] == MAGIC && GetU16(b[6..8]) == version && GetU32(b[8..12]) == count && b[12..16] == Zeros(4)
            && b[16..] == t
  {
    var b := FileHead(version, count) + t;
    assert b[6..8] == U16(version) && b[8..12] == U32(count);
    U16RoundTrip(version);
    U32RoundTrip(count);
  }

  lemma HeadBack(b: bytes)
    requires |b| >= 16 && b[0..6] == MAGIC && b[12..16] == Zeros(4)
    ensures b == FileHead(GetU16(b[6..8]), GetU32(b[8..12])) + b[16..]
  {
    assert b == b[0..6] + b[6..8] + b[8..12] + b[12..16] + b[16..];
  }

  /** `Container::parse`: total, and accepting exactly the containers. */
  method Parse(b: bytes) returns (r: Result<u16, ReadError>, ghost ss: Sections)
    ensures r.Ok? ==> IsImage(b, r.value, ss)
    ensures r.Err? ==> forall v, qs :: !IsImage(b, v, qs)
  {
    ss := Empty;
    forall v: u16, qs | IsImage(b, v, qs)
      ensures |b| >= 16 && b[0..6] == MAGIC && GetU16(b[6..8]) == v && GetU32(b[8..12]) == Count(qs)
      ensures b[12..16] == Zeros(4) && b[16..] == Body(qs)
    {
      HeadReads(v, Count(qs), Body(qs));
    }
    if |b| < 16 { return Err(TooShort), ss; }
    if b[0..6] != MAGIC { return Err(BadMagic), ss; }
    var version, count := GetU16(b[6..8]), GetU32(b[8..12]);
    if version / 256 != 1 { return Err(UnsupportedVersion(version)), ss; }
    if b[12..16] != Zeros(4) { return Err(NonzeroHeaderPad), ss; }
    var n;
    n, ss := ScanBody(b[16..]);
    if n.Err? { return Err(n.error), ss; }
    if n.value != count {
      forall v: u16, qs | IsImage(b, v, qs) ensures false { BodyInjective(ss, qs); }
      return Err(SectionCountMismatch(count, n.value)), ss;
    }
    HeadBack(b);
    return Ok(version), ss;
  }

  // ---- there are as many sections as tags at most ------------------------------------------------

  ghost function TagsOf(ss: Sections): set<Tag>
  {
    match ss
    case Empty => {}
    case More(before, s) => TagsOf(before) + {s.tag}
  }

  lemma {:induction false} TagsCount(ss: Sections)
    requires Good(ss)
    ensures |TagsOf(ss)| == Count(ss) && TagsOf(ss) <= KNOWN_TAGS && forall t: Tag :: t in TagsOf(ss) <==> HasTag(ss, t)
  {
    if ss.More? { TagsCount(ss.before); }
  }

  lemma {:induction false} SubsetSize<T>(a: set<T>, b: set<T>)
    requires a <= b
    ensures |a| <= |b|
    decreases |a|
  {
    if x :| x in a { SubsetSize(a - {x}, b - {x}); }
  }

  lemma FewSections(ss: Sections)
    requires Good(ss)
    ensures Count(ss) <= 11
  {
    TagsCount(ss);
    SubsetSize(TagsOf(ss), KNOWN_TAGS);
  }

  // ---- the writer --------------------------------------------------------------------------------

  datatype WriteError = SectionTooLong | UnknownSection(tag: Tag) | DuplicateSection(tag: Tag)

  /** The buffer, the count and the tags seen after the sections `ss`. */
  ghost predicate Holding(ss: Sections, buf: bytes, count: nat, seen: seq<Tag>)
  {
    Good(ss) && buf == Zeros(16) + Body(ss) && count == Count(ss) && SameTags(ss, seen)
  }

  ghost predicate SameTags(ss: Sections, seen: seq<Tag>)
  {
    forall t: Tag :: t in seen <==> HasTag(ss, t)
  }

  lemma TagsMore(ss: Sections, seen: seq<Tag>, s: Section)
    requires SameTags(ss, seen)
    ensures SameTags(More(ss, s), seen + [s.tag]) == true
  {}

  lemma HoldMore(ss: Sections, buf: bytes, count: nat, seen: seq<Tag>, s: Section)
    requires Holding(ss, buf, count, seen) && MayFollow(ss, s)
    ensures Holding(More(ss, s), buf + Frame(s), count + 1, seen + [s.tag]) == true
  {
    TagsMore(ss, seen, s);
    Associate(Zeros(16), Body(ss), Frame(s));
  }

  class ContainerWriter {
    var buf: bytes
    var count: nat
    var seen: seq<Tag>
    ghost var ss: Sections

    ghost predicate Valid()
      reads this
    {
      Holding(ss, buf, count, seen) == true  // proved as one fact
    }

    constructor ()
      ensures Valid() && ss == Empty
    {
      buf, count, seen, ss := Zeros(16), 0, [], Empty;
      new;
      assert Zeros(16) + [] == Zeros(16);
    }

    /** `push_section`: append, or fail with nothing changed. */
    method Push(s: Section) returns (e: Option<WriteError>)
      requires Valid()
      modifies this
      ensures Valid()
      ensures e == if s.tag !in KNOWN_TAGS then Some(UnknownSection(s.tag))
                   else if HasTag(old(ss), s.tag) then Some(DuplicateSection(s.tag))
                   else if !Fits(s) then Some(SectionTooLong) else None
      ensures if e.None? then ss == More(old(ss), s) else unchanged(this)
    {
      if s.tag !in KNOWN_TAGS { return Some(UnknownSection(s.tag)); }
      if s.tag in seen { return Some(DuplicateSection(s.tag)); }
      if |s.contents| > U32_MAX { return Some(SectionTooLong); }
      HoldMore(ss, buf, count, seen, s);
      buf := buf + Frame(s);
      seen, count := seen + [s.tag], count + 1;
      ss := More(ss, s);
      return None;
    }

    /** `finish`: fill the header in. */
    method Finish() returns (b: bytes)
      requires Valid()
      ensures IsImage(b, FORMAT_VERSION, ss)
    {
      FewSections(ss);
      b := FileHead(FORMAT_VERSION, count) + buf[16..];
      assert buf[16..] == Body(ss);
    }
  }

  /** Writing the sections that a parse accepted gives the parsed bytes back, up to the minor version. */
  method Rewrite(b: bytes, ghost version: u16, ghost ss: Sections, list: seq<Section>) returns (b': bytes)
    requires IsImage(b, version, ss) && list == ToSeq(ss)
    ensures |b'| == |b| && b'[..6] == b[..6] && b'[8..] == b[8..] && GetU16(b'[6..8]) == FORMAT_VERSION
    ensures IsImage(b', FORMAT_VERSION, ss)
  {
    var w := new ContainerWriter();
    ghost var p := Empty;
    EmptyPrefix(ss);
    SeqCount(ss);
    for i := 0 to |list|
      invariant w.Valid() && fresh(w) && w.ss == p && IsPrefix(p, ss) && Count(p) == i
    {
      ghost var s := NextFrame(p, ss);
      PrefixElement(More(p, s), ss);
      var e := w.Push(list[i]);
      p := More(p, s);
    }
    WholePrefix(p, ss);
    b' := w.Finish();
    HeadReads(version, Count(ss), Body(ss));
    HeadReads(FORMAT_VERSION, Count(ss), Body(ss));
    SameAfterVersion(version, Count(ss), Body(ss));
  }

  lemma SameAfterVersion(version: u16, count: u32, t: bytes)
    ensures var a, b := FileHead(version, count) + t, FileHead(FORMAT_VERSION, count) + t;
            a[..6] == b[..6] && a[8..] == b[8..]
  {
    assert (FileHead(version, count) + t)[8..] == U32(count) + Zeros(4) + t;
    assert (FileHead(FORMAT_VERSION, count) + t)[8..] == U32(count) + Zeros(4) + t;
  }

  function ToSeq(ss: Sections): seq<Section>
  {
    match ss
    case Empty => []
    case More(before, s) => ToSeq(before) + [s]
  }

  lemma {:induction false} SeqCount(ss: Sections)
    ensures |ToSeq(ss)| == Count(ss)
  {
    if ss.More? { SeqCount(ss.before); }
  }

  lemma {:induction false} PrefixElement(p: Sections, ss: Sections)
    requires IsPrefix(p, ss) && p.More?
    ensures Count(p) <= |ToSeq(ss)| && ToSeq(ss)[Count(p) - 1] == p.last
  {
    if p == ss { SeqCount(p.before); } else { PrefixElement(p, ss.before); }
  }

  lemma {:induction false} WholePrefix(p: Sections, ss: Sections)
    requires IsPrefix(p, ss)
    ensures Count(p) <= Count(ss) && (Count(p) == Count(ss) ==> p == ss)
  {
    if p != ss { WholePrefix(p, ss.before); }
  }
}
