/** The state-hash chain: its value stands for the whole execution history
    (crates/dh-vmm/src/hash.rs). */
module StateHash {
  import opened Common
  import opened Bytes

  const PAGE_SIZE: nat := 4096

  const DOMAIN: bytes := [100, 104, 45, 115, 116, 97, 116, 101, 104, 97, 115, 104, 45, 118, 49]  // "dh-statehash-v1"

  datatype PageImage = PageImage(idx: u64, data: bytes)

  type Page = p: PageImage | |p.data| == PAGE_SIZE witness PageImage(0, seq(PAGE_SIZE, _ => 0))

  /** Everything one link commits to. */
  datatype Link = Link(blob: bytes, sections: bytes, pages: seq<Page>, icount: u64, vns: u64)

  /** The source's assertions on a link, and the width of its two length prefixes. */
  predicate ValidLink(l: Link)
  {
    && |l.blob| <= U64_MAX && |l.sections| <= U64_MAX
    && forall i, j :: 0 <= i < j < |l.pages| ==> l.pages[i].idx < l.pages[j].idx
  }

  function PageBytes(p: Page): bytes { U64(p.idx) + p.data }

  function PagesBytes(ps: seq<Page>): (b: bytes)
    ensures |b| == (8 + PAGE_SIZE) * |ps|
  {
    if |ps| == 0 then [] else PagesBytes(ps[..|ps| - 1]) + PageBytes(ps[|ps| - 1])
  }

  function Prefixed(b: bytes): bytes
    requires |b| <= U64_MAX
  {
    U64(|b|) + b
  }

  /** What is hashed for one link after the chain value `v`. */
  function Preimage(v: Digest, l: Link): bytes
    requires ValidLink(l)
  {
    v + (Prefixed(l.blob) + (Prefixed(l.sections) + (PagesBytes(l.pages) + (U64(l.icount) + U64(l.vns)))))
  }

  function SeedPreimage(config: Digest, base: Digest): bytes
  {
    DOMAIN + config + base
  }

  predicate ValidLinks(ls: seq<Link>)
  {
    forall i :: 0 <= i < |ls| ==> ValidLink(ls[i])
  }

  /** The chain value after a history. */
  function ChainValue(h: Hash, config: Digest, base: Digest, ls: seq<Link>): Digest
    requires ValidLinks(ls)
  {
    if |ls| == 0 then h(SeedPreimage(config, base))
    else h(Preimage(ChainValue(h, config, base, ls[..|ls| - 1]), ls[|ls| - 1]))
  }

  // ---- the preimage is unambiguous ----------------------------------------------

  lemma PrefixedSplit(a: bytes, b: bytes, c: bytes, d: bytes)
    requires |a| <= U64_MAX && |c| <= U64_MAX
    requires Prefixed(a) + b == Prefixed(c) + d
    ensures a == c && b == d
  {
    assert Prefixed(a) + b == U64(|a|) + (a + b);
    assert Prefixed(c) + d == U64(|c|) + (c + d);
    SplitAt(U64(|a|), a + b, U64(|c|), c + d);
    U64RoundTrip(|a|);
    U64RoundTrip(|c|);
    SplitAt(a, b, c, d);
  }

  lemma {:induction false} PagesInjective(ps: seq<Page>, qs: seq<Page>)
    requires PagesBytes(ps) == PagesBytes(qs)
    ensures ps == qs
    decreases |ps|
  {
    assert |ps| == |qs|;
    if |ps| > 0 {
      var n := |ps| - 1;
      SplitAt(PagesBytes(ps[..n]), PageBytes(ps[n]), PagesBytes(qs[..n]), PageBytes(qs[n]));
      PagesInjective(ps[..n], qs[..n]);
      SplitAt(U64(ps[n].idx), ps[n].data, U64(qs[n].idx), qs[n].data);
      U64RoundTrip(ps[n].idx);
      U64RoundTrip(qs[n].idx);
      assert ps == ps[..n] + [ps[n]] && qs == qs[..n] + [qs[n]];
    }
  }

  lemma TailSplit(a: bytes, b: bytes, c: bytes, d: bytes)
    requires a + b == c + d && |b| == |d|
    ensures a == c && b == d
  {
    assert |a| == |c|;
    SplitAt(a, b, c, d);
  }

  lemma PreimageInjective(v: Digest, l: Link, w: Digest, m: Link)
    requires ValidLink(l) && ValidLink(m) && Preimage(v, l) == Preimage(w, m)
    ensures v == w && l == m
  {
    var tl, tm := U64(l.icount) + U64(l.vns), U64(m.icount) + U64(m.vns);
    var pl, pm := PagesBytes(l.pages) + tl, PagesBytes(m.pages) + tm;
    var sl, sm := Prefixed(l.sections) + pl, Prefixed(m.sections) + pm;
    SplitAt(v, Prefixed(l.blob) + sl, w, Prefixed(m.blob) + sm);
    PrefixedSplit(l.blob, sl, m.blob, sm);
    PrefixedSplit(l.sections, pl, m.sections, pm);
    TailSplit(PagesBytes(l.pages), tl, PagesBytes(m.pages), tm);
    PagesInjective(l.pages, m.pages);
    SplitAt(U64(l.icount), U64(l.vns), U64(m.icount), U64(m.vns));
    U64RoundTrip(l.icount);
    U64RoundTrip(m.icount);
    U64RoundTrip(l.vns);
    U64RoundTrip(m.vns);
  }

  /** Comparing chain values compares histories: equal values after equally many links mean equal
      configurations, equal bases and equal links, or else a collision of the hash, exhibited. */
  lemma {:induction false} ChainIdentifies(h: Hash, config1: Digest, base1: Digest, ls1: seq<Link>,
                                           config2: Digest, base2: Digest, ls2: seq<Link>)
    returns (x: bytes, y: bytes)
    requires ValidLinks(ls1) && ValidLinks(ls2) && |ls1| == |ls2|
    requires ChainValue(h, config1, base1, ls1) == ChainValue(h, config2, base2, ls2)
    ensures (config1 == config2 && base1 == base2 && ls1 == ls2) || Collides(h, x, y)
    decreases |ls1|
  {
    if |ls1| == 0 {
      x, y := SeedPreimage(config1, base1), SeedPreimage(config2, base2);
      if x == y {
        SplitAt(DOMAIN + config1, base1, DOMAIN + config2, base2);
        SplitAt(DOMAIN, config1, DOMAIN, config2);
      }
    } else {
      var n := |ls1| - 1;
      var v, w := ChainValue(h, config1, base1, ls1[..n]), ChainValue(h, config2, base2, ls2[..n]);
      x, y := Preimage(v, ls1[n]), Preimage(w, ls2[n]);
      if x == y {
        PreimageInjective(v, ls1[n], w, ls2[n]);
        x, y := ChainIdentifies(h, config1, base1, ls1[..n], config2, base2, ls2[..n]);
        assert ls1 == ls1[..n] + [ls1[n]] && ls2 == ls2[..n] + [ls2[n]];
      }
    }
  }

  // ---- the chain object ------------------------------------------------------------

  /** All pages of a memory, ascending. */
  function AllPages(mem: seq<bytes>): (ps: seq<Page>)
    requires |mem| <= U64_MAX && forall i :: 0 <= i < |mem| ==> |mem[i]| == PAGE_SIZE
    ensures |ps| == |mem| && forall i :: 0 <= i < |mem| ==> ps[i] == PageImage(i, mem[i])
  {
    seq(|mem|, i requires 0 <= i < |mem| => PageImage(i, mem[i]))
  }

  class StateHashChain {
    const h: Hash
    var value: Digest
    ghost const config: Digest
    ghost const base: Digest
    ghost var links: seq<Link>

    /** The value commits to the links pushed so far. */
    ghost predicate Valid()
      reads this
    {
      ValidLinks(links) && value == ChainValue(h, config, base, links)
    }

    constructor (h: Hash, config: Digest, base: Digest)
      ensures Valid() && links == [] && this.h == h && this.config == config && this.base == base
    {
      this.h, this.config, this.base := h, config, base;
      value := h(SeedPreimage(config, base));
      links := [];
    }

    /** `push_link`: the streaming hasher is the buffer of what it has been fed. */
    method PushLink(l: Link)
      requires Valid() && ValidLink(l)
      modifies this
      ensures Valid() && links == old(links) + [l]
    {
      var fed := FeedPages(value + Prefixed(l.blob) + Prefixed(l.sections), l.pages);
      Feed(fed + U64(l.icount) + U64(l.vns), l);
    }

    /** `push_final_link`: the same link, walking the whole of memory. */
    method PushFinalLink(blob: bytes, sections: bytes, mem: seq<bytes>, icount: u64, vns: u64)
      requires Valid() && |blob| <= U64_MAX && |sections| <= U64_MAX
      requires |mem| <= U64_MAX && forall i :: 0 <= i < |mem| ==> |mem[i]| == PAGE_SIZE
      modifies this
      ensures Valid() && links == old(links) + [Link(blob, sections, AllPages(mem), icount, vns)]
    {
      var fed := FeedMemory(value + Prefixed(blob) + Prefixed(sections), mem);
      Feed(fed + U64(icount) + U64(vns), Link(blob, sections, AllPages(mem), icount, vns));
    }

    method Feed(fed: bytes, ghost l: Link)
      requires Valid() && ValidLink(l)
      requires fed == value + Prefixed(l.blob) + Prefixed(l.sections) + PagesBytes(l.pages) + U64(l.icount) + U64(l.vns)
      modifies this
      ensures Valid() && links == old(links) + [l]
    {
      FedIsPreimage(value, l, fed);
      ChainMore(h, config, base, links, l);
      links := links + [l];
      value := h(fed);
    }
  }

  lemma FedIsPreimage(v: Digest, l: Link, fed: bytes)
    requires ValidLink(l)
    requires fed == v + Prefixed(l.blob) + Prefixed(l.sections) + PagesBytes(l.pages) + U64(l.icount) + U64(l.vns)
    ensures fed == Preimage(v, l)
  {
    Reassociate(v, Prefixed(l.blob), Prefixed(l.sections), PagesBytes(l.pages), U64(l.icount), U64(l.vns));
  }

  lemma ChainMore(h: Hash, config: Digest, base: Digest, ls: seq<Link>, l: Link)
    requires ValidLinks(ls) && ValidLink(l)
    ensures ValidLinks(ls + [l])
    ensures ChainValue(h, config, base, ls + [l]) == h(Preimage(ChainValue(h, config, base, ls), l))
  {
    assert (ls + [l])[..|ls|] == ls;
  }

  lemma Reassociate(a: bytes, b: bytes, c: bytes, d: bytes, e: bytes, f: bytes)
    ensures a + b + c + d + e + f == a + (b + (c + (d + (e + f))))
  {}

  lemma Regroup(a: bytes, b: bytes, c: bytes, d: bytes)
    ensures a + b + c + d == a + (b + (c + d))
  {}

  method FeedPages(fed0: bytes, pages: seq<Page>) returns (fed: bytes)
    ensures fed == fed0 + PagesBytes(pages)
  {
    fed := fed0;
    for i := 0 to |pages|
      invariant fed == fed0 + PagesBytes(pages[..i])
    {
      PagesStep(pages, i);
      Regroup(fed0, PagesBytes(pages[..i]), U64(pages[i].idx), pages[i].data);
      fed := fed + U64(pages[i].idx) + pages[i].data;
    }
    assert pages[..|pages|] == pages;
  }

  method FeedMemory(fed0: bytes, mem: seq<bytes>) returns (fed: bytes)
    requires |mem| <= U64_MAX && forall i :: 0 <= i < |mem| ==> |mem[i]| == PAGE_SIZE
    ensures fed == fed0 + PagesBytes(AllPages(mem))
  {
    fed := fed0;
    ghost var pages := AllPages(mem);
    for i := 0 to |mem|
      invariant fed == fed0 + PagesBytes(pages[..i])
    {
      PagesStep(pages, i);
      Regroup(fed0, PagesBytes(pages[..i]), U64(pages[i].idx), pages[i].data);
      fed := fed + U64(i) + mem[i];
    }
    assert pages[..|mem|] == pages;
  }

  lemma PagesStep(ps: seq<Page>, i: nat)
    requires i < |ps|
    ensures PagesBytes(ps[..i + 1]) == PagesBytes(ps[..i]) + (U64(ps[i].idx) + ps[i].data)
  {
    assert ps[..i + 1][..i] == ps[..i];
  }

  // ---- device sections -----------------------------------------------------------

  datatype Section = Section(id: u16, version: u16, contents: bytes)

  function SectionBytes(s: Section): bytes
    requires |s.contents| <= U32_MAX
  {
    U16(s.id) + (U16(s.version) + (U32(|s.contents|) + s.contents))
  }

  predicate ValidSections(ss: seq<Section>)
  {
    forall i :: 0 <= i < |ss| ==> |ss[i].contents| <= U32_MAX
  }

  /** The framed sections of all devices, in bus order. */
  function SectionsBytes(ss: seq<Section>): bytes
    requires ValidSections(ss)
  {
    if |ss| == 0 then [] else SectionBytes(ss[0]) + SectionsBytes(ss[1..])
  }

  /** `device_sections`: one frame after the other. */
  method DeviceSections(ss: seq<Section>) returns (out: bytes)
    requires ValidSections(ss)
    ensures out == SectionsBytes(ss)
    ensures forall ts :: ValidSections(ts) && SectionsBytes(ts) == out ==> ts == ss
  {
    out := [];
    for i := 0 to |ss|
      invariant out + SectionsBytes(ss[i..]) == SectionsBytes(ss)
    {
      var s := ss[i];
      assert ss[i..][1..] == ss[i + 1..];
      Associate(out, SectionBytes(s), SectionsBytes(ss[i + 1..]));
      out := FeedSection(out, s);
    }
    forall ts | ValidSections(ts) && SectionsBytes(ts) == out ensures ts == ss {
      SectionsInjective(ts, ss);
    }
  }

  method FeedSection(out0: bytes, s: Section) returns (out: bytes)
    requires |s.contents| <= U32_MAX
    ensures out == out0 + SectionBytes(s)
  {
    out := out0 + U16(s.id) + U16(s.version) + U32(|s.contents|) + s.contents;
    Regroup(out0, U16(s.id), U16(s.version), U32(|s.contents|) + s.contents);
    Associate(out0 + U16(s.id) + U16(s.version), U32(|s.contents|), s.contents);
  }

  lemma SectionSplit(s: Section, a: bytes, t: Section, b: bytes)
    requires |s.contents| <= U32_MAX && |t.contents| <= U32_MAX
    requires SectionBytes(s) + a == SectionBytes(t) + b
    ensures s == t && a == b
  {
    var sv, tv := U32(|s.contents|) + s.contents + a, U32(|t.contents|) + t.contents + b;
    assert SectionBytes(s) + a == U16(s.id) + (U16(s.version) + sv);
    assert SectionBytes(t) + b == U16(t.id) + (U16(t.version) + tv);
    SplitAt(U16(s.id), U16(s.version) + sv, U16(t.id), U16(t.version) + tv);
    SplitAt(U16(s.version), sv, U16(t.version), tv);
    assert sv == U32(|s.contents|) + (s.contents + a) && tv == U32(|t.contents|) + (t.contents + b);
    SplitAt(U32(|s.contents|), s.contents + a, U32(|t.contents|), t.contents + b);
    U32RoundTrip(|s.contents|);
    U32RoundTrip(|t.contents|);
    SplitAt(s.contents, a, t.contents, b);
    U16RoundTrip(s.id);
    U16RoundTrip(t.id);
    U16RoundTrip(s.version);
    U16RoundTrip(t.version);
  }

  /** The framing is unambiguous: equal section bytes come from equal device states. */
  lemma {:induction false} SectionsInjective(ss: seq<Section>, ts: seq<Section>)
    requires ValidSections(ss) && ValidSections(ts) && SectionsBytes(ss) == SectionsBytes(ts)
    ensures ss == ts
    decreases |ss|
  {
    if |ss| > 0 && |ts| > 0 {
      SectionSplit(ss[0], SectionsBytes(ss[1..]), ts[0], SectionsBytes(ts[1..]));
      SectionsInjective(ss[1..], ts[1..]);
      assert ss == [ss[0]] + ss[1..] && ts == [ts[0]] + ts[1..];
    }
  }
}
