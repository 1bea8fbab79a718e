/** The block device's snapshot section (crates/dh-devices/src/blk.rs). */
module BlockSnapshot {
  import opened Common
  import opened Bytes
  import opened BlockDevice

  const SECTION_VERSION: u16 := 1
  const FIXED: nat := 36
  const PER_CLUSTER: nat := 65576

  datatype Registers = Registers(sector: u64, bufGpa: u64, count: u32, status: u32, hostIoErrors: u64)

  datatype Entry = Entry(idx: u64, data: Cluster)

  // ---- the layout ---------------------------------------------------------------------

  /** The number of entries is stored in 32 bits, truncated. */
  function FixedBytes(r: Registers, n: nat): (b: bytes)
    ensures |b| == FIXED
  {
    RegisterBytes(r) + U32(n % 0x1_0000_0000)
  }

  function RegisterBytes(r: Registers): (b: bytes)
    ensures |b| == 32
  {
    U64(r.sector) + U64(r.bufGpa) + U32(r.count) + U32(r.status) + U64(r.hostIoErrors)
  }

  function EntryBytes(h: Hash, e: Entry): (b: bytes)
    ensures |b| == PER_CLUSTER
  {
    U64(e.idx) + h(e.data) + e.data
  }

  function EntriesBytes(h: Hash, es: seq<Entry>, n: nat): (b: bytes)
    requires n <= |es|
    ensures |b| == n * 65576
  {
    if n == 0 then [] else EntriesBytes(h, es, n - 1) + EntryBytes(h, es[n - 1])
  }

  function Section(h: Hash, r: Registers, es: seq<Entry>): bytes
  {
    FixedBytes(r, |es|) + EntriesBytes(h, es, |es|)
  }

  lemma RegisterParts(r: Registers)
    ensures var b := RegisterBytes(r);
            && b[0..8] == U64(r.sector) && b[8..16] == U64(r.bufGpa) && b[16..20] == U32(r.count)
            && b[20..24] == U32(r.status) && b[24..32] == U64(r.hostIoErrors)
  {}

  lemma RegistersInjective(r: Registers, r': Registers)
    requires RegisterBytes(r) == RegisterBytes(r')
    ensures r == r'
  {
    RegisterParts(r);
    RegisterParts(r');
    U64RoundTrip(r.sector); U64RoundTrip(r'.sector);
    U64RoundTrip(r.bufGpa); U64RoundTrip(r'.bufGpa);
    U32RoundTrip(r.count); U32RoundTrip(r'.count);
    U32RoundTrip(r.status); U32RoundTrip(r'.status);
    U64RoundTrip(r.hostIoErrors); U64RoundTrip(r'.hostIoErrors);
  }

  lemma EntryInjective(h: Hash, e: Entry, e': Entry)
    requires EntryBytes(h, e) == EntryBytes(h, e')
    ensures e == e'
  {
    var b := EntryBytes(h, e);
    assert b[..8] == U64(e.idx) && b[..8] == U64(e'.idx);
    assert b[40..] == e.data && b[40..] == e'.data;
    U64RoundTrip(e.idx);
    U64RoundTrip(e'.idx);
  }

  lemma {:induction false} EntriesInjective(h: Hash, es: seq<Entry>, es': seq<Entry>, n: nat)
    requires n <= |es| && n <= |es'| && EntriesBytes(h, es, n) == EntriesBytes(h, es', n)
    ensures es[..n] == es'[..n]
  {
    if n > 0 {
      var a, b := EntriesBytes(h, es, n - 1), EntriesBytes(h, es', n - 1);
      SplitAt(a, EntryBytes(h, es[n - 1]), b, EntryBytes(h, es'[n - 1]));
      EntryInjective(h, es[n - 1], es'[n - 1]);
      EntriesInjective(h, es, es', n - 1);
      assert es[..n] == es[..n - 1] + [es[n - 1]] && es'[..n] == es'[..n - 1] + [es'[n - 1]];
    }
  }

  /** A section determines the registers and the entries, in order. */
  lemma SectionInjective(h: Hash, r: Registers, es: seq<Entry>, r': Registers, es': seq<Entry>)
    requires Section(h, r, es) == Section(h, r', es')
    ensures r == r' && es == es'
  {
    assert |Section(h, r, es)| == 36 + |es| * 65576 && |Section(h, r', es')| == 36 + |es'| * 65576;
    SplitAt(FixedBytes(r, |es|), EntriesBytes(h, es, |es|), FixedBytes(r', |es'|), EntriesBytes(h, es', |es'|));
    SplitAt(RegisterBytes(r), U32(|es| % 0x1_0000_0000), RegisterBytes(r'), U32(|es'| % 0x1_0000_0000));
    RegistersInjective(r, r');
    EntriesInjective(h, es, es', |es|);
    assert es == es[..|es|] && es' == es'[..|es'|];
  }

  // ---- listings of an overlay ------------------------------------------------------------

  predicate Ascending(es: seq<Entry>)
  {
    forall i, j :: 0 <= i < j < |es| ==> es[i].idx < es[j].idx
  }

  /** The map that a section's entries build up, later ones overriding earlier ones. */
  function ToOverlay(es: seq<Entry>, n: nat): Overlay
    requires n <= |es|
  {
    if n == 0 then map[] else ToOverlay(es, n - 1)[es[n - 1].idx := es[n - 1].data]
  }

  ghost predicate IsListing(o: Overlay, es: seq<Entry>)
  {
    && Ascending(es)
    && (forall e :: e in es ==> e.idx in o && e.data == o[e.idx])
    && (forall k :: k in o ==> Entry(k, o[k]) in es)
  }

  lemma ListMore(o: Overlay, es: seq<Entry>, e: Entry)
    requires IsListing(o, es) && forall x :: x in es ==> x.idx < e.idx
    ensures IsListing(o[e.idx := e.data], es + [e]) == true
  {
    var p := o[e.idx := e.data];
    forall k | k in p ensures Entry(k, p[k]) in es + [e] {
      if k != e.idx { assert Entry(k, o[k]) in es; }
    }
  }

  lemma BelowLast(es: seq<Entry>, n: nat)
    requires Ascending(es) && n < |es|
    ensures es[..n + 1] == es[..n] + [es[n]] && forall x :: x in es[..n] ==> x.idx < es[n].idx
  {}

  /** Ascending entries list exactly the overlay they build, with nothing overridden. */
  lemma {:induction false} AscendingLists(es: seq<Entry>, n: nat)
    requires Ascending(es) && n <= |es|
    ensures IsListing(ToOverlay(es, n), es[..n]) == true  // proved as one fact
  {
    if n > 0 {
      AscendingLists(es, n - 1);
      BelowLast(es, n - 1);
      ListMore(ToOverlay(es, n - 1), es[..n - 1], es[n - 1]);
    }
  }

  lemma {:induction false} ListingUnique(o: Overlay, a: seq<Entry>, b: seq<Entry>)
    requires IsListing(o, a) && IsListing(o, b)
    ensures a == b
  {
    forall e ensures e in a <==> e in b {
      if e in a { assert Entry(e.idx, o[e.idx]) in b; }
      if e in b { assert Entry(e.idx, o[e.idx]) in a; }
    }
    SameAscending(a, b, (e: Entry) => e.idx);
  }

  /** A listing rebuilds its overlay. */
  lemma ListingRebuilds(o: Overlay, es: seq<Entry>)
    requires IsListing(o, es)
    ensures ToOverlay(es, |es|) == o
  {
    AscendingLists(es, |es|);
    assert es[..|es|] == es;
    var p := ToOverlay(es, |es|);
    forall k ensures k in o <==> k in p {
      if k in o { assert Entry(k, o[k]) in es; }
      if k in p { assert Entry(k, p[k]) in es; }
    }
    forall k | k in o ensures p[k] == o[k] { assert Entry(k, o[k]) in es; }
  }

  lemma {:induction false} AscendingSize(es: seq<Entry>, n: nat)
    requires Ascending(es) && n <= |es|
    ensures |ToOverlay(es, n)| == n
    ensures forall k :: k in ToOverlay(es, n) ==> n > 0 && k <= es[n - 1].idx
  {
    if n > 0 { AscendingSize(es, n - 1); }
  }

  /** A listing has as many entries as the overlay has clusters. */
  lemma ListingSize(o: Overlay, es: seq<Entry>)
    requires IsListing(o, es)
    ensures |es| == |o|
  {
    ListingRebuilds(o, es);
    AscendingSize(es, |es|);
  }

  // ---- snapshot --------------------------------------------------------------------------------

  predicate AscendingKeys(s: seq<u64>)
  {
    forall i, j :: 0 <= i < j < |s| ==> s[i] < s[j]
  }

  predicate Distinct(s: seq<u64>)
  {
    forall i, j :: 0 <= i < j < |s| ==> s[i] != s[j]
  }

  /** Insert one key into a sorted list. */
  method InsertKey(s: seq<u64>, k: u64) returns (r: seq<u64>)
    requires AscendingKeys(s) && k !in s
    ensures AscendingKeys(r) && forall x :: x in r <==> x in s || x == k
  {
    var i: nat := |s|;
    while i > 0 && s[i - 1] > k
      invariant i <= |s| && forall j :: i <= j < |s| ==> k < s[j]
    {
      i := i - 1;
    }
    r := s[..i] + [k] + s[i..];
    Inserted(s, i, k);
  }

  lemma Inserted(s: seq<u64>, i: nat, k: u64)
    requires AscendingKeys(s) && i <= |s| && k !in s
    requires (i > 0 ==> s[i - 1] <= k) && forall j :: i <= j < |s| ==> k < s[j]
    ensures var r := s[..i] + [k] + s[i..]; AscendingKeys(r) && forall x :: x in r <==> x in s || x == k
  {
    var r := s[..i] + [k] + s[i..];
    forall j | 0 <= j < i ensures s[j] < k { assert s[j] in s && s[j] <= s[i - 1]; }
    assert AscendingKeys(r);
    forall x ensures x in r <==> x in s || x == k {
      assert x in s <==> x in s[..i] || x in s[i..] by { assert s == s[..i] + s[i..]; }
    }
  }

  /** The keys of a hash map come in any order; sorting makes one order of them. */
  method SortKeys(order: seq<u64>) returns (r: seq<u64>)
    requires Distinct(order)
    ensures AscendingKeys(r) && forall x :: x in r <==> x in order
  {
    r := [];
    for i := 0 to |order|
      invariant AscendingKeys(r) && forall x :: x in r <==> x in order[..i]
    {
      assert order[i] !in order[..i];
      r := InsertKey(r, order[i]);
      assert order[..i + 1] == order[..i] + [order[i]];
    }
    assert order[..|order|] == order;
  }

  /** `snapshot`, appended to `out`. `order` is the order in which the map happens to yield its keys. */
  method Snapshot(h: Hash, regs: Registers, overlay: Overlay, order: seq<u64>, out0: bytes)
    returns (out: bytes, ghost es: seq<Entry>)
    requires Distinct(order) && forall k :: k in order <==> k in overlay
    ensures IsListing(overlay, es) && out == out0 + Section(h, regs, es)
    ensures out0 <= out && |out| == |out0| + 36 + |overlay| * 65576
  {
    var idxs := SortKeys(order);
    es := Listing(overlay, idxs);
    out := out0 + FixedBytes(regs, |idxs|);
    ghost var head := out;
    for i := 0 to |idxs|
      invariant out == head + EntriesBytes(h, es, i)
    {
      var entry := EntryBytes(h, Entry(idxs[i], overlay[idxs[i]]));
      Associate(head, EntriesBytes(h, es, i), entry);
      out := out + entry;
    }
    Snapshotted(h, regs, overlay, es, out0, out);
  }

  lemma Snapshotted(h: Hash, regs: Registers, overlay: Overlay, es: seq<Entry>, out0: bytes, out: bytes)
    requires IsListing(overlay, es) && out == (out0 + FixedBytes(regs, |es|)) + EntriesBytes(h, es, |es|)
    ensures out == out0 + Section(h, regs, es) && out0 <= out && |out| == |out0| + 36 + |overlay| * 65576
  {
    Associate(out0, FixedBytes(regs, |es|), EntriesBytes(h, es, |es|));
    ListingSize(overlay, es);
  }

  ghost function Listing(overlay: Overlay, idxs: seq<u64>): (es: seq<Entry>)
    requires AscendingKeys(idxs) && forall k :: k in idxs <==> k in overlay
    ensures |es| == |idxs| && forall i :: 0 <= i < |es| ==> es[i] == Entry(idxs[i], overlay[idxs[i]])
    ensures IsListing(overlay, es)
  {
    var es := seq(|idxs|, i requires 0 <= i < |idxs| => Entry(idxs[i], overlay[idxs[i]]));
    assert forall k :: k in overlay ==> Entry(k, overlay[k]) in es by {
      forall k | k in overlay ensures Entry(k, overlay[k]) in es {
        var i :| 0 <= i < |idxs| && idxs[i] == k;
        assert es[i] == Entry(k, overlay[k]);
      }
    }
    es
  }

  /** The bytes do not depend on the order in which the map yields its keys. */
  method SnapshotTwice(h: Hash, regs: Registers, overlay: Overlay, order1: seq<u64>, order2: seq<u64>)
    returns (a: bytes, b: bytes)
    requires Distinct(order1) && (forall k :: k in order1 <==> k in overlay)
    requires Distinct(order2) && (forall k :: k in order2 <==> k in overlay)
    ensures a == b
  {
    ghost var es1, es2;
    a, es1 := Snapshot(h, regs, overlay, order1, []);
    b, es2 := Snapshot(h, regs, overlay, order2, []);
    ListingUnique(overlay, es1, es2);
  }

  // ---- restore --------------------------------------------------------------------------------

  datatype Restored = Restored(regs: Registers, overlay: Overlay)

  /** `b` is a section of at most 2^32 - 1 entries. */
  ghost predicate IsSection(h: Hash, b: bytes)
  {
    exists r: Registers, es: seq<Entry> :: |es| <= U32_MAX && b == Section(h, r, es)
  }

  function EntryAt(b: bytes, i: nat): (e: bytes)
    requires 36 + (i + 1) * 65576 <= |b|
    ensures |e| == PER_CLUSTER
  {
    b[36 + i * 65576..36 + (i + 1) * 65576]
  }

  /** A section's size and its count field both tell the number of its entries. */
  lemma SectionHead(h: Hash, r: Registers, es: seq<Entry>)
    requires |es| <= U32_MAX
    ensures var b := Section(h, r, es); |b| == 36 + |es| * 65576 && GetU32(b[32..36]) == |es|
  {
    var n, t := |es|, EntriesBytes(h, es, |es|);
    assert n % 0x1_0000_0000 == n;
    CountField(RegisterBytes(r), U32(n), t);
    U32RoundTrip(n);
  }

  lemma CountField(a: bytes, n: bytes, t: bytes)
    requires |a| == 32 && |n| == 4
    ensures ((a + n) + t)[32..36] == n
  {}

  lemma {:induction false} EntryOfEntries(h: Hash, es: seq<Entry>, n: nat, i: nat)
    requires i < n <= |es|
    ensures EntriesBytes(h, es, n)[i * 65576..(i + 1) * 65576] == EntryBytes(h, es[i])
  {
    if i < n - 1 {
      EntryOfEntries(h, es, n - 1, i);
      assert EntriesBytes(h, es, n)[i * 65576..(i + 1) * 65576] == EntriesBytes(h, es,
                                                                                n - 1)[i * 65576..(i + 1) * 65576];
    }
  }

  lemma SectionEntry(h: Hash, r: Registers, es: seq<Entry>, i: nat)
    requires i < |es|
    ensures var b := Section(h, r, es); 36 + (i + 1) * 65576 <= |b| && EntryAt(b, i) == EntryBytes(h, es[i])
  {
    EntryOfEntries(h, es, |es|, i);
    var b := Section(h, r, es);
    assert b[36..] == EntriesBytes(h, es, |es|);
    assert EntryAt(b, i) == b[36..][i * 65576..(i + 1) * 65576];
  }

  /** The entry read at `i`, whether or not its digest is right. */
  function EntryOf(b: bytes, i: nat): Entry
    requires 36 + (i + 1) * 65576 <= |b|
  {
    Entry(GetU64(EntryAt(b, i)[..8]), EntryAt(b, i)[40..])
  }

  /** The entry read at `i` is there in the layout, digest and all. */
  predicate EntryRight(h: Hash, b: bytes, i: nat)
    requires 36 + (i + 1) * 65576 <= |b|
  {
    EntryAt(b, i) == EntryBytes(h, EntryOf(b, i))
  }

  method ReadEntry(h: Hash, b: bytes, i: nat) returns (e: Option<Entry>)
    requires 36 + (i + 1) * 65576 <= |b|
    ensures e == if EntryRight(h, b, i) then Some(EntryOf(b, i)) else None
  {
    var x := EntryAt(b, i);
    var idx, digest, data := GetU64(x[..8]), x[8..40], x[40..];
    assert x == x[..8] + digest + data;
    if h(data) != digest {
      assert EntryBytes(h, EntryOf(b, i))[8..40] == h(data);
      return None;
    }
    return Some(Entry(idx, data));
  }

  function EntriesOf(b: bytes, n: nat): (es: seq<Entry>)
    requires 36 + n * 65576 <= |b|
    ensures |es| == n && forall i :: 0 <= i < n ==> es[i] == EntryOf(b, i)
  {
    if n == 0 then [] else EntriesOf(b, n - 1) + [EntryOf(b, n - 1)]
  }

  lemma SplitRange(b: bytes, lo: nat, mid: nat, hi: nat)
    requires lo <= mid <= hi <= |b|
    ensures b[lo..hi] == b[lo..mid] + b[mid..hi]
  {}

  /** Right entries make up the body of a section. */
  lemma {:induction false} RightEntries(h: Hash, b: bytes, es: seq<Entry>, n: nat)
    requires n <= |es| && 36 + |es| * 65576 <= |b| && es == EntriesOf(b, |es|)
    requires forall i :: 0 <= i < n ==> EntryRight(h, b, i)
    ensures b[36..36 + n * 65576] == EntriesBytes(h, es, n)
  {
    if n > 0 {
      RightEntries(h, b, es, n - 1);
      assert EntryRight(h, b, n - 1) && es[n - 1] == EntryOf(b, n - 1);
      SplitRange(b, 36, 36 + (n - 1) * 65576, 36 + n * 65576);
    }
  }

  function RegistersOf(b: bytes): (r: Registers)
    requires |b| >= 36
  {
    Registers(GetU64(b[0..8]), GetU64(b[8..16]), GetU32(b[16..20]), GetU32(b[20..24]), GetU64(b[24..32]))
  }

  lemma HeadRight(b: bytes)
    requires |b| >= 36
    ensures b[..36] == FixedBytes(RegistersOf(b), GetU32(b[32..36]))
  {
    assert b[..32] == b[0..8] + b[8..16] + b[16..20] + b[20..24] + b[24..32];
    assert b[..36] == b[..32] + b[32..36];
  }

  /** The entry loop of `restore`. */
  method RestoreEntries(h: Hash, b: bytes, n: nat) returns (r: Option<Overlay>)
    requires |b| == 36 + n * 65576
    ensures r.None? ==> exists i :: 0 <= i < n && !EntryRight(h, b, i)
    ensures r.Some? ==> r.value == ToOverlay(EntriesOf(b, n), n) && forall i :: 0 <= i < n ==> EntryRight(h, b, i)
  {
    ghost var es := EntriesOf(b, n);
    var overlay: Overlay := map[];
    for i := 0 to n
      invariant overlay == ToOverlay(es, i)
      invariant forall j :: 0 <= j < i ==> EntryRight(h, b, j)
    {
      var e := ReadEntry(h, b, i);
      if e.None? { return None; }
      overlay := overlay[e.value.idx := e.value.data];
    }
    return Some(overlay);
  }

  /** `restore`; nothing is assigned unless all of the section is right. */
  method Restore(h: Hash, b: bytes, version: u16) returns (r: Option<Restored>, ghost es: seq<Entry>)
    ensures r.Some? <==> version == SECTION_VERSION && IsSection(h, b)
    ensures r.Some? ==> |es| <= U32_MAX && b == Section(h, r.value.regs, es) && r.value.overlay == ToOverlay(es, |es|)
  {
    es := [];
    if version != SECTION_VERSION { return None, es; }
    if |b| < FIXED { NotASection(h, b); return None, es; }
    var n: nat := GetU32(b[32..36]);
    if |b| != 36 + n * 65576 { NotASection(h, b); return None, es; }
    var overlay := RestoreEntries(h, b, n);
    if overlay.None? { NotAnEntry(h, b); return None, es; }
    es := EntriesOf(b, n);
    HeadRight(b);
    RightSection(h, b, RegistersOf(b), es);
    return Some(Restored(RegistersOf(b), overlay.value)), es;
  }

  lemma RightSection(h: Hash, b: bytes, r: Registers, es: seq<Entry>)
    requires |b| == 36 + |es| * 65576 && b[..36] == FixedBytes(r, |es|) && es == EntriesOf(b, |es|)
    requires forall i :: 0 <= i < |es| ==> EntryRight(h, b, i)
    ensures b == Section(h, r, es)
  {
    RightEntries(h, b, es, |es|);
    HeadAndBody(b, |es| * 65576);
  }

  lemma HeadAndBody(b: bytes, n: nat)
    requires |b| == 36 + n
    ensures b == b[..36] + b[36..36 + n]
  {}

  lemma NotASection(h: Hash, b: bytes)
    requires |b| < 36 || |b| != 36 + GetU32(b[32..36]) * 65576
    ensures !IsSection(h, b)
  {
    forall r: Registers, es: seq<Entry> | |es| <= U32_MAX ensures b != Section(h, r, es) {
      SectionHead(h, r, es);
    }
  }

  lemma NotAnEntry(h: Hash, b: bytes)
    requires |b| >= 36 && |b| == 36 + GetU32(b[32..36]) * 65576
    requires exists i :: 0 <= i < GetU32(b[32..36]) && !EntryRight(h, b, i)
    ensures !IsSection(h, b)
  {
    var i :| 0 <= i < GetU32(b[32..36]) && !EntryRight(h, b, i);
    forall r: Registers, es: seq<Entry> | |es| <= U32_MAX ensures b != Section(h, r, es) {
      SectionHead(h, r, es);
      if b == Section(h, r, es) { EntriesAreRight(h, r, es, i); }
    }
  }

  lemma EntriesAreRight(h: Hash, r: Registers, es: seq<Entry>, i: nat)
    requires i < |es|
    ensures var b := Section(h, r, es); 36 + (i + 1) * 65576 <= |b| && EntryRight(h, b, i)
  {
    SectionEntry(h, r, es, i);
    var x := EntryBytes(h, es[i]);
    U64RoundTrip(es[i].idx);
    assert x[..8] == U64(es[i].idx) && x[40..] == es[i].data;
  }

  // ---- round trips ----------------------------------------------------------------------------

  /** A snapshot restores to the device it was taken of, provided that the overlay has fewer than 2^32
      clusters; otherwise it does not restore at all. */
  method SnapshotThenRestore(h: Hash, regs: Registers, overlay: Overlay, order: seq<u64>)
    returns (b: bytes, r: Option<Restored>)
    requires Distinct(order) && forall k :: k in order <==> k in overlay
    ensures r == if |overlay| < 0x1_0000_0000 then Some(Restored(regs, overlay)) else None
  {
    ghost var es, es';
    b, es := Snapshot(h, regs, overlay, order, []);
    ListingSize(overlay, es);
    ListingRebuilds(overlay, es);
    r, es' := Restore(h, b, SECTION_VERSION);
    if r.Some? {
      SectionInjective(h, regs, es, r.value.regs, es');
    }
  }

  /** A restored section snapshots to itself exactly when its indices ascend strictly. */
  method RestoreThenSnapshot(h: Hash, b: bytes, order: seq<u64>) returns (r: Option<Restored>, b': bytes,
                                                                          ghost es: seq<Entry>)
    ensures r.Some? <==> IsSection(h, b)
    ensures r.Some? ==> b == Section(h, r.value.regs, es) && r.value.overlay == ToOverlay(es, |es|)
    ensures r.Some? && Distinct(order) && (forall k :: k in order <==> k in r.value.overlay) ==>
              (b' == b <==> Ascending(es))
  {
    r, es := Restore(h, b, SECTION_VERSION);
    b' := b;
    if r.None? || !Distinct(order) || !((set k | k in order) == r.value.overlay.Keys) { return; }
    ghost var es';
    b', es' := Snapshot(h, r.value.regs, r.value.overlay, order, []);
    if Ascending(es) {
      AscendingLists(es, |es|);
      assert es[..|es|] == es;
      ListingUnique(r.value.overlay, es, es');
    } else if b' == b {
      SectionInjective(h, r.value.regs, es, r.value.regs, es');
    }
  }

  /** Two clusters in descending order: the section restores, and snapshots to other bytes. */
  method RestoresReordered(h: Hash) returns (b: bytes, r: Option<Restored>, b': bytes)
    ensures r.Some? && b' != b
  {
    var regs := Registers(0, 0, 0, 0, 0);
    var z: Cluster := Zeros(CLUSTER_SIZE);
    var es := [Entry(1, z), Entry(0, z)];
    b := Section(h, regs, es);
    ghost var es';
    r, b', es' := RestoreThenSnapshot(h, b, [0, 1]);
    assert IsSection(h, b);
    SectionInjective(h, regs, es, r.value.regs, es');
    assert es[0].idx == 1 && es[1].idx == 0;
    assert ToOverlay(es, 1) == map[][1 := z] && ToOverlay(es, 2) == ToOverlay(es, 1)[0 := z];
    assert forall k: u64 :: k in [0, 1] <==> k == 0 || k == 1;
  }

  /** The first `n` clusters. */
  function FirstClusters(n: nat): (o: Overlay)
    requires n <= U64_MAX
    ensures |o| == n && forall k: u64 :: k in o <==> k < n
  {
    if n == 0 then map[] else FirstClusters(n - 1)[n - 1 := Zeros(CLUSTER_SIZE)]
  }

  /** 2^32 clusters: the snapshot does not restore. */
  method SnapshotsUnrestorable(h: Hash) returns (b: bytes, r: Option<Restored>)
    ensures r.None?
  {
    var n: nat := 0x1_0000_0000;
    var order: seq<u64> := seq(n, i requires 0 <= i < n => i);
    forall k: u64 | k in FirstClusters(n) ensures k in order { assert order[k] == k; }
    b, r := SnapshotThenRestore(h, Registers(0, 0, 0, 0, 0), FirstClusters(n), order);
  }
}
