/** The detchannel host: attachment, pending queries, and their snapshot (crates/dh-devices/src/detchannel.rs). */
module DetChannel {
  import opened Common
  import opened Evtc

  const CHANNEL_SIZE_PAGES: u32 := 512

  /** What the host uses of an attached channel: its producer sequence numbers and interned names. */
  datatype Channel = Channel(seqC: u32, seqI: u32, names: map<u32, bytes>)

  datatype GuestEvent = InjectQuery(iseq: u32, nameId: u32) | OtherEvent

  /** What guest memory holds at a base address: a channel, or the status that an attach fails with. */
  type Memory = u64 -> Result<Channel, u32>

  /** Attach failures are one of two statuses, and names are text of a length that fits. */
  ghost predicate Plausible(utf8: bytes -> bool, mem: Memory)
  {
    forall gpa: u64 {:trigger mem(gpa)} ::
      match mem(gpa)
      case Ok(c) => NamesOk(utf8, c.names)
      case Err(s) => s == INIT_BAD_GPA || s == INIT_BAD_MAGIC_VERSION
  }

  ghost predicate NamesOk(utf8: bytes -> bool, names: map<u32, bytes>)
  {
    forall k :: k in names ==> |names[k]| < NAME_ABSENT && utf8(names[k])
  }

  // ---- pending queries as a map and as a list ---------------------------------------------

  ghost predicate PendingOk(utf8: bytes -> bool, m: map<u32, Pending>)
  {
    forall k :: k in m ==> NameOk(utf8, m[k])
  }

  ghost predicate SubMap(a: map<u32, Pending>, b: map<u32, Pending>)
  {
    forall k :: k in a ==> k in b && a[k] == b[k]
  }

  function ToMap(es: seq<Entry>): (m: map<u32, Pending>)
  {
    if |es| == 0 then map[] else ToMap(es[1..])[es[0].iseq := es[0].pending]
  }

  lemma {:induction false} KeysAbove(es: seq<Entry>, prev: int)
    requires AscendingFrom(prev, es)
    ensures forall k :: k in ToMap(es) ==> prev < k
    decreases |es|
  {
    if |es| > 0 { KeysAbove(es[1..], es[0].iseq); }
  }

  /** The keys ascend strictly, so a map has one list only. */
  lemma {:induction false} ListUnique(a: seq<Entry>, b: seq<Entry>, prev: int)
    requires AscendingFrom(prev, a) && AscendingFrom(prev, b) && ToMap(a) == ToMap(b)
    ensures a == b
    decreases |a|
  {
    assert |a| > 0 ==> a[0].iseq in ToMap(a);
    assert |b| > 0 ==> b[0].iseq in ToMap(b);
    if |a| > 0 && |b| > 0 {
      KeysAbove(a[1..], a[0].iseq);
      KeysAbove(b[1..], b[0].iseq);
      assert a[0].iseq in ToMap(b) && b[0].iseq in ToMap(a);
      assert a[0].iseq == b[0].iseq;
      assert a[0] == b[0];
      var k := a[0].iseq;
      assert ToMap(a[1..]) == ToMap(a) - {k} && ToMap(b[1..]) == ToMap(b) - {k};
      ListUnique(a[1..], b[1..], k);
      assert a == [a[0]] + a[1..] && b == [b[0]] + b[1..];
    }
  }

  lemma {:induction false} LeastKey(keys: set<u32>) returns (k: u32)
    requires keys != {}
    ensures k in keys && forall j :: j in keys ==> k <= j
  {
    var j :| j in keys;
    k := j;
    var rest := keys - {j};
    assert keys == rest + {j};
    if rest != {} {
      var r := LeastKey(rest);
      k := if j < r then j else r;
    }
  }

  /** The map in the order of its keys. */
  method ListPending(m: map<u32, Pending>, prev: int) returns (es: seq<Entry>)
    requires forall k :: k in m ==> prev < k
    ensures AscendingFrom(prev, es) && ToMap(es) == m && |es| == |m|
    decreases |m|
  {
    if m == map[] { return []; }
    ghost var least := LeastKey(m.Keys);
    var k :| k in m && forall j :: j in m ==> k <= j;
    var rest := m - {k};
    assert |rest| < |m| by { assert m == rest[k := m[k]]; }
    var more := ListPending(rest, k);
    es := [Entry(k, m[k])] + more;
    assert es[1..] == more;
    assert m == rest[k := m[k]];
  }

  /** The queries among these events; of two with one number the later counts. */
  function Asked(events: seq<GuestEvent>, names: map<u32, bytes>): map<u32, Pending>
  {
    if events == [] then map[]
    else
      var before := Asked(events[..|events| - 1], names);
      match events[|events| - 1]
      case InjectQuery(iseq, nameId) =>
        before[iseq := Pending(nameId, if nameId in names then Some(names[nameId]) else None)]
      case OtherEvent => before
  }

  lemma {:induction false} AskedOk(utf8: bytes -> bool, events: seq<GuestEvent>, names: map<u32, bytes>)
    requires NamesOk(utf8, names)
    ensures PendingOk(utf8, Asked(events, names))
  {
    if events != [] { AskedOk(utf8, events[..|events| - 1], names); }
  }

  /** The mirror loop of `drain`: a query becomes pending, and is a restored one no more. */
  method Mirror(events: seq<GuestEvent>, names: map<u32, bytes>, pending0: map<u32, Pending>,
                restored0: map<u32, Pending>)
    returns (pending: map<u32, Pending>, restored: map<u32, Pending>)
    ensures pending == pending0 + Asked(events, names) && restored == restored0 - Asked(events, names).Keys
  {
    pending, restored := pending0, restored0;
    for i := 0 to |events|
      invariant pending == pending0 + Asked(events[..i], names)
      invariant restored == restored0 - Asked(events[..i], names).Keys
    {
      assert events[..i + 1][..i] == events[..i];
      match events[i] {
        case InjectQuery(iseq, nameId) =>
          var query := Pending(nameId, if nameId in names then Some(names[nameId]) else None);
          AddOne(pending0, restored0, Asked(events[..i], names), iseq, query);
          pending := pending[iseq := query];
          restored := restored - {iseq};
        case OtherEvent =>
      }
    }
    assert events[..|events|] == events;
  }

  lemma AddOne(p: map<u32, Pending>, r: map<u32, Pending>, m: map<u32, Pending>, k: u32, v: Pending)
    ensures (p + m)[k := v] == p + m[k := v] && r - m.Keys - {k} == r - m[k := v].Keys
  {}

  // ---- the host --------------------------------------------------------------------------------

  class Host {
    const utf8: bytes -> bool
    var mem: Memory
    var channel: Option<Channel>
    var initLo: u32
    var initHi: u32
    var initStatus: u32
    var channelGpa: Option<u64>
    var injectIseq: Option<u32>
    var pending: map<u32, Pending>
    var restored: map<u32, Pending>
    var quiesceAck: Option<u32>

    /** Attached exactly when the last status says so; restored queries are pending ones; a detached host has
        none; and every name can be written to a section. */
    ghost predicate Valid()
      reads this
    {
      && Plausible(utf8, mem)
      && (channel.Some? <==> channelGpa.Some?)
      && (channel.Some? <==> Attached(initStatus)) && (channel.None? <==> Detached(initStatus))
      && (channel.Some? ==> NamesOk(utf8, channel.value.names))
      && SubMap(restored, pending) && (channel.None? ==> pending == map[]) && PendingOk(utf8, pending)
    }

    constructor (utf8: bytes -> bool, mem: Memory)
      requires Plausible(utf8, mem)
      ensures Valid() && channel.None? && initStatus == NEVER_COMMITTED && this.utf8 == utf8
    {
      this.utf8, this.mem := utf8, mem;
      channel, channelGpa, injectIseq, quiesceAck := None, None, None, None;
      initLo, initHi, initStatus, pending, restored := 0, 0, NEVER_COMMITTED, map[], map[];
    }

    /** `channel_init`, and the status it leaves. */
    method ChannelInit(sizePages: u32)
      requires Valid()
      modifies this`channel, this`channelGpa, this`initStatus
      ensures Valid()
      ensures old(channel).Some? ==>
                initStatus == INIT_ALREADY_ATTACHED && channel == old(channel) && channelGpa == old(channelGpa)
      ensures old(channel).None? && channel.None? ==> channelGpa == old(channelGpa)
      ensures old(channel).None? ==>
                var gpa := Gpa(initLo, initHi);
                if sizePages != CHANNEL_SIZE_PAGES then initStatus == INIT_BAD_MAGIC_VERSION
                else if gpa % 0x20_0000 != 0 then initStatus == INIT_BAD_GPA
                else match mem(gpa)
                     case Ok(c) => initStatus == INIT_OK && channel == Some(c) && channelGpa == Some(gpa)
                     case Err(status) => initStatus == status
    {
      if channel.Some? {
        initStatus := INIT_ALREADY_ATTACHED;
        return;
      }
      if sizePages != CHANNEL_SIZE_PAGES {
        initStatus := INIT_BAD_MAGIC_VERSION;
        return;
      }
      var gpa := Gpa(initLo, initHi);
      if gpa % 0x20_0000 != 0 {
        initStatus := INIT_BAD_GPA;
        return;
      }
      match mem(gpa) {
        case Ok(c) => channel, channelGpa, initStatus := Some(c), Some(gpa), INIT_OK;
        case Err(status) => initStatus := status;
      }
    }

    /** `drain`: mirror the queries that came in. `names` are the names the channel knows after the drain; a
        failed drain shows nothing. */
    method Drain(events: Option<seq<GuestEvent>>, names: map<u32, bytes>)
      requires Valid() && NamesOk(utf8, names)
      modifies this`channel, this`pending, this`restored
      ensures Valid()
      ensures channel == if old(channel).Some? then Some(old(channel).value.(names := names)) else None
      ensures var asked := if old(channel).Some? && events.Some? then Asked(events.value, names) else map[];
              pending == old(pending) + asked && restored == old(restored) - asked.Keys
    {
      if channel.None? { return; }
      channel := Some(channel.value.(names := names));
      if events.None? { return; }
      AskedOk(utf8, events.value, names);
      pending, restored := Mirror(events.value, names, pending, restored);
    }

    /** `inject_answer`: which query an IN answers, with what, and that it is pending no more. `intern` is the channel's
        live name table, `decide` the responder's plan, and `answer` its answer to a query that it has seen itself. */
    method InjectAnswer(intern: u32 -> Option<bytes>, decide: (u32, u32, Option<bytes>) -> u32, answer: u32 -> u32)
      returns (value: u32, answered: Option<u32>, fromRestored: Option<Pending>)
      requires Valid()
      modifies this`injectIseq, this`pending, this`restored
      ensures Valid() && injectIseq.None?
      // Nothing latched, or nothing attached, is answered with Proceed. A restored query is decided by its name, the
      // live one if there is one; any other is the responder's own.
      ensures answered.None? ==> value == 0
      ensures answered.Some? && fromRestored.None? ==> value == answer(answered.value)
      ensures answered.Some? && fromRestored.Some? ==>
                var p := fromRestored.value;
                value == decide(answered.value, p.nameId, if intern(p.nameId).Some? then intern(p.nameId) else p.name)
      ensures answered == if old(channel).Some? then old(injectIseq) else None
      ensures answered.Some? ==>
                pending == old(pending) - {answered.value} && restored == old(restored) - {answered.value}
      ensures answered.None? ==> pending == old(pending) && restored == old(restored)
      ensures fromRestored == if answered.Some? && answered.value in old(restored)
                              then Some(old(restored)[answered.value]) else None
      ensures fromRestored.Some? ==>
                answered.value in old(pending) && old(pending)[answered.value] == fromRestored.value
    {
      var iseq := injectIseq;
      injectIseq := None;
      if iseq.None? || channel.None? { return 0, None, None; }
      if iseq.value in restored {
        var p := restored[iseq.value];
        fromRestored := Some(p);
        value := decide(iseq.value, p.nameId, if intern(p.nameId).Some? then intern(p.nameId) else p.name);
      } else {
        fromRestored := None;
        value := answer(iseq.value);
      }
      restored, pending := restored - {iseq.value}, pending - {iseq.value};
      answered := iseq;
    }

    /** The state as a section, with the pending queries listed. */
    ghost function SectionOf(es: seq<Entry>): Section
      reads this
    {
      Section(initLo, initHi, initStatus, injectIseq, quiesceAck,
              if channel.Some? && channelGpa.Some?
              then Some(Attachment(channelGpa.value, channel.value.seqC, channel.value.seqI)) else None, es)
    }

    /** `snapshot`: the section of this state, which always validates. */
    method Snapshot(out0: bytes) returns (out: bytes, ghost es: seq<Entry>)
      requires Valid() && |pending| <= U32_MAX
      ensures AscendingFrom(-1, es) && ToMap(es) == pending && SectionOk(utf8, SectionOf(es)) && NamesFit(es)
      ensures out0 <= out && ReadSection(utf8, out[|out0|..], 2).Some?
      ensures out == out0 + SectionBytes(SectionOf(es))
      ensures ReadSection(utf8, SectionBytes(SectionOf(es)), 2) == Some(SectionOf(es))
    {
      var list := ListPending(pending, -1);
      es := list;
      EntriesOfMap(utf8, list, -1);
      var attachment := match (channel, channelGpa)
        case (Some(c), Some(gpa)) => Some(Attachment(gpa, c.seqC, c.seqI))
        case _ => None;
      var section := Section(initLo, initHi, initStatus, injectIseq, quiesceAck, attachment, list);
      SectionReads(utf8, section);
      out := out0 + SectionBytes(section);
      assert out[|out0|..] == SectionBytes(section);
    }

    /** Take over a validated section, unless its channel cannot be attached again. */
    method Install(s: Section, ram: Memory) returns (ok: bool)
      requires Valid() && Plausible(utf8, ram)
      requires PrefixOk(s) && (s.channel.None? ==> s.pending == []) && PendingOk(utf8, ToMap(s.pending))
      modifies this
      ensures ok <==> (s.channel.Some? ==> ram(s.channel.value.gpa).Ok?)
      ensures ok ==> Valid() && pending == restored == ToMap(s.pending) && SectionOf(s.pending) == s
      ensures !ok ==> unchanged(this)
    {
      var attached: Option<Channel> := None;
      if s.channel.Some? {
        var c := ram(s.channel.value.gpa);
        if c.Err? { return false; }
        attached := Some(c.value.(seqC := s.channel.value.seqC, seqI := s.channel.value.seqI));
      }
      mem := ram;
      initLo, initHi, initStatus := s.initLo, s.initHi, s.initStatus;
      injectIseq, quiesceAck := s.injectIseq, s.quiesceAck;
      channel, channelGpa := attached, if s.channel.Some? then Some(s.channel.value.gpa) else None;
      pending, restored := ToMap(s.pending), ToMap(s.pending);
      return true;
    }

    /** `restore`: all of the section or nothing. `ram` is guest memory as restored before. */
    method Restore(b: bytes, version: u16, ram: Memory) returns (ok: bool)
      requires Valid() && Plausible(utf8, ram)
      modifies this
      ensures var s := ReadSection(utf8, b, version);
              && (ok <==> s.Some? && (s.value.channel.Some? ==> ram(s.value.channel.value.gpa).Ok?))
              && (ok ==>
                    Valid() && pending == restored == ToMap(s.value.pending) && SectionOf(s.value.pending) == s.value)
      ensures !ok ==> unchanged(this)
    {
      var s := ParseSection(utf8, b, version);
      if s.None? { return false; }
      SectionFacts(utf8, b, version);
      MapOfEntries(utf8, s.value.pending);
      ok := Install(s.value, ram);
    }
  }

  /** The entries of a map are those of its list. */
  lemma {:induction false} EntriesOfMap(utf8: bytes -> bool, es: seq<Entry>, prev: int)
    requires AscendingFrom(prev, es) && PendingOk(utf8, ToMap(es))
    ensures EntriesOk(utf8, es, prev)
    decreases |es|
  {
    if |es| > 0 {
      KeysAbove(es[1..], es[0].iseq);
      var m, k := ToMap(es), es[0].iseq;
      assert m[k] == es[0].pending;
      assert forall j :: j in ToMap(es[1..]) ==> j in m && m[j] == ToMap(es[1..])[j];
      EntriesOfMap(utf8, es[1..], k);
      assert es == [es[0]] + es[1..];
    }
  }

  lemma {:induction false} MapOfEntries(utf8: bytes -> bool, es: seq<Entry>)
    requires forall e :: e in es ==> NameOk(utf8, e.pending)
    ensures PendingOk(utf8, ToMap(es))
  {
    if |es| > 0 { MapOfEntries(utf8, es[1..]); }
  }

  /** What an accepted section promises, whichever its version. */
  lemma SectionFacts(utf8: bytes -> bool, b: bytes, version: u16)
    requires ReadSection(utf8, b, version).Some?
    ensures var s := ReadSection(utf8, b, version).value;
            && PrefixOk(s) && (s.channel.None? ==> s.pending == [])
            && forall e :: e in s.pending ==> NameOk(utf8, e.pending)
  {
    PrefixBack(b);
    if version == 2 { SectionBack(utf8, b); }
  }

  /** Restoring an accepted section and snapshotting again gives the same bytes. */
  method RestoreThenSnapshot(host: Host, b: bytes, ram: Memory) returns (ok: bool, b': bytes)
    requires host.Valid() && Plausible(host.utf8, ram)
    modifies host
    ensures var s := ReadSection(host.utf8, b, 2);
            ok <==> s.Some? && (s.value.channel.Some? ==> ram(s.value.channel.value.gpa).Ok?)
    ensures ok ==> b' == b && host.Valid()
    ensures !ok ==> unchanged(host)
  {
    ok := host.Restore(b, 2, ram);
    b' := b;
    if !ok { return; }
    SectionBack(host.utf8, b);
    ghost var s := ReadSection(host.utf8, b, 2).value;
    SizeOfMap(s.pending, -1);
    ghost var es;
    b', es := host.Snapshot([]);
    ListUnique(es, s.pending, -1);
  }

  lemma {:induction false} SizeOfMap(es: seq<Entry>, prev: int)
    requires AscendingFrom(prev, es)
    ensures |ToMap(es)| == |es|
    decreases |es|
  {
    if |es| > 0 {
      SizeOfMap(es[1..], es[0].iseq);
      KeysAbove(es[1..], es[0].iseq);
    }
  }

  // ---- runs ------------------------------------------------------------------------------------

  /** One thing that happens to a host. */
  datatype Event =
    | OutInitLo(value: u32) | OutInitHi(value: u32) | OutInitGo(sizePages: u32) | OutQuiesceAck(value: u32)
    | OutInject(iseq: u32, events: Option<seq<GuestEvent>>, names: map<u32, bytes>)
    | Drained(events: Option<seq<GuestEvent>>, names: map<u32, bytes>)
    | InInject(intern: u32 -> Option<bytes>, decide: (u32, u32, Option<bytes>) -> u32, answer: u32 -> u32)
    | TakeQuiesceAck
    | Pushed(seqC: u32, seqI: u32)
    | Restored(section: bytes, version: u16, ram: Memory)

  ghost predicate Possible(utf8: bytes -> bool, e: Event)
  {
    match e
    case OutInject(_, _, names) => NamesOk(utf8, names)
    case Drained(_, names) => NamesOk(utf8, names)
    case Restored(_, _, ram) => Plausible(utf8, ram)
    case _ => true
  }

  method Handle(host: Host, e: Event)
    requires host.Valid() && Possible(host.utf8, e)
    modifies host
    ensures host.Valid()
  {
    match e {
      case OutInitLo(v) => host.initLo := v;
      case OutInitHi(v) => host.initHi := v;
      case OutInitGo(pages) => host.ChannelInit(pages);
      case OutQuiesceAck(v) => host.quiesceAck := Some(v);
      case OutInject(iseq, events, names) =>
        host.injectIseq := Some(iseq);
        host.Drain(events, names);
      case Drained(events, names) => host.Drain(events, names);
      case InInject(intern, decide, answer) =>
        var value, answered, pending := host.InjectAnswer(intern, decide, answer);
      case TakeQuiesceAck => host.quiesceAck := None;
      case Pushed(c, i) => if host.channel.Some? { host.channel := Some(host.channel.value.(seqC := c, seqI := i)); }
      case Restored(section, version, ram) => var ok := host.Restore(section, version, ram);
    }
  }

  /** In every state that a host can reach, the invariant holds and the snapshot validates. */
  method RunHost(utf8: bytes -> bool, mem: Memory, events: seq<Event>) returns (host: Host, out: bytes)
    requires Plausible(utf8, mem) && forall e :: e in events ==> Possible(utf8, e)
    ensures host.Valid() && (|host.pending| <= U32_MAX ==> ReadSection(utf8, out, 2).Some?)
  {
    host := new Host(utf8, mem);
    for i := 0 to |events|
      invariant fresh(host) && host.Valid() && host.utf8 == utf8
    {
      Handle(host, events[i]);
    }
    out := [];
    if |host.pending| <= U32_MAX {
      ghost var es;
      out, es := host.Snapshot([]);
      assert [] + SectionBytes(host.SectionOf(es)) == SectionBytes(host.SectionOf(es));
    }
  }

  function Gpa(lo: u32, hi: u32): u64
  {
    hi * 0x1_0000_0000 + lo
  }
}
