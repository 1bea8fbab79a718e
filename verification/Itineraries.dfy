/** What a run without vectors amounts to: a walk over stop points, and why the points at which
    nothing happens do not matter (crates/dh-vmm/src/runctl.rs, crates/dh-vmm/src/agenda.rs). */
module Itineraries {
  import opened Common
  import opened Agenda

  datatype RunOptions = RunOptions(paranoidHash: bool, hashFinalStop: bool, hashFinalEpoch: bool)

  /** What run control does at one agenda point when no vectors are due. */
  datatype Act = Act(icount: u64, inputs: seq<nat>, hash: bool)

  function ActOf(options: RunOptions, p: StopPoint): Act
  {
    Act(p.icount, p.inputs, p.epochHash && (p.finalStop.None? || options.hashFinalEpoch))
  }

  datatype Trail<S, L> = Trail(state: S, icount: nat, links: seq<L>, landed: seq<nat>)

  /** The part of a session that a walk without vectors depends on. */
  datatype Walker<!S, !L> = Walker(
    at: (S, int) -> S, arrives: (S, int) -> bool, land: (S, seq<nat>) -> S, link: (S, u64) -> L)

  /** Arriving in two hops is arriving in one, and nothing happens where nothing is due. */
  ghost predicate Lawful<S(!new), L>(k: Walker<S, L>)
  {
    && (forall s: S :: k.arrives(s, 0) && k.at(s, 0) == s)
    && (forall s: S :: k.land(s, []) == s)
    && (forall s: S, i: int, j: int :: TwoHops(k, s, i, j))
  }

  ghost predicate TwoHops<S, L>(k: Walker<S, L>, s: S, i: int, j: int)
  {
    k.arrives(s, i) && k.arrives(k.at(s, i), j) ==> k.arrives(s, i + j) && k.at(s, i + j) == k.at(k.at(s, i), j)
  }

  /** The acts of a run so far. */
  datatype Itinerary = Start | Then(before: Itinerary, act: Act)

  /** The guest run on to count `c` with nothing to do there. */
  function Settle<S, L>(k: Walker<S, L>, t: Trail<S, L>, c: nat): Trail<S, L>
  {
    t.(state := k.at(t.state, c - t.icount), icount := c)
  }

  predicate ArrivesAt<S, L>(k: Walker<S, L>, t: Trail<S, L>, c: nat)
  {
    k.arrives(t.state, c - t.icount)
  }

  function Perform<S, L>(k: Walker<S, L>, t: Trail<S, L>, a: Act): Trail<S, L>
  {
    var s := k.land(t.state, a.inputs);
    Trail(s, t.icount, t.links + (if a.hash then [k.link(s, a.icount)] else []), t.landed + a.inputs)
  }

  function Walk<S, L>(k: Walker<S, L>, t: Trail<S, L>, it: Itinerary): Trail<S, L>
  {
    match it
    case Start => t
    case Then(before, a) => Perform(k, Settle(k, Walk(k, t, before), a.icount), a)
  }

  /** Every landing on the walk exists. */
  predicate Walkable<S, L>(k: Walker<S, L>, t: Trail<S, L>, it: Itinerary)
  {
    match it
    case Start => true
    case Then(before, a) => Walkable(k, t, before) && ArrivesAt(k, Walk(k, t, before), a.icount)
  }

  // ---- an extra stop changes nothing ------------------------------------------------------

  predicate Quiet(a: Act)
  {
    a.inputs == [] && !a.hash
  }

  function Busy(it: Itinerary): Itinerary
  {
    match it
    case Start => Start
    case Then(before, a) => if Quiet(a) then Busy(before) else Then(Busy(before), a)
  }

  function Join(a: Itinerary, b: Itinerary): Itinerary
  {
    match b
    case Start => a
    case Then(before, act) => Then(Join(a, before), act)
  }

  /** Passing through a quiet stop is settling in two hops. */
  lemma SettleTwice<S(!new), L>(k: Walker<S, L>, t: Trail<S, L>, a: nat, c: nat)
    requires Lawful(k) && ArrivesAt(k, t, a) && ArrivesAt(k, Settle(k, t, a), c)
    ensures ArrivesAt(k, t, c) && Settle(k, t, c) == Settle(k, Settle(k, t, a), c)
  {
    assert TwoHops(k, t.state, a - t.icount, c - a);
    assert (a - t.icount) + (c - a) == c - t.icount;
  }

  /** Dropping the stops at which nothing happens leaves the rest of the walk as it was. */
  lemma {:induction false} BusyWalk<S(!new), L>(k: Walker<S, L>, t: Trail<S, L>, it: Itinerary, c: nat)
    requires Lawful(k) && Walkable(k, t, it) && ArrivesAt(k, Walk(k, t, it), c)
    ensures Walkable(k, t, Busy(it)) && ArrivesAt(k, Walk(k, t, Busy(it)), c)
    ensures Settle(k, Walk(k, t, Busy(it)), c) == Settle(k, Walk(k, t, it), c)
  {
    match it
    case Start =>
    case Then(before, a) =>
      BusyWalk(k, t, before, a.icount);
      if Quiet(a) {
        assert Perform(k, Settle(k, Walk(k, t, before), a.icount), a) == Settle(k, Walk(k, t, before), a.icount);
        SettleTwice(k, Walk(k, t, Busy(before)), a.icount, c);
        SettleTwice(k, Walk(k, t, before), a.icount, c);
      }
  }

  lemma {:induction false} WalkJoin<S, L>(k: Walker<S, L>, t: Trail<S, L>, a: Itinerary, b: Itinerary)
    requires Walkable(k, t, a) && Walkable(k, Walk(k, t, a), b)
    ensures Walkable(k, t, Join(a, b)) && Walk(k, t, Join(a, b)) == Walk(k, Walk(k, t, a), b)
  {
    match b
    case Start =>
    case Then(before, act) => WalkJoin(k, t, a, before);
  }

  lemma {:induction false} BusyJoin(a: Itinerary, b: Itinerary)
    ensures Busy(Join(a, b)) == Join(Busy(a), Busy(b))
  {
    match b
    case Start =>
    case Then(before, act) => BusyJoin(a, before);
  }

  /** A walk is that of its busy stops, up to the count where it ends. */
  lemma WalkIsBusy<S(!new), L>(k: Walker<S, L>, t: Trail<S, L>, it: Itinerary)
    requires Lawful(k) && Walkable(k, t, it)
    ensures var w := Walk(k, t, it); w == Settle(k, Walk(k, t, Busy(it)), w.icount)
  {
    var w := Walk(k, t, it);
    BusyWalk(k, t, it, w.icount);
    assert Settle(k, w, w.icount) == w;
  }

  /** Walks with the same busy stops that end at the same count end in the same trail. */
  lemma SameBusySameWalk<S(!new), L>(k: Walker<S, L>, t: Trail<S, L>, whole: Itinerary, first: Itinerary,
                                     second: Itinerary)
    requires Lawful(k) && Busy(whole) == Join(Busy(first), Busy(second))
    requires Walkable(k, t, whole) && Walkable(k, t, first) && Walkable(k, Walk(k, t, first), second)
    requires Walk(k, t, whole).icount == Walk(k, Walk(k, t, first), second).icount
    ensures Walk(k, t, whole) == Walk(k, Walk(k, t, first), second)
  {
    WalkJoin(k, t, first, second);
    BusyJoin(first, second);
    WalkIsBusy(k, t, whole);
    WalkIsBusy(k, t, Join(first, second));
  }

  // ---- the busy stops of an agenda do not depend on where runs are cut ------------------------

  /** The acts at the first `n` points. */
  function Acts(options: RunOptions, ps: seq<StopPoint>, n: nat): Itinerary
    requires n <= |ps|
  {
    if n == 0 then Start else Then(Acts(options, ps, n - 1), ActOf(options, ps[n - 1]))
  }

  function Flat(it: Itinerary): seq<Act>
  {
    match it
    case Start => []
    case Then(before, a) => Flat(before) + [a]
  }

  lemma {:induction false} FlatInjective(a: Itinerary, b: Itinerary)
    requires Flat(a) == Flat(b)
    ensures a == b
  {
    match (a, b)
    case (Start, Start) =>
    case (Start, Then(_, _)) =>
    case (Then(_, _), Start) =>
    case (Then(x, p), Then(y, q)) =>
      assert Flat(a)[|Flat(a)| - 1] == p && Flat(b)[|Flat(b)| - 1] == q;
      assert Flat(a)[..|Flat(a)| - 1] == Flat(x) && Flat(b)[..|Flat(b)| - 1] == Flat(y);
      FlatInjective(x, y);
  }

  lemma {:induction false} FlatJoin(a: Itinerary, b: Itinerary)
    ensures Flat(Join(a, b)) == Flat(a) + Flat(b)
  {
    match b
    case Start =>
    case Then(before, act) => FlatJoin(a, before);
  }

  /** What is to be done at a count, whichever run reaches it. */
  function WantAct(scheduled: seq<u64>, epochLen: Option<NonZero>, at: u64): Act
  {
    Act(at, IndicesOf(scheduled, |scheduled|, at), epochLen.Some? && IsMultiple(at, epochLen.value))
  }

  predicate AscendingActs(acts: seq<Act>)
  {
    forall i, j :: 0 <= i < j < |acts| ==> acts[i].icount < acts[j].icount
  }

  /** The acts of ascending points ascend, and are those of the points. */
  lemma {:induction false} ActsOfPoints(options: RunOptions, ps: seq<StopPoint>, n: nat)
    requires Ascending(ps) && n <= |ps|
    ensures AscendingActs(Flat(Acts(options, ps, n)))
    ensures forall a :: a in Flat(Acts(options, ps, n)) <==> exists i :: 0 <= i < n && a == ActOf(options, ps[i])
  {
    if n > 0 {
      ActsOfPoints(options, ps, n - 1);
      var f := Flat(Acts(options, ps, n - 1));
      forall i | 0 <= i < |f| ensures f[i].icount < ps[n - 1].icount {
        assert f[i] in f;
      }
    }
  }

  lemma {:induction false} BusyKeeps(it: Itinerary)
    requires AscendingActs(Flat(it))
    ensures AscendingActs(Flat(Busy(it)))
    ensures forall a :: a in Flat(Busy(it)) <==> a in Flat(it) && !Quiet(a)
  {
    match it
    case Start =>
    case Then(before, act) =>
      var f, b := Flat(it), Flat(Busy(before));
      assert f[..|f| - 1] == Flat(before) && f[|f| - 1] == act;
      BusyKeeps(before);
      forall i | 0 <= i < |b| ensures b[i].icount < act.icount {
        assert b[i] in b;
        var j :| 0 <= j < |Flat(before)| && Flat(before)[j] == b[i];
        assert f[j] == b[i];
      }
  }

  /** `acts` are exactly the busy stops of (lo, hi]. */
  ghost predicate BusyStops(scheduled: seq<u64>, epochLen: Option<NonZero>, lo: int, hi: int, acts: seq<Act>)
  {
    && AscendingActs(acts)
    && forall a: Act :: a in acts <==> lo < a.icount <= hi && a == WantAct(scheduled, epochLen, a.icount) && !Quiet(a)
  }

  lemma BusyOfAgenda(inp: AgendaInputs, last: Last, ps: seq<StopPoint>, options: RunOptions)
    requires last.at >= inp.start && IsAgenda(FullPlan(inp, last), ps) && options.hashFinalEpoch
    ensures BusyStops(inp.scheduled, inp.epochLen, inp.start, last.at, Flat(Busy(Acts(options, ps, |ps|))))
  {
    var acts, plan := Flat(Acts(options, ps, |ps|)), FullPlan(inp, last);
    ActsOfPoints(options, ps, |ps|);
    BusyKeeps(Acts(options, ps, |ps|));
    forall a: Act ensures a in acts && !Quiet(a) <==>
        inp.start < a.icount <= last.at && a == WantAct(inp.scheduled, inp.epochLen, a.icount) && !Quiet(a)
    {
      ActIsWanted(inp, last, options, a.icount);
      if a in acts {
        var i :| 0 <= i < |ps| && a == ActOf(options, ps[i]);
        assert ps[i] in ps;
      }
      if inp.start < a.icount <= last.at && a == WantAct(inp.scheduled, inp.epochLen, a.icount) && !Quiet(a) {
        assert plan(a.icount) in ps;
        var i :| 0 <= i < |ps| && ps[i] == plan(a.icount);
      }
    }
  }

  lemma ActIsWanted(inp: AgendaInputs, last: Last, options: RunOptions, at: u64)
    requires last.at >= inp.start && options.hashFinalEpoch
    ensures inp.start < at <= last.at ==>
              ActOf(options, FullPlan(inp, last)(at)) == WantAct(inp.scheduled, inp.epochLen, at)
    ensures !(inp.start < at <= last.at) ==> Quiet(ActOf(options, FullPlan(inp, last)(at)))
    ensures inp.start < at <= last.at && !Quiet(WantAct(inp.scheduled, inp.epochLen, at)) ==>
              Due(FullPlan(inp, last), at)
  {}

  lemma SameStops(scheduled: seq<u64>, epochLen: Option<NonZero>, lo: int, hi: int, a: seq<Act>, b: seq<Act>)
    requires BusyStops(scheduled, epochLen, lo, hi, a) && BusyStops(scheduled, epochLen, lo, hi, b)
    ensures a == b
  {
    SameAscending(a, b, (x: Act) => x.icount);
  }

  lemma JoinStops(scheduled: seq<u64>, epochLen: Option<NonZero>, lo: int, mid: int, hi: int, a: seq<Act>, b: seq<Act>)
    requires lo <= mid <= hi
    requires BusyStops(scheduled, epochLen, lo, mid, a) && BusyStops(scheduled, epochLen, mid, hi, b)
    ensures BusyStops(scheduled, epochLen, lo, hi, a + b)
  {
    forall i | 0 <= i < |a| ensures a[i].icount <= mid { assert a[i] in a; }
    forall i | 0 <= i < |b| ensures mid < b[i].icount { assert b[i] in b; }
  }

  /** Before its final stop a run does not depend on the final-stop options. */
  lemma {:induction false} ActsBeforeFinal(o: RunOptions, o': RunOptions, ps: seq<StopPoint>, n: nat)
    requires n <= |ps| && forall i :: 0 <= i < n ==> ps[i].finalStop.None?
    ensures Acts(o, ps, n) == Acts(o', ps, n)
  {
    if n > 0 { ActsBeforeFinal(o, o', ps, n - 1); }
  }

  // ---- the final stop -----------------------------------------------------------------------

  predicate FinalOnlyLast(ps: seq<StopPoint>)
  {
    forall k :: 0 <= k < |ps| ==> (ps[k].finalStop.Some? <==> k == |ps| - 1)
  }

  /** The link that `finish` adds, unless the stop is linked already or final links are off. */
  function FinalLinks<S, L>(k: Walker<S, L>, options: RunOptions, ps: seq<StopPoint>, s: S): seq<L>
    requires |ps| > 0
  {
    var p := ps[|ps| - 1];
    if options.hashFinalStop && !ActOf(options, p).hash then [k.link(s, p.icount)] else []
  }

  /** Hash every epoch point, the final one too. */
  const KEEP := RunOptions(false, false, true)

  /** The links of a run whose trail under `KEEP` is `t`, by what the options say of its final stop. */
  function Ending<S, L>(k: Walker<S, L>, t: Trail<S, L>, onEpoch: bool, options: RunOptions): seq<L>
    requires onEpoch ==> |t.links| > 0
    requires t.icount <= U64_MAX
  {
    if !onEpoch then t.links + (if options.hashFinalStop then [k.link(t.state, t.icount)] else [])
    else if options.hashFinalEpoch || options.hashFinalStop then t.links
    else t.links[..|t.links| - 1]
  }

  /** The start of a run: nothing landed yet. */
  function From<S, L>(s: S, icount: nat, links: seq<L>): Trail<S, L>
  {
    Trail(s, icount, links, [])
  }

  /** The trail a run leaves, its final link included. */
  function Ended<S, L>(k: Walker<S, L>, t: Trail<S, L>, options: RunOptions, ps: seq<StopPoint>): Trail<S, L>
    requires |ps| > 0
  {
    var w := Walk(k, t, Acts(options, ps, |ps|));
    w.(links := w.links + FinalLinks(k, options, ps, w.state))
  }

  predicate WalksOver<S, L>(k: Walker<S, L>, t: Trail<S, L>, options: RunOptions, ps: seq<StopPoint>)
  {
    |ps| > 0 && FinalOnlyLast(ps) && Walkable(k, t, Acts(options, ps, |ps|))
  }

  /** The final-stop options only decide about the one link at the final stop. */
  lemma FinalOptions<S, L>(k: Walker<S, L>, t: Trail<S, L>, ps: seq<StopPoint>,
                           options: RunOptions) returns (x: Trail<S, L>)
    requires WalksOver(k, t, options, ps)
    ensures x == Walk(k, t, Acts(KEEP, ps, |ps|)) && Walkable(k, t, Acts(KEEP, ps, |ps|))
    ensures x.icount == ps[|ps| - 1].icount
    ensures ps[|ps| - 1].epochHash ==> |t.links| < |x.links| && x.links[|x.links| - 1] == k.link(x.state, x.icount)
    ensures Ended(k, t, options, ps) == x.(links := Ending(k, x, ps[|ps| - 1].epochHash, options))
  {
    var n := |ps| - 1;
    ActsBeforeFinal(options, KEEP, ps, n);
    var before := Walk(k, t, Acts(KEEP, ps, n));
    FreshWalk(k, t, Acts(KEEP, ps, n));
    x := Walk(k, t, Acts(KEEP, ps, n + 1));
    assert ps[n].epochHash ==> x.links[..|x.links| - 1] == before.links;
  }

  /** What matters of the points a run visits: its busy stops are exactly those of its window, whichever
      way the run came to be, and its last point is an epoch exactly when the stop is on the grid. */
  ghost predicate StopsOf(scheduled: seq<u64>, epochLen: Option<NonZero>, start: u64, end: u64, ps: seq<StopPoint>)
  {
    && |ps| > 0 && FinalOnlyLast(ps) && ps[|ps| - 1].icount == end
    && BusyStops(scheduled, epochLen, start, end, Flat(Busy(Acts(KEEP, ps, |ps|))))
    && ps[|ps| - 1].epochHash == (start < end && IsEpoch(epochLen, end))
  }

  predicate IsEpoch(epochLen: Option<NonZero>, at: u64)
  {
    epochLen.Some? && IsMultiple(at, epochLen.value)
  }

  lemma AgendaStops(inp: AgendaInputs, last: Last, ps: seq<StopPoint>)
    requires last.at >= inp.start && IsAgenda(FullPlan(inp, last), ps)
    ensures StopsOf(inp.scheduled, inp.epochLen, inp.start, last.at, ps)
  {
    FinalStopIsLast(inp, last, ps);
    assert ps[|ps| - 1] in ps;
    BusyOfAgenda(inp, last, ps, KEEP);
  }

  /** Two runs that meet have, between them, the busy stops of one run over both. */
  lemma CutStops(scheduled: seq<u64>, epochLen: Option<NonZero>, start: u64, mid: u64, end: u64,
                 ps: seq<StopPoint>, psA: seq<StopPoint>, psB: seq<StopPoint>)
    requires start <= mid <= end
    requires StopsOf(scheduled, epochLen, start, end, ps)
    requires StopsOf(scheduled, epochLen, start, mid, psA) && StopsOf(scheduled, epochLen, mid, end, psB)
    ensures Busy(Acts(KEEP, ps, |ps|)) == Join(Busy(Acts(KEEP, psA, |psA|)), Busy(Acts(KEEP, psB, |psB|)))
  {
    var w, a, b := Busy(Acts(KEEP, ps, |ps|)), Busy(Acts(KEEP, psA, |psA|)), Busy(Acts(KEEP, psB, |psB|));
    JoinStops(scheduled, epochLen, start, mid, end, Flat(a), Flat(b));
    FlatJoin(a, b);
    SameStops(scheduled, epochLen, start, end, Flat(w), Flat(Join(a, b)));
    FlatInjective(w, Join(a, b));
  }

  /** A walk adds to the links and inputs it starts with, and depends on neither. */
  lemma {:induction false} FreshWalk<S, L>(k: Walker<S, L>, t: Trail<S, L>, it: Itinerary)
    ensures var f := t.(links := [], landed := []);
            && Walkable(k, t, it) == Walkable(k, f, it)
            && var (w, x) := (Walk(k, t, it), Walk(k, f, it));
               w == Trail(x.state, x.icount, t.links + x.links, t.landed + x.landed)
  {
    match it
    case Start =>
    case Then(before, a) =>
      FreshWalk(k, t, before);
  }
}
