/** A run in any number of pieces against the same run in one: quantization independence for every list of cuts
    (crates/dh-vmm/src/runctl.rs, crates/dh-vmm/src/agenda.rs). */
module Pieces {
  import opened Common
  import opened Boundary
  import opened Agenda
  import opened Itineraries
  import opened RunModel
  import opened RunLaws
  import opened RunControl
  import opened Quantization

  /** One piece of a run, under margins and a host schedule of its own. */
  datatype Piece = Piece(seg: Segment, margins: Margins, env: Schedule)

  /** `p` may be a piece of `seg` before its last one: the same inputs and hashing, without a link of its own where it
      stops. */
  predicate IsPiece(seg: Segment, p: Segment)
  {
    p.scheduled == seg.scheduled && p.options.paranoidHash == seg.options.paranoidHash && !p.options.hashFinalStop
  }

  predicate PlainPiece<S, L>(sess: Session<S, L>, p: Piece)
  {
    Plain(sess, p.seg) && SkidBelow(p.env, p.margins.skidMargin)
  }

  /** What `after` has beyond `before`. */
  function Since<T>(before: seq<T>, after: seq<T>): seq<T>
  {
    if |before| <= |after| then after[|before|..] else []
  }

  /** The link of an epoch at the end of a piece that left it out. */
  function Withheld<S, L>(sess: Session<S, L>, a: Segment, x: Progress<S, L>): seq<L>
  {
    if x.v.retired <= U64_MAX && DropsEpoch(sess, a, x.v.retired)
    then [sess.capture(x.v.state, None, x.v.retired, VnsAt(sess.config.clock.vns, x.v.retired))] else []
  }

  function LinksAfter<S, L>(links0: seq<L>, xs: seq<Progress<S, L>>): seq<L>
  {
    if xs == [] then links0 else xs[|xs| - 1].links
  }

  /** The links of the pieces so far, with those that they left out put back. */
  function Restored<S, L>(sess: Session<S, L>, links0: seq<L>, pieces: seq<Piece>, xs: seq<Progress<S, L>>): seq<L>
    requires |xs| <= |pieces|
  {
    if xs == [] then links0
    else
      var n := |xs| - 1;
      Restored(sess, links0, pieces, xs[..n]) + Since(LinksAfter(links0, xs[..n]), xs[n].links)
      + Withheld(sess, pieces[n].seg, xs[n])
  }

  function LandedIn<S, L>(xs: seq<Progress<S, L>>): seq<nat>
  {
    if xs == [] then [] else LandedIn(xs[..|xs| - 1]) + xs[|xs| - 1].landed
  }

  /** Where piece `i` starts, the last one coming after `pieces`. */
  function StartOf(pieces: seq<Piece>, b: Piece, i: nat): u64
  {
    if i < |pieces| then pieces[i].seg.start else b.seg.start
  }

  /** Each piece ends where the next one starts. */
  predicate EndToEnd<S, L>(pieces: seq<Piece>, b: Piece, xs: seq<Progress<S, L>>)
  {
    forall i :: 0 <= i < |xs| ==> xs[i].v.retired == StartOf(pieces, b, i + 1)
  }

  /** The outcome of a run in one piece against its pieces `xs` and the last, `xb`: the same state, the inputs of the
      pieces in order, and the same links but for those of epochs at the cuts which a piece left out. */
  predicate MeetAll<S(==), L(==)>(sess: Session<S, L>, links0: seq<L>, pieces: seq<Piece>, x: Progress<S, L>,
                                  xs: seq<Progress<S, L>>, xb: Progress<S, L>)
    requires |xs| <= |pieces|
  {
    && x.v.state == xb.v.state && x.landed == LandedIn(xs) + xb.landed
    && LinksAfter(links0, xs) <= xb.links
    && x.links == Restored(sess, links0, pieces, xs) + Since(LinksAfter(links0, xs), xb.links)
  }

  predicate LeadsTo<S(==), L(==)>(k: Walker<S, L>, t0: Trail<S, L>, it: Itinerary, v: Vcpu<S>, links: seq<L>,
                                 landed: seq<nat>)
  {
    Walkable(k, t0, it) && Walk(k, t0, it) == Trail(v.state, v.retired, links, landed)
  }

  /** The pieces so far are a walk `it` over the busy stops of `seg` up to where they stand. */
  ghost predicate SoFar<S, L>(k: Walker<S, L>, sess: Session<S, L>, seg: Segment, t0: Trail<S, L>, it: Itinerary,
                              v: Vcpu<S>, links: seq<L>, landed: seq<nat>)
  {
    && LeadsTo(k, t0, it, v, links, landed)
    && BusyStops(seg.scheduled, EpochGrid(sess, seg.options), t0.icount, v.retired, Flat(Busy(it)))
  }

  /** One piece as an addition: `y` is what it adds before its options have their say about its end. */
  lemma OnePiece<S, L>(k: Walker<S, L>, sess: Session<S, L>, a: Segment, last: Last, v: Vcpu<S>, links: seq<L>,
                       ps: seq<StopPoint>, x: Progress<S, L>) returns (y: Trail<S, L>)
    requires RanTo(k, sess, a, last, v, links, ps, x.v, x.links, x.landed)
    ensures y == Walk(k, From(v.state, v.retired, []), Acts(KEEP, ps, |ps|))
    ensures Walkable(k, From(v.state, v.retired, []), Acts(KEEP, ps, |ps|))
    ensures y.state == x.v.state && y.icount == x.v.retired && y.landed == x.landed
    ensures var onEpoch := ps[|ps| - 1].epochHash;
            && (onEpoch ==> |y.links| > 0 && y.links[|y.links| - 1] == k.link(y.state, y.icount))
            && x.links == links + Ending(k, y, onEpoch, a.options)
  {
    var t := From(v.state, v.retired, links);
    var w := FinalOptions(k, t, ps, a.options);
    FreshWalk(k, t, Acts(KEEP, ps, |ps|));
    y := Walk(k, From(v.state, v.retired, []), Acts(KEEP, ps, |ps|));
    assert From(v.state, v.retired, []) == t.(links := [], landed := []);
    EndingAfter(k, y, w, links, ps[|ps| - 1].epochHash, a.options);
  }

  /** The walk so far, continued by the acts of a piece. */
  lemma WalkOnto<S, L>(k: Walker<S, L>, t0: Trail<S, L>, it: Itinerary, v: Vcpu<S>, links: seq<L>, landed: seq<nat>,
                       next: Itinerary, y: Trail<S, L>)
    requires LeadsTo(k, t0, it, v, links, landed)
    requires Walkable(k, From(v.state, v.retired, []), next) && y == Walk(k, From(v.state, v.retired, []), next)
    ensures Walkable(k, Walk(k, t0, it), next) && Walkable(k, t0, Join(it, next))
    ensures Walk(k, t0, Join(it, next)) == Walk(k, Walk(k, t0, it), next)
    ensures Walk(k, t0, Join(it, next)) == Trail(y.state, y.icount, links + y.links, landed + y.landed)
  {
    var w := Walk(k, t0, it);
    assert From(v.state, v.retired, []) == w.(links := [], landed := []);
    FreshWalk(k, w, next);
    WalkJoin(k, t0, it, next);
  }

  lemma LeadsOn<S, L>(k: Walker<S, L>, t0: Trail<S, L>, it: Itinerary, v: Vcpu<S>, links: seq<L>, landed: seq<nat>,
                      next: Itinerary, y: Trail<S, L>, v': Vcpu<S>, more: seq<L>, withheld: seq<L>, inputs: seq<nat>)
    requires LeadsTo(k, t0, it, v, links, landed)
    requires Walkable(k, From(v.state, v.retired, []), next) && y == Walk(k, From(v.state, v.retired, []), next)
    requires y == Trail(v'.state, v'.retired, more + withheld, inputs)
    ensures LeadsTo(k, t0, Join(it, next), v', links + more + withheld, landed + inputs) == true
  {
    WalkOnto(k, t0, it, v, links, landed, next, y);
    assert links + (more + withheld) == links + more + withheld;
  }

  /** The busy stops so far, joined with those of a piece. */
  lemma StopsOnto(scheduled: seq<u64>, epochLen: Option<NonZero>, start: int, mid: u64, end: u64, it: Itinerary,
                  ps: seq<StopPoint>)
    requires start <= mid <= end && BusyStops(scheduled, epochLen, start, mid, Flat(Busy(it)))
    requires StopsOf(scheduled, epochLen, mid, end, ps)
    ensures BusyStops(scheduled, epochLen, start, end, Flat(Busy(Join(it, Acts(KEEP, ps, |ps|))))) == true
  {
    var next := Acts(KEEP, ps, |ps|);
    JoinStops(scheduled, epochLen, start, mid, end, Flat(Busy(it)), Flat(Busy(next)));
    BusyJoin(it, next);
    FlatJoin(Busy(it), Busy(next));
  }

  /** What a piece's own links leave out of what it adds. */
  lemma Leaves<S(!new), L>(k: Walker<S, L>, sess: Session<S, L>, a: Segment, links: seq<L>, y: Trail<S, L>,
                           onEpoch: bool, x: Progress<S, L>)
    requires Models(k, sess) && !a.options.hashFinalStop && y.state == x.v.state && y.icount == x.v.retired <= U64_MAX
    requires onEpoch ==> |y.links| > 0 && y.links[|y.links| - 1] == k.link(y.state, y.icount)
    requires x.links == links + Ending(k, y, onEpoch, a.options)
    requires onEpoch == (a.start < x.v.retired && IsEpoch(EpochGrid(sess, a.options), x.v.retired))
    ensures links <= x.links && y.links == Since(links, x.links) + Withheld(sess, a, x)
  {
    assert Since(links, x.links) == Ending(k, y, onEpoch, a.options);
    if onEpoch && !a.options.hashFinalEpoch {
      assert y.links == y.links[..|y.links| - 1] + [y.links[|y.links| - 1]];
    }
  }

  /** The busy stops so far, joined with those of one more piece. */
  lemma PieceStops<S, L>(k: Walker<S, L>, sess: Session<S, L>, seg: Segment, t0: Trail<S, L>, it: Itinerary, m: Margins,
                         a: Segment, last: Last, v: Vcpu<S>, links: seq<L>, full: seq<L>, landed: seq<nat>,
                         ps: seq<StopPoint>, x: Progress<S, L>)
    requires a.scheduled == seg.scheduled && a.options.paranoidHash == seg.options.paranoidHash
    requires t0.icount <= v.retired && SoFar(k, sess, seg, t0, it, v, full, landed)
    requires RanTo(k, With(sess, m), a, last, v, links, ps, x.v, x.links, x.landed)
    ensures |ps| > 0 && t0.icount <= x.v.retired <= U64_MAX
    ensures BusyStops(seg.scheduled, EpochGrid(sess, seg.options), t0.icount, x.v.retired,
                      Flat(Busy(Join(it, Acts(KEEP, ps, |ps|))))) == true
  {
    StopsOnto(seg.scheduled, EpochGrid(sess, seg.options), t0.icount, a.start, last.at, it, ps);
  }

  /** What a piece adds: its own links, and the one it left out. */
  lemma PieceAdds<S(!new), L>(k: Walker<S, L>, sess: Session<S, L>, m: Margins, a: Segment, last: Last, v: Vcpu<S>,
                              links: seq<L>, ps: seq<StopPoint>, x: Progress<S, L>) returns (y: Trail<S, L>)
    requires Models(k, sess) && !a.options.hashFinalStop
    requires RanTo(k, With(sess, m), a, last, v, links, ps, x.v, x.links, x.landed)
    ensures |ps| > 0 && Walkable(k, From(v.state, v.retired, []), Acts(KEEP, ps, |ps|))
    ensures y == Walk(k, From(v.state, v.retired, []), Acts(KEEP, ps, |ps|))
    ensures links <= x.links
    ensures y == Trail(x.v.state, x.v.retired, Since(links, x.links) + Withheld(sess, a, x), x.landed)
  {
    y := OnePiece(k, With(sess, m), a, last, v, links, ps, x);
    Leaves(k, sess, a, links, y, ps[|ps| - 1].epochHash, x);
  }

  /** One more piece. */
  lemma PieceMore<S(!new), L>(k: Walker<S, L>, sess: Session<S, L>, seg: Segment, t0: Trail<S, L>, it: Itinerary,
                              m: Margins, a: Segment, last: Last, v: Vcpu<S>, links: seq<L>, full: seq<L>,
                              landed: seq<nat>, ps: seq<StopPoint>, x: Progress<S, L>) returns (it': Itinerary)
    requires Models(k, sess) && IsPiece(seg, a) && t0.icount <= v.retired
    requires SoFar(k, sess, seg, t0, it, v, full, landed)
    requires RanTo(k, With(sess, m), a, last, v, links, ps, x.v, x.links, x.landed)
    ensures links <= x.links && t0.icount <= x.v.retired <= U64_MAX
    ensures SoFar(k, sess, seg, t0, it', x.v, full + Since(links, x.links) + Withheld(sess, a, x),
                  landed + x.landed) == true
  {
    PieceStops(k, sess, seg, t0, it, m, a, last, v, links, full, landed, ps, x);
    var y := PieceAdds(k, sess, m, a, last, v, links, ps, x);
    it' := Join(it, Acts(KEEP, ps, |ps|));
    LeadsOn(k, t0, it, v, full, landed, Acts(KEEP, ps, |ps|), y, x.v, Since(links, x.links), Withheld(sess, a, x),
            x.landed);
  }

  /** The last piece, and the run in one piece. */
  lemma PieceLast<S(!new), L>(k: Walker<S, L>, sess: Session<S, L>, seg: Segment, it: Itinerary, m: Margins,
                              mb: Margins, b: Segment, v0: Vcpu<S>, links0: seq<L>, last: Last, x: Progress<S, L>,
                              ps: seq<StopPoint>, v: Vcpu<S>, links: seq<L>, full: seq<L>, landed: seq<nat>,
                              lastB: Last, xb: Progress<S, L>, psB: seq<StopPoint>)
    requires Lawful(k) && b.scheduled == seg.scheduled && b.options == seg.options && v0.retired <= v.retired
    requires SoFar(k, sess, seg, From(v0.state, v0.retired, links0), it, v, full, landed)
    requires RanTo(k, With(sess, m), seg, last, v0, links0, ps, x.v, x.links, x.landed)
    requires RanTo(k, With(sess, mb), b, lastB, v, links, psB, xb.v, xb.links, xb.landed)
    requires b.start < xb.v.retired == x.v.retired
    ensures x.v.state == xb.v.state && x.landed == landed + xb.landed
    ensures links <= xb.links && x.links == full + Since(links, xb.links)
  {
    var t0, next := From(v0.state, v0.retired, links0), Acts(KEEP, psB, |psB|);
    var y := OnePiece(k, With(sess, mb), b, lastB, v, links, psB, xb);
    WalkOnto(k, t0, it, v, full, landed, next, y);
    PieceStops(k, sess, seg, t0, it, mb, b, lastB, v, links, full, landed, psB, xb);
    var w := FinalOptions(k, t0, ps, seg.options);
    WholeIsJoin(k, t0, seg.scheduled, EpochGrid(sess, seg.options), seg.start, last.at, ps, Join(it, next));
    EndingAfter(k, y, w, full, ps[|ps| - 1].epochHash, seg.options);
    assert Since(links, xb.links) == Ending(k, y, psB[|psB| - 1].epochHash, b.options);
  }

  /** A walk over the busy stops of a window, however it came about, is that of the agenda for the window. */
  lemma WholeIsJoin<S(!new), L>(k: Walker<S, L>, t0: Trail<S, L>, scheduled: seq<u64>, epochLen: Option<NonZero>,
                                start: u64, end: u64, ps: seq<StopPoint>, it: Itinerary)
    requires Lawful(k) && StopsOf(scheduled, epochLen, start, end, ps)
    requires BusyStops(scheduled, epochLen, start, end, Flat(Busy(it)))
    requires Walkable(k, t0, Acts(KEEP, ps, |ps|)) && Walkable(k, t0, it)
    requires Walk(k, t0, Acts(KEEP, ps, |ps|)).icount == Walk(k, t0, it).icount
    ensures Walk(k, t0, Acts(KEEP, ps, |ps|)) == Walk(k, t0, it)
  {
    var whole := Acts(KEEP, ps, |ps|);
    SameStops(scheduled, epochLen, start, end, Flat(Busy(whole)), Flat(Busy(it)));
    FlatInjective(Busy(whole), Busy(it));
    WalkIsBusy(k, t0, whole);
    WalkIsBusy(k, t0, it);
  }

  // ---- running the pieces ---------------------------------------------------------------------

  /** Nothing stands in the way of a piece from its own start. */
  ghost predicate FairPiece<S(!new), L>(sess: Session<S, L>, p: Piece, paused: nat -> bool, v0: Vcpu<S>, bound: nat)
  {
    Fair(With(sess, p.margins), p.seg, paused, v0.(retired := p.seg.start), p.env, bound)
  }

  /** Nothing stands in the way of the whole or of any piece, and each piece starts where the agenda of the one before
      it ends; the last is not empty and ends where the whole does. */
  ghost predicate FairPieces<S(!new), L>(sess: Session<S, L>, whole: Piece, pieces: seq<Piece>, b: Piece,
                                         paused: nat -> bool, v0: Vcpu<S>, bound: nat)
  {
    && whole.seg.start == v0.retired == StartOf(pieces, b, 0)
    && FairPiece(sess, whole, paused, v0, bound) && FairPiece(sess, b, paused, v0, bound)
    && (forall i :: 0 <= i < |pieces| ==>
          && FairPiece(sess, pieces[i], paused, v0, bound)
          && EndOf(sess, pieces[i].seg) == Some(StartOf(pieces, b, i + 1)))
    && EndOf(sess, b.seg) == EndOf(sess, whole.seg) && EndOf(sess, b.seg) != Some(b.seg.start)
  }

  lemma PieceLives<S(!new), L>(sess: Session<S, L>, p: Piece, paused: nat -> bool, v0: Vcpu<S>, v: Vcpu<S>, bound: nat,
                               x: Progress<S, L>, r: Result<Outcome, RunError>)
    requires FairPiece(sess, p, paused, v0, bound) && v.retired == p.seg.start && v.pending == v0.pending
    requires Lives(With(sess, p.margins), p.seg, paused, v, p.env, x, r)
    ensures Completed(r) && EndOf(sess, p.seg) == Some(x.v.retired)
  {
    FairFrom(With(sess, p.margins), p.seg, paused, v0.(retired := p.seg.start), v, p.env, bound);
    EndOfWith(sess, p.margins, p.seg);
  }

  predicate AllCompleted(rs: seq<Result<Outcome, RunError>>)
  {
    forall i :: 0 <= i < |rs| ==> Completed(rs[i])
  }

  /** Every piece keeps the links it was given. */
  predicate LinksGrow<S, L(==)>(links0: seq<L>, xs: seq<Progress<S, L>>)
  {
    xs == [] || (var n := |xs| - 1; LinksGrow(links0, xs[..n]) && LinksAfter(links0, xs[..n]) <= xs[n].links)
  }

  /** How many of the first `n` pieces leave out the link of an epoch at their end. */
  function DropsIn<S, L>(sess: Session<S, L>, pieces: seq<Piece>, b: Piece, n: nat): nat
    requires n <= |pieces|
  {
    if n == 0 then 0
    else DropsIn(sess, pieces, b, n - 1)
         + (if DropsEpoch(sess, pieces[n - 1].seg, StartOf(pieces, b, n)) then 1 else 0)
  }

  lemma PutBack<L>(full: seq<L>, before: seq<L>, after: seq<L>, withheld: seq<L>)
    requires before <= after
    ensures |full + Since(before, after) + withheld| == |full| - |before| + |after| + |withheld|
    ensures full == before && withheld == [] ==> full + Since(before, after) + withheld == after
  {}

  lemma {:induction false} RestoredLength<S, L>(sess: Session<S, L>, links0: seq<L>, pieces: seq<Piece>, b: Piece,
                                                xs: seq<Progress<S, L>>)
    requires |xs| <= |pieces| && LinksGrow(links0, xs) && EndToEnd(pieces, b, xs)
    ensures |Restored(sess, links0, pieces, xs)| == |LinksAfter(links0, xs)| + DropsIn(sess, pieces, b, |xs|)
    ensures DropsIn(sess, pieces, b, |xs|) == 0 ==> Restored(sess, links0, pieces, xs) == LinksAfter(links0, xs)
  {
    if xs != [] {
      var n := |xs| - 1;
      RestoredLength(sess, links0, pieces, b, xs[..n]);
      PutBack(Restored(sess, links0, pieces, xs[..n]), LinksAfter(links0, xs[..n]), xs[n].links,
              Withheld(sess, pieces[n].seg, xs[n]));
    }
  }

  /** The pieces leave as many links fewer than the run in one piece as there are cuts on an epoch that the piece before
      the cut was told not to hash, and the same links exactly if there is no such cut. */
  lemma SameLinksExactly<S, L>(sess: Session<S, L>, links0: seq<L>, pieces: seq<Piece>, b: Piece, x: Progress<S, L>,
                               xs: seq<Progress<S, L>>, xb: Progress<S, L>)
    requires |xs| == |pieces| && LinksGrow(links0, xs) && EndToEnd(pieces, b, xs)
    requires MeetAll(sess, links0, pieces, x, xs, xb)
    ensures |x.links| == |xb.links| + DropsIn(sess, pieces, b, |pieces|)
    ensures x.links == xb.links <==> DropsIn(sess, pieces, b, |pieces|) == 0
  {
    RestoredLength(sess, links0, pieces, b, xs);
    PutBack(Restored(sess, links0, pieces, xs), LinksAfter(links0, xs), xb.links, []);
  }

  /** Whatever the host does, if nothing stands in the way then the count is `at`. */
  ghost predicate FairAt<S(!new), L>(sess: Session<S, L>, whole: Piece, pieces: seq<Piece>, b: Piece,
                                     paused: nat -> bool, v0: Vcpu<S>, count: nat, at: u64)
  {
    forall bound: nat {:trigger FairPieces(sess, whole, pieces, b, paused, v0, bound)} ::
      FairPieces(sess, whole, pieces, b, paused, v0, bound) ==> count == at
  }

  ghost predicate Unfair<S(!new), L>(sess: Session<S, L>, whole: Piece, pieces: seq<Piece>, b: Piece,
                                     paused: nat -> bool, v0: Vcpu<S>)
  {
    forall bound: nat {:trigger FairPieces(sess, whole, pieces, b, paused, v0, bound)} ::
      !FairPieces(sess, whole, pieces, b, paused, v0, bound)
  }

  /** Each piece but the last ended where the next one starts, and the last one ended in `v`. */
  predicate EndsIn<S(==), L>(pieces: seq<Piece>, xs: seq<Progress<S, L>>, v: Vcpu<S>)
    requires |xs| <= |pieces|
  {
    && (xs != [] ==> xs[|xs| - 1].v == v)
    && forall i :: 0 <= i < |xs| - 1 ==> xs[i].v.retired == pieces[i + 1].seg.start
  }

  lemma EndsMeet<S, L>(pieces: seq<Piece>, b: Piece, xs: seq<Progress<S, L>>, v: Vcpu<S>)
    requires |xs| == |pieces| && EndsIn(pieces, xs, v) && v.retired == b.seg.start
    ensures EndToEnd(pieces, b, xs) == true
  {}

  lemma CompletedMore(rs: seq<Result<Outcome, RunError>>, r: Result<Outcome, RunError>)
    requires AllCompleted(rs)
    ensures AllCompleted(rs + [r]) == Completed(r)
  {
    assert (rs + [r])[|rs|] == r;
  }

  /** Between two pieces. */
  ghost predicate Stands<S(!new), L>(k: Walker<S, L>, sess: Session<S, L>, whole: Piece, pieces: seq<Piece>,
                                     v0: Vcpu<S>, links0: seq<L>, v: Vcpu<S>, xs: seq<Progress<S, L>>, it: Itinerary)
  {
    && |xs| <= |pieces| && !v.debugEnabled && v.pending.None? && v0.retired <= v.retired
    && LinksGrow(links0, xs) && EndsIn(pieces, xs, v)
    && SoFar(k, sess, whole.seg, From(v0.state, v0.retired, links0), it, v, Restored(sess, links0, pieces, xs),
             LandedIn(xs))
  }

  lemma RecordMore<S, L>(sess: Session<S, L>, links0: seq<L>, pieces: seq<Piece>, xs: seq<Progress<S, L>>, v: Vcpu<S>,
                         x: Progress<S, L>)
    requires |xs| < |pieces| && LinksGrow(links0, xs) && LinksAfter(links0, xs) <= x.links
    requires EndsIn(pieces, xs, v) && v.retired == pieces[|xs|].seg.start
    ensures LinksGrow(links0, xs + [x]) && EndsIn(pieces, xs + [x], x.v)
    ensures LandedIn(xs + [x]) == LandedIn(xs) + x.landed
    ensures Restored(sess, links0, pieces, xs + [x]) ==
            Restored(sess, links0, pieces, xs) + Since(LinksAfter(links0, xs), x.links)
            + Withheld(sess, pieces[|xs|].seg, x)
  {
    assert (xs + [x])[..|xs|] == xs;
  }

  lemma StandsMore<S(!new), L>(k: Walker<S, L>, sess: Session<S, L>, whole: Piece, pieces: seq<Piece>, v0: Vcpu<S>,
                               links0: seq<L>, v: Vcpu<S>, xs: seq<Progress<S, L>>, it: Itinerary, last: Last,
                               ps: seq<StopPoint>, x: Progress<S, L>) returns (it': Itinerary)
    requires Models(k, sess) && |xs| < |pieces| && IsPiece(whole.seg, pieces[|xs|].seg)
    requires Stands(k, sess, whole, pieces, v0, links0, v, xs, it) && !x.v.debugEnabled && x.v.pending.None?
    requires RanTo(k, With(sess, pieces[|xs|].margins), pieces[|xs|].seg, last, v, LinksAfter(links0, xs), ps, x.v,
                   x.links, x.landed)
    ensures Stands(k, sess, whole, pieces, v0, links0, x.v, xs + [x], it') == true
  {
    var p := pieces[|xs|];
    it' := PieceMore(k, sess, whole.seg, From(v0.state, v0.retired, links0), it, p.margins, p.seg, last, v,
                     LinksAfter(links0, xs), Restored(sess, links0, pieces, xs), LandedIn(xs), ps, x);
    RecordMore(sess, links0, pieces, xs, v, x);
  }

  /** One more piece that nothing stands in the way of. */
  lemma FairMore<S(!new), L>(sess: Session<S, L>, whole: Piece, pieces: seq<Piece>, b: Piece, paused: nat -> bool,
                             v0: Vcpu<S>, n: nat, v: Vcpu<S>, x: Progress<S, L>, r: Result<Outcome, RunError>)
    requires n < |pieces| && v.pending == v0.pending
    requires FairAt(sess, whole, pieces, b, paused, v0, v.retired, StartOf(pieces, b, n))
    requires Lives(With(sess, pieces[n].margins), pieces[n].seg, paused, v, pieces[n].env, x, r)
    ensures FairAt(sess, whole, pieces, b, paused, v0, x.v.retired, StartOf(pieces, b, n + 1)) == true
    ensures Completed(r) || Unfair(sess, whole, pieces, b, paused, v0)
  {
    forall bound: nat | FairPieces(sess, whole, pieces, b, paused, v0, bound)
      ensures Completed(r) && x.v.retired == StartOf(pieces, b, n + 1)
    {
      PieceLives(sess, pieces[n], paused, v0, v, bound, x, r);
    }
  }

  lemma StandsFirst<S(!new), L>(k: Walker<S, L>, sess: Session<S, L>, whole: Piece, pieces: seq<Piece>, v0: Vcpu<S>,
                                links0: seq<L>)
    requires !v0.debugEnabled && v0.pending.None?
    ensures Stands(k, sess, whole, pieces, v0, links0, v0, [], Start) == true
  {}

  method RunCut<S(!new), L(!new)>(sess: Session<S, L>, whole: Piece, pieces: seq<Piece>, b: Piece, paused: nat -> bool,
                                  v0: Vcpu<S>, links0: seq<L>, v: Vcpu<S>, xs: seq<Progress<S, L>>,
                                  ghost it: Itinerary, ghost k: Walker<S, L>)
    returns (x: Progress<S, L>, r: Result<Outcome, RunError>, ghost it': Itinerary)
    requires v0.pending.None? && Models(k, sess) && Stands(k, sess, whole, pieces, v0, links0, v, xs, it)
    requires |xs| < |pieces| && PlainPiece(sess, pieces[|xs|]) && IsPiece(whole.seg, pieces[|xs|].seg)
    requires FairAt(sess, whole, pieces, b, paused, v0, v.retired, StartOf(pieces, b, |xs|))
    ensures if Completed(r)
            then (Stands(k, sess, whole, pieces, v0, links0, x.v, xs + [x], it') == true)
                 && (FairAt(sess, whole, pieces, b, paused, v0, x.v.retired, StartOf(pieces, b, |xs| + 1)) == true)
            else Unfair(sess, whole, pieces, b, paused, v0) == true
  {
    var p := pieces[|xs|];
    ModelsWith(k, sess, p.margins);
    ghost var last;
    var ps;
    x, r, ps, last := RunPlain(With(sess, p.margins), p.seg, paused, v, LinksAfter(links0, xs), p.env, k);
    FairMore(sess, whole, pieces, b, paused, v0, |xs|, v, x, r);
    it' := it;
    if Completed(r) {
      it' := StandsMore(k, sess, whole, pieces, v0, links0, v, xs, it, last.value, ps, x);
    }
  }

  /** Pieces one after the other, up to the first that does not complete. */
  method RunCuts<S(!new), L(!new)>(sess: Session<S, L>, whole: Piece, pieces: seq<Piece>, b: Piece,
                                   paused: nat -> bool, v0: Vcpu<S>, links0: seq<L>, ghost k: Walker<S, L>)
    returns (v: Vcpu<S>, xs: seq<Progress<S, L>>, rs: seq<Result<Outcome, RunError>>, ghost it: Itinerary)
    requires !v0.debugEnabled && v0.pending.None? && Models(k, sess)
    requires forall p :: p in pieces ==> PlainPiece(sess, p) && IsPiece(whole.seg, p.seg)
    ensures |xs| == |rs| <= |pieces|
    ensures if AllCompleted(rs)
            then |rs| == |pieces| && Stands(k, sess, whole, pieces, v0, links0, v, xs, it)
                 && FairAt(sess, whole, pieces, b, paused, v0, v.retired, b.seg.start)
            else Unfair(sess, whole, pieces, b, paused, v0)
  {
    v, xs, rs, it := v0, [], [], Start;
    StandsFirst(k, sess, whole, pieces, v0, links0);
    while |xs| < |pieces|
      invariant |xs| == |rs| <= |pieces| && AllCompleted(rs)
      invariant Stands(k, sess, whole, pieces, v0, links0, v, xs, it) == true
      invariant FairAt(sess, whole, pieces, b, paused, v0, v.retired, StartOf(pieces, b, |xs|)) == true
    {
      var x, r;
      x, r, it := RunCut(sess, whole, pieces, b, paused, v0, links0, v, xs, it, k);
      CompletedMore(rs, r);
      v, xs, rs := x.v, xs + [x], rs + [r];
      if !Completed(r) { return; }
    }
  }

  lemma LastMeets<S(!new), L>(k: Walker<S, L>, sess: Session<S, L>, whole: Piece, pieces: seq<Piece>, b: Piece,
                              v0: Vcpu<S>, links0: seq<L>, v: Vcpu<S>, xs: seq<Progress<S, L>>, it: Itinerary,
                              last: Last, x: Progress<S, L>, ps: seq<StopPoint>, lastB: Last, xb: Progress<S, L>,
                              psB: seq<StopPoint>)
    requires Lawful(k) && b.seg.scheduled == whole.seg.scheduled && b.seg.options == whole.seg.options
    requires Stands(k, sess, whole, pieces, v0, links0, v, xs, it)
    requires RanTo(k, With(sess, whole.margins), whole.seg, last, v0, links0, ps, x.v, x.links, x.landed)
    requires RanTo(k, With(sess, b.margins), b.seg, lastB, v, LinksAfter(links0, xs), psB, xb.v, xb.links, xb.landed)
    requires b.seg.start < xb.v.retired == x.v.retired
    ensures |xs| == |pieces| ==> EndToEnd(pieces, b, xs) == true
    ensures MeetAll(sess, links0, pieces, x, xs, xb) == true
  {
    if |xs| == |pieces| { EndsMeet(pieces, b, xs, v); }
    PieceLast(k, sess, whole.seg, it, whole.margins, b.margins, b.seg, v0, links0, last, x, ps, v,
              LinksAfter(links0, xs), Restored(sess, links0, pieces, xs), LandedIn(xs), lastB, xb, psB);
  }

  lemma AllLive<S(!new), L>(sess: Session<S, L>, whole: Piece, pieces: seq<Piece>, b: Piece, paused: nat -> bool,
                            v0: Vcpu<S>, v: Vcpu<S>, bound: nat, x: Progress<S, L>, r: Result<Outcome, RunError>,
                            xb: Progress<S, L>, rb: Result<Outcome, RunError>)
    requires FairPieces(sess, whole, pieces, b, paused, v0, bound) && v.pending == v0.pending
    requires FairAt(sess, whole, pieces, b, paused, v0, v.retired, b.seg.start)
    requires Lives(With(sess, whole.margins), whole.seg, paused, v0, whole.env, x, r)
    requires Lives(With(sess, b.margins), b.seg, paused, v, b.env, xb, rb)
    requires Completed(rb) ==> b.seg.start <= xb.v.retired
    ensures Completed(r) && Completed(rb) && b.seg.start < xb.v.retired == x.v.retired
  {
    PieceLives(sess, whole, paused, v0, v0, bound, x, r);
    PieceLives(sess, b, paused, v0, v, bound, xb, rb);
  }

  /** A run in one piece, and the same run in any number of pieces, each under any margins and any host schedule. */
  method RunPieces<S(!new), L(!new)>(sess: Session<S, L>, whole: Piece, pieces: seq<Piece>, b: Piece,
                                     paused: nat -> bool, v0: Vcpu<S>, links0: seq<L>)
    returns (x: Progress<S, L>, r: Result<Outcome, RunError>, xs: seq<Progress<S, L>>,
             rs: seq<Result<Outcome, RunError>>, xb: Progress<S, L>, rb: Result<Outcome, RunError>)
    requires !v0.debugEnabled && v0.pending.None? && PlainPiece(sess, whole) && PlainPiece(sess, b)
    requires forall p :: p in pieces ==> PlainPiece(sess, p) && IsPiece(whole.seg, p.seg)
    requires b.seg.scheduled == whole.seg.scheduled && b.seg.options == whole.seg.options
    ensures |xs| == |rs| <= |pieces| && (AllCompleted(rs) ==> |rs| == |pieces| && LinksGrow(links0, xs))
    ensures Completed(r) && AllCompleted(rs) && Completed(rb) && b.seg.start < xb.v.retired == x.v.retired ==>
              EndToEnd(pieces, b, xs) && MeetAll(sess, links0, pieces, x, xs, xb)
    ensures forall bound: nat {:trigger FairPieces(sess, whole, pieces, b, paused, v0, bound)} ::
              FairPieces(sess, whole, pieces, b, paused, v0, bound) ==>
                && Completed(r) && AllCompleted(rs) && Completed(rb) && EndToEnd(pieces, b, xs)
                && MeetAll(sess, links0, pieces, x, xs, xb)
  {
    ghost var k := WalkerOf(sess);
    WalkerModels(sess);
    WalkerIsLawful(sess);
    ModelsWith(k, sess, whole.margins);
    ModelsWith(k, sess, b.margins);
    var ps, psB, v;
    ghost var last, lastB, it;
    x, r, ps, last := RunPlain(With(sess, whole.margins), whole.seg, paused, v0, links0, whole.env, k);
    v, xs, rs, it := RunCuts(sess, whole, pieces, b, paused, v0, links0, k);
    xb, rb := x, Err(StartMismatch);
    if AllCompleted(rs) {
      xb, rb, psB, lastB := RunPlain(With(sess, b.margins), b.seg, paused, v, LinksAfter(links0, xs), b.env, k);
      if Completed(r) && Completed(rb) && b.seg.start < xb.v.retired == x.v.retired {
        LastMeets(k, sess, whole, pieces, b, v0, links0, v, xs, it, last.value, x, ps, lastB.value, xb, psB);
      }
      forall bound: nat | FairPieces(sess, whole, pieces, b, paused, v0, bound)
        ensures Completed(r) && Completed(rb) && b.seg.start < xb.v.retired == x.v.retired
      {
        AllLive(sess, whole, pieces, b, paused, v0, v, bound, x, r, xb, rb);
      }
    }
  }
}
