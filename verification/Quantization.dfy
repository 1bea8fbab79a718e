/** Quantization independence: cutting a run in two leaves no trace in its hash links or in the order
    of its inputs (crates/dh-vmm/src/runctl.rs, crates/dh-vmm/src/agenda.rs). */
module Quantization {
  import opened Common
  import opened Boundary
  import opened Agenda
  import opened Itineraries
  import opened RunModel
  import opened RunLaws
  import opened RunControl

  /** `a` then `b` is a cut of `seg`: the same inputs and hashing, `a` from the same start and without
      a link of its own where it stops. How far each runs is left to its own `until`. */
  predicate IsCut(seg: Segment, a: Segment, b: Segment)
  {
    && a.start == seg.start && a.scheduled == b.scheduled == seg.scheduled
    && a.options.paranoidHash == seg.options.paranoidHash && b.options == seg.options
    && !a.options.hashFinalStop
  }

  /** A segment that `RunSegment` accepts and that no vector disturbs. */
  predicate Plain<S, L>(sess: Session<S, L>, seg: Segment)
  {
    NoVectors(sess, seg) && !(seg.start == U64_MAX && EpochsOn(sess, seg.options) && sess.config.epochLen == 1)
  }

  function With<S, L>(sess: Session<S, L>, m: Margins): Session<S, L>
  {
    sess.(config := sess.config.(margins := m))
  }

  /** The cut falls on an epoch boundary whose hash the first half leaves out. */
  predicate DropsEpoch<S, L>(sess: Session<S, L>, a: Segment, mid: nat)
  {
    && !a.options.hashFinalEpoch && a.start < mid
    && EpochsOn(sess, a.options) && sess.config.epochLen > 0 && IsMultiple(mid, sess.config.epochLen)
  }

  /** Two walks that have the busy stops of one between them do together what that one does. */
  lemma CutKept<S(!new), L>(k: Walker<S, L>, t: Trail<S, L>, it: Itinerary, itA: Itinerary, itB: Itinerary,
                            tb: Trail<S, L>)
    returns (y: Trail<S, L>)
    requires Lawful(k) && Busy(it) == Join(Busy(itA), Busy(itB))
    requires Walkable(k, t, it) && Walkable(k, t, itA) && Walkable(k, tb, itB)
    requires tb == Walk(k, t, itA).(links := tb.links, landed := []) && Walk(k, t, it).icount == Walk(k, tb, itB).icount
    ensures Walk(k, tb, itB) == y.(links := tb.links + y.links)
    ensures var xa := Walk(k, t, itA); Walk(k, t, it) == y.(links := xa.links + y.links, landed := xa.landed + y.landed)
  {
    y := Walk(k, tb.(links := []), itB);
    FreshWalk(k, tb, itB);
    FreshWalk(k, Walk(k, t, itA), itB);
    SameBusySameWalk(k, t, it, itA, itB);
  }

  /** `links` is `linksB` with one more link, right after `linksA`. */
  predicate CutOut<L(==)>(links: seq<L>, linksA: seq<L>, linksB: seq<L>, link: L)
  {
    linksA <= linksB && links == linksA + [link] + linksB[|linksA|..]
  }

  /** What the options say of the final stop concerns the last links only. */
  lemma EndingAfter<S, L>(k: Walker<S, L>, y: Trail<S, L>, x: Trail<S, L>, before: seq<L>, onEpoch: bool, o: RunOptions)
    requires y.icount <= U64_MAX && (onEpoch ==> |y.links| > 0)
    requires x == y.(links := before + y.links, landed := x.landed)
    ensures Ending(k, x, onEpoch, o) == before + Ending(k, y, onEpoch, o)
  {}

  /** The link of an epoch at the cut is the only one that can be missing. */
  lemma CutLinks<S, L>(k: Walker<S, L>, x: Trail<S, L>, xa: Trail<S, L>, xb: Trail<S, L>, y: Trail<S, L>, la: seq<L>,
                       onEpoch: bool, cutOnEpoch: bool, o: RunOptions, oa: RunOptions)
    requires x.icount <= U64_MAX && xa.icount <= U64_MAX && !oa.hashFinalStop
    requires (onEpoch ==> |y.links| > 0) && (cutOnEpoch ==> |xa.links| > 0)
    requires la == Ending(k, xa, cutOnEpoch, oa)
    requires x == y.(links := xa.links + y.links, landed := xa.landed + y.landed) && xb == y.(links := la + y.links)
    ensures var dropped := cutOnEpoch && !oa.hashFinalEpoch;
            var l, lb := Ending(k, x, onEpoch, o), Ending(k, xb, onEpoch, o);
            if dropped then CutOut(l, la, lb, xa.links[|xa.links| - 1]) else l == lb
  {
    EndingAfter(k, y, x, xa.links, onEpoch, o);
    EndingAfter(k, y, xb, la, onEpoch, o);
    if cutOnEpoch && !oa.hashFinalEpoch {
      assert xa.links == la + [xa.links[|xa.links| - 1]];
    }
  }

  /** Cutting a walk. */
  lemma CutWalk<S(!new), L>(k: Walker<S, L>, t: Trail<S, L>, o: RunOptions, oa: RunOptions, ps: seq<StopPoint>,
                            psA: seq<StopPoint>, psB: seq<StopPoint>, a: Trail<S, L>, tb: Trail<S, L>)
    requires Lawful(k) && t.landed == [] && !oa.hashFinalStop
    requires WalksOver(k, t, o, ps) && WalksOver(k, t, oa, psA) && a == Ended(k, t, oa, psA)
    requires tb == a.(landed := []) && WalksOver(k, tb, o, psB)
    requires Busy(Acts(KEEP, ps, |ps|)) == Join(Busy(Acts(KEEP, psA, |psA|)), Busy(Acts(KEEP, psB, |psB|)))
    requires ps[|ps| - 1].icount == psB[|psB| - 1].icount && ps[|ps| - 1].epochHash == psB[|psB| - 1].epochHash
    ensures var w, b := Ended(k, t, o, ps), Ended(k, tb, o, psB);
            && w.state == b.state && w.landed == a.landed + b.landed
            && if psA[|psA| - 1].epochHash && !oa.hashFinalEpoch
               then CutOut(w.links, a.links, b.links, k.link(a.state, psA[|psA| - 1].icount)) else w.links == b.links
  {
    var x := FinalOptions(k, t, ps, o);
    var xa := FinalOptions(k, t, psA, oa);
    var xb := FinalOptions(k, tb, psB, o);
    var y := CutKept(k, t, Acts(KEEP, ps, |ps|), Acts(KEEP, psA, |psA|), Acts(KEEP, psB, |psB|), tb);
    CutLinks(k, x, xa, xb, y, a.links, ps[|ps| - 1].epochHash, psA[|psA| - 1].epochHash, o, oa);
  }

  /** One completed run and two that meet. */
  lemma CutRuns<S(!new), L>(k: Walker<S, L>, sess: Session<S, L>, seg: Segment, a: Segment, b: Segment, m: Margins,
                            ma: Margins, mb: Margins, v0: Vcpu<S>, links0: seq<L>, last: Last, x: Progress<S, L>,
                            ps: seq<StopPoint>, lastA: Last, xa: Progress<S, L>, psA: seq<StopPoint>, lastB: Last,
                            xb: Progress<S, L>, psB: seq<StopPoint>)
    requires Lawful(k) && Models(k, sess) && IsCut(seg, a, b)
    requires RanTo(k, With(sess, m), seg, last, v0, links0, ps, x.v, x.links, x.landed)
    requires RanTo(k, With(sess, ma), a, lastA, v0, links0, psA, xa.v, xa.links, xa.landed)
    requires RanTo(k, With(sess, mb), b, lastB, xa.v, xa.links, psB, xb.v, xb.links, xb.landed)
    requires b.start < xb.v.retired == x.v.retired
    ensures Meet(sess, a, b, x, xa, xb) == true
  {
    CutStops(seg.scheduled, EpochGrid(sess, seg.options), seg.start, b.start, last.at, ps, psA, psB);
    CutWalk(k, From(v0.state, v0.retired, links0), seg.options, a.options, ps, psA, psB,
            Trail(xa.v.state, xa.v.retired, xa.links, xa.landed), From(xa.v.state, xa.v.retired, xa.links));
    assert k.link(xa.v.state, b.start) == sess.capture(xa.v.state, None, b.start,
                                                       VnsAt(sess.config.clock.vns, b.start));
  }

  /** The outcome of a run in one piece against the outcome in two: the same state, the inputs of the one after those
      of the other, and the same links, but for that of an epoch at the cut which the first half left out. */
  predicate Meet<S(==), L(==)>(sess: Session<S, L>, a: Segment, b: Segment, x: Progress<S, L>, xa: Progress<S, L>,
                               xb: Progress<S, L>)
  {
    && x.v.state == xb.v.state && x.landed == xa.landed + xb.landed
    && if DropsEpoch(sess, a, b.start)
       then CutOut(x.links, xa.links, xb.links,
                   sess.capture(xa.v.state, None, b.start, VnsAt(sess.config.clock.vns, b.start)))
       else x.links == xb.links
  }

  /** The count at which a segment without vectors ends. */
  function EndOf<S, L>(sess: Session<S, L>, seg: Segment): Option<u64>
  {
    var last := FinalPoint(Inputs(sess, seg, []));
    if last.Some? then Some(last.value.at) else None
  }

  lemma EndOfWith<S, L>(sess: Session<S, L>, m: Margins, seg: Segment)
    ensures EndOf(With(sess, m), seg) == EndOf(sess, seg)
  {}

  /** Three runs that nothing stands in the way of, the second half from where the first one's agenda ends to the end of
      the whole. */
  ghost predicate FairSplit<S(!new), L>(sess: Session<S, L>, seg: Segment, a: Segment, b: Segment, m: Margins,
                                        ma: Margins, mb: Margins, paused: nat -> bool, v0: Vcpu<S>, env: Schedule,
                                        envA: Schedule, envB: Schedule, bound: nat)
  {
    && Fair(With(sess, m), seg, paused, v0, env, bound) && Fair(With(sess, ma), a, paused, v0, envA, bound)
    && Fair(With(sess, mb), b, paused, v0.(retired := b.start), envB, bound)
    && EndOf(sess, a) == Some(b.start) && EndOf(sess, b) == EndOf(sess, seg) && EndOf(sess, b) != Some(b.start)
  }

  /** Only the count and the pending vector of the vCPU matter. */
  lemma FairFrom<S(!new), L>(sess: Session<S, L>, seg: Segment, paused: nat -> bool, v: Vcpu<S>, v': Vcpu<S>,
                             env: Schedule, bound: nat)
    requires Fair(sess, seg, paused, v, env, bound) && v'.retired == v.retired && v'.pending == v.pending
    ensures Fair(sess, seg, paused, v', env, bound) == true
  {}

  ghost predicate Lives<S(!new), L>(sess: Session<S, L>, seg: Segment, paused: nat -> bool, v: Vcpu<S>, env: Schedule,
                                    x: Progress<S, L>, r: Result<Outcome, RunError>)
  {
    && (Completed(r) ==> x.v.pending.None? && EndOf(sess, seg) == Some(x.v.retired))
    && forall bound: nat {:trigger Fair(sess, seg, paused, v, env, bound)} ::
         Fair(sess, seg, paused, v, env, bound) ==> Completed(r)
  }

  lemma SplitLives<S(!new), L>(sess: Session<S, L>, seg: Segment, a: Segment, b: Segment, m: Margins, ma: Margins,
                               mb: Margins, paused: nat -> bool, v0: Vcpu<S>, env: Schedule, envA: Schedule,
                               envB: Schedule, bound: nat, x: Progress<S, L>, r: Result<Outcome, RunError>,
                               xa: Progress<S, L>, ra: Result<Outcome, RunError>, xb: Progress<S, L>,
                               rb: Result<Outcome, RunError>)
    requires FairSplit(sess, seg, a, b, m, ma, mb, paused, v0, env, envA, envB, bound)
    requires Lives(With(sess, m), seg, paused, v0, env, x, r) && Lives(With(sess, ma), a, paused, v0, envA, xa, ra)
    requires Completed(ra) ==> Lives(With(sess, mb), b, paused, xa.v, envB, xb, rb)
    requires v0.pending.None? && (Completed(rb) ==> b.start <= xb.v.retired)
    ensures Completed(r) && Completed(ra) && Completed(rb) && b.start < xb.v.retired == x.v.retired
  {
    EndOfWith(sess, m, seg);
    EndOfWith(sess, ma, a);
    EndOfWith(sess, mb, b);
    FairFrom(With(sess, mb), b, paused, v0.(retired := b.start), xa.v, envB, bound);
  }

  lemma ModelsWith<S(!new), L>(k: Walker<S, L>, sess: Session<S, L>, m: Margins)
    requires Models(k, sess)
    ensures Models(k, With(sess, m)) == true
  {}

  /** The same run in one piece and in two, under any margins and any host schedules. */
  method RunSplit<S(!new), L(!new)>(sess: Session<S, L>, seg: Segment, a: Segment, b: Segment, m: Margins, ma: Margins,
                                    mb: Margins, paused: nat -> bool, v0: Vcpu<S>, links0: seq<L>, env: Schedule,
                                    envA: Schedule, envB: Schedule)
    returns (x: Progress<S, L>, r: Result<Outcome, RunError>, xa: Progress<S, L>, ra: Result<Outcome, RunError>,
             xb: Progress<S, L>, rb: Result<Outcome, RunError>)
    requires !v0.debugEnabled && v0.pending.None?
    requires Plain(sess, seg) && Plain(sess, a) && Plain(sess, b) && IsCut(seg, a, b)
    requires SkidBelow(env, m.skidMargin) && SkidBelow(envA, ma.skidMargin) && SkidBelow(envB, mb.skidMargin)
    ensures Completed(r) && Completed(ra) && Completed(rb) && b.start < xb.v.retired == x.v.retired ==>
              Meet(sess, a, b, x, xa, xb)
    ensures forall bound: nat {:trigger FairSplit(sess, seg, a, b, m, ma, mb, paused, v0, env, envA, envB, bound)} ::
              FairSplit(sess, seg, a, b, m, ma, mb, paused, v0, env, envA, envB, bound) ==>
                Completed(r) && Completed(ra) && Completed(rb) && Meet(sess, a, b, x, xa, xb)
  {
    ghost var k := WalkerOf(sess);
    WalkerModels(sess);
    WalkerIsLawful(sess);
    ModelsWith(k, sess, m);
    ModelsWith(k, sess, ma);
    ModelsWith(k, sess, mb);
    var ps, psA, psB;
    ghost var last, lastA, lastB;
    x, r, ps, last := RunPlain(With(sess, m), seg, paused, v0, links0, env, k);
    xa, ra, psA, lastA := RunPlain(With(sess, ma), a, paused, v0, links0, envA, k);
    xb, rb, psB, lastB := xa, Err(StartMismatch), [], None;
    if Completed(ra) {
      xb, rb, psB, lastB := RunPlain(With(sess, mb), b, paused, xa.v, xa.links, envB, k);
    }
    if Completed(r) && Completed(rb) && b.start < xb.v.retired == x.v.retired {
      CutRuns(k, sess, seg, a, b, m, ma, mb, v0, links0, last.value, x, ps, lastA.value, xa, psA, lastB.value, xb, psB);
    }
    forall bound: nat | FairSplit(sess, seg, a, b, m, ma, mb, paused, v0, env, envA, envB, bound)
      ensures Completed(r) && Completed(ra) && Completed(rb) && b.start < xb.v.retired == x.v.retired
    {
      SplitLives(sess, seg, a, b, m, ma, mb, paused, v0, env, envA, envB, bound, x, r, xa, ra, xb, rb);
    }
  }

  /** A calm run without vectors: what it comes to if it completes, and that it does if nothing stands in its way. */
  method RunPlain<S(!new), L(!new)>(sess: Session<S, L>, seg: Segment, paused: nat -> bool, v0: Vcpu<S>, links0: seq<L>,
                                    env: Schedule, ghost k: Walker<S, L>)
    returns (x: Progress<S, L>, r: Result<Outcome, RunError>, ps: seq<StopPoint>, ghost last: Option<Last>)
    requires !v0.debugEnabled && Plain(sess, seg) && Calm(v0, sess.config.margins, env) && Models(k, sess)
    ensures Completed(r) ==>
              && !x.v.debugEnabled && x.v.pending.None? && last.Some? && seg.start <= x.v.retired
              && (RanTo(k, sess, seg, last.value, v0, links0, ps, x.v, x.links, x.landed) == true)
    ensures Lives(sess, seg, paused, v0, env, x, r) == true
  {
    ghost var engine := EngineOf(sess.g, sess.config.margins);
    EngineRuns(sess.g, sess.config.margins);
    var rest, n;
    ghost var c, trace;
    x, r, rest, ps, n, last, c, trace := RunSegment(sess, seg, paused, v0, links0, env, k, engine);
  }
}
