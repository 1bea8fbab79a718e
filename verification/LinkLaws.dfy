/** When run control links a boundary twice, in terms of the guest and the segment alone
    (crates/dh-vmm/src/runctl.rs). */
module LinkLaws {
  import opened Common
  import opened Machine
  import opened Boundary
  import opened VirtualTime
  import opened Agenda
  import opened Itineraries
  import opened RunModel
  import opened RunLaws

  // ---- the way of a guest through an agenda ---------------------------------------------------------------

  /** The states of the guest at the points of its agenda, after their inputs, and the micro-steps between them. */
  datatype Route<S> = Outset(at: S) | Leg(before: Route<S>, steps: nat, at: S)

  function Points<S>(r: Route<S>): nat
  {
    match r
    case Outset(_) => 0
    case Leg(before, _, _) => Points(before) + 1
  }

  /** A pick for every micro-step and every point. */
  function Cost<S>(r: Route<S>): nat
  {
    match r
    case Outset(_) => 0
    case Leg(before, n, _) => Cost(before) + n + 1
  }

  /** From `s` the guest lands at the point `p` after `n` micro-steps, with no exit refused and no input, no goal, no
      pause and no end there to keep the run from going on, in state `t`. */
  ghost predicate GoesOn<S, L>(sess: Session<S, L>, p: StopPoint, pause: bool, s: S, distance: int, n: nat, t: S)
  {
    && IsLanding(sess.g, s, n, distance) && Unrefused(sess.g, s, n)
    && Accepted(sess, Iter(sess.g, s, n), p.inputs) && t == LandAll(sess.land, Iter(sess.g, s, n), p.inputs)
    && sess.config.clock.vns(p.icount).Some? && p.finalStop.None? && !pause && !(p.goalPoll && sess.goal(t))
  }

  ghost predicate IsRoute<S, L>(sess: Session<S, L>, start: nat, ps: seq<StopPoint>, paused: nat -> bool, s0: S,
                                r: Route<S>)
  {
    match r
    case Outset(s) => s == s0
    case Leg(before, n, t) =>
      var i := Points(before);
      && IsRoute(sess, start, ps, paused, s0, before) && i < |ps|
      && GoesOn(sess, ps[i], paused(i), before.at, ps[i].icount - Behind(start, ps, i), n, t)
  }

  // ---- the condition ----------------------------------------------------------------------------------------

  predicate EndsAt(prior: seq<nat>, at: nat)
  {
    prior != [] && prior[|prior| - 1] == at
  }

  /** The boundary where the run stands before its point `i` is linked: by the caller at the start, else as an epoch. */
  predicate StandsLinked(seg: Segment, prior: seq<nat>, ps: seq<StopPoint>, i: nat)
    requires i <= |ps|
  {
    if i == 0 then EndsAt(prior, seg.start) else ActOf(seg.options, ps[i - 1]).hash
  }

  /** The guest takes an exit that unwinds the run, at micro-state `m`, before it retires another instruction. */
  ghost predicate UnwindsNext<S>(g: Guest<S>, s: S, m: nat)
  {
    FirstRefusal(g, s, m) && Retired(g, s, m) == 0 && !g.refuses(Iter(g, s, m)).value.Fault?
  }

  /** On its way the guest comes to a boundary that is linked, and unwinds the run right there. */
  ghost predicate UnwindsWhereLinked<S(!new), L>(sess: Session<S, L>, seg: Segment, prior: seq<nat>,
                                                 ps: seq<StopPoint>, paused: nat -> bool, s0: S)
  {
    exists r: Route<S>, m: nat ::
      && IsRoute(sess, seg.start, ps, paused, s0, r) && UnwindsNext(sess.g, r.at, m)
      && Points(r) < |ps| && Behind(seg.start, ps, Points(r)) < ps[Points(r)].icount
      && StandsLinked(seg, prior, ps, Points(r))
  }

  /** Final links are on, and either that happens, or there is nothing to run from a start that the caller linked. */
  ghost predicate CanLinkTwice<S(!new), L>(sess: Session<S, L>, seg: Segment, prior: seq<nat>, last: Last,
                                           ps: seq<StopPoint>, paused: nat -> bool, s0: S)
  {
    && seg.options.hashFinalStop
    && (UnwindsWhereLinked(sess, seg, prior, ps, paused, s0) || (last.at == seg.start && EndsAt(prior, seg.start)))
  }

  /** No call fails, and the overflow arrives within the margin. */
  predicate QuietHost<S, L>(sess: Session<S, L>, env: Schedule)
  {
    AllSound(env) && SkidBelow(env, sess.config.margins.skidMargin)
  }

  /** The run ended without an error, and some count is linked twice, the caller's links counted in. */
  predicate TwiceLinked<S, L>(sess: Session<S, L>, seg: Segment, prior: seq<nat>, ps: seq<StopPoint>, w: Walked<S, L>)
  {
    && w.r.Ok? && (w.r.value.unwound || 0 < w.n <= |ps|)
    && var o := w.r.value;
       !Distinct(AllCounts(prior, w.end.marks, EndLinked(sess, seg, ps, w.n, o), o.boundary.icount))
  }

  // ---- one quiet visit ------------------------------------------------------------------------------------------

  /** What a quiet visit without vectors comes to: the landing at micro-state `m` and the inputs, or else the first
      refused exit before it, at micro-state `m`. */
  ghost predicate QuietlyVisits<S, L>(sess: Session<S, L>, p: StopPoint, a: Progress<S, L>, x: Visit<S, L>, m: nat)
  {
    && QuietHost(sess, x.env)
    && (x.flow.Visited? ==>
          && IsLanding(sess.g, a.v.state, m, p.icount - a.v.retired) && Unrefused(sess.g, a.v.state, m)
          && Accepted(sess, Iter(sess.g, a.v.state, m), p.inputs) && x.b.v.retired == p.icount && x.b.v.pending.None?
          && x.b.v.state == LandAll(sess.land, Iter(sess.g, a.v.state, m), p.inputs))
    && (x.flow.Unwound? ==>
          && FirstRefusal(sess.g, a.v.state, m) && sess.g.refuses(Iter(sess.g, a.v.state, m)) == Some(x.flow.why)
          && !x.flow.why.Fault? && x.b.v.retired == a.v.retired + Retired(sess.g, a.v.state, m) < p.icount)
  }

  lemma QuietLanded<S(!new), L>(engine: Engine<S>, sess: Session<S, L>, seg: Segment,
                                injections: seq<ScheduledInjection>, p: StopPoint, a: Progress<S, L>, env: Schedule,
                                m: nat)
    requires IndicesFit(p, |injections|) && NoVectors(sess, seg) && p.injections == []
    requires var l := engine.land(a.v, p.icount, env);
             && l.r.Ok? && QuietHost(sess, l.env) && l.v.pending.None? && l.v.retired == p.icount
             && IsLanding(sess.g, a.v.state, m, p.icount - a.v.retired) && Unrefused(sess.g, a.v.state, m)
             && l.v.state == Iter(sess.g, a.v.state, m)
    ensures QuietlyVisits(sess, p, a, VisitOf(engine, sess, seg, injections, p, a, env), m) == true
  {
    var l := engine.land(a.v, p.icount, env);
    AppliesAll(sess, l.v, p.inputs);
    NothingQueued(sess, l.v.state, p.inputs);
    AppliesAccepted(sess, l.v, p.inputs, 0, Applied(l.v, [], [], false));
    var x := ApplyFrom(sess, Applied(l.v, [], [], false), p.inputs, 0);
    if !x.refused { assert x.vectors + DueVectors(injections, p) == []; }
  }

  lemma QuietVisit<S(!new), L>(engine: Engine<S>, sess: Session<S, L>, seg: Segment,
                               injections: seq<ScheduledInjection>, p: StopPoint, a: Progress<S, L>, env: Schedule)
    returns (m: nat)
    requires Runs(engine, sess.g, sess.config.margins) && !a.v.debugEnabled && IndicesFit(p, |injections|)
    requires NoVectors(sess, seg) && p.injections == [] && a.v.pending.None? && QuietHost(sess, env)
    requires a.v.retired <= p.icount
    ensures QuietlyVisits(sess, p, a, VisitOf(engine, sess, seg, injections, p, a, env), m) == true
  {
    EngineKeeps(engine, sess.g, sess.config.margins, a.v, p.icount, env);
    m := EngineTrack(engine, sess.g, sess.config.margins, a.v, p.icount, env);
    if engine.land(a.v, p.icount, env).r.Ok? { QuietLanded(engine, sess, seg, injections, p, a, env, m); }
  }

  // ---- the way of a quiet run --------------------------------------------------------------------------------

  /** The last mark is at the point just passed exactly if that is hashed. */
  predicate MarksTell(seg: Segment, ps: seq<StopPoint>, n: nat, marks: seq<EpochMark>)
    requires n <= |ps|
  {
    && (marks != [] ==> n > 0 && marks[|marks| - 1].icount <= ps[n - 1].icount)
    && (n > 0 ==>
          (ActOf(seg.options, ps[n - 1]).hash <==> marks != [] && marks[|marks| - 1].icount == ps[n - 1].icount))
  }

  /** The run has come to its point `n` along the route `r`. */
  ghost predicate OnRoute<S, L>(sess: Session<S, L>, seg: Segment, ps: seq<StopPoint>, paused: nat -> bool, s0: S,
                                n: nat, a: Progress<S, L>, r: Route<S>)
    requires n <= |ps|
  {
    && IsRoute(sess, seg.start, ps, paused, s0, r) && n == Points(r) && r.at == a.v.state
    && !a.v.debugEnabled && a.v.pending.None? && a.v.retired == Behind(seg.start, ps, n)
    && MarksTell(seg, ps, n, a.marks)
  }

  /** The stop lies past the start and past every mark. */
  predicate Apart(start: nat, marks: seq<EpochMark>, stop: nat)
  {
    start < stop && (marks != [] ==> marks[|marks| - 1].icount < stop)
  }

  /** The run was unwound at micro-state `m` past the end of the route `r`. */
  ghost predicate UnwoundAt<S, L>(sess: Session<S, L>, seg: Segment, ps: seq<StopPoint>, paused: nat -> bool, s0: S,
                                  end: Progress<S, L>, o: Outcome, r: Route<S>, m: nat)
  {
    && IsRoute(sess, seg.start, ps, paused, s0, r) && Points(r) < |ps|
    && FirstRefusal(sess.g, r.at, m) && !sess.g.refuses(Iter(sess.g, r.at, m)).value.Fault?
    && o.boundary.icount == Behind(seg.start, ps, Points(r)) + Retired(sess.g, r.at, m) < ps[Points(r)].icount
    && MarksTell(seg, ps, Points(r), end.marks)
  }

  lemma RouteMore<S(!new), L>(sess: Session<S, L>, seg: Segment, ps: seq<StopPoint>, paused: nat -> bool, s0: S,
                              n: nat, a: Progress<S, L>, env: Schedule, r: Route<S>, x: Visit<S, L>, m: nat)
    requires n < |ps| && PointsFrom(seg.start, ps) && OnRoute(sess, seg, ps, paused, s0, n, a, r)
    requires VisitKeeps(sess, seg, ps[n], a, env, x) && QuietlyVisits(sess, ps[n], a, x, m) && x.flow.Visited?
    requires ps[n].finalStop.None? && !paused(n) && !(ps[n].goalPoll && sess.goal(x.b.v.state))
    ensures OnRoute(sess, seg, ps, paused, s0, n + 1, x.b, Leg(r, m, x.b.v.state)) == true
  {
    assert n > 0 ==> ps[n - 1].icount < ps[n].icount;
    assert GoesOn(sess, ps[n], paused(n), r.at, ps[n].icount - Behind(seg.start, ps, n), m, x.b.v.state);
    assert IsRoute(sess, seg.start, ps, paused, s0, Leg(r, m, x.b.v.state));
    assert MarksTell(seg, ps, n + 1, x.b.marks);
  }

  lemma RouteUnwinds<S(!new), L>(sess: Session<S, L>, seg: Segment, ps: seq<StopPoint>, paused: nat -> bool, s0: S,
                                 n: nat, a: Progress<S, L>, env: Schedule, r: Route<S>, x: Visit<S, L>, m: nat,
                                 y: Verdict<S, L>)
    requires n < |ps| && PointsFrom(seg.start, ps) && OnRoute(sess, seg, ps, paused, s0, n, a, r)
    requires VisitKeeps(sess, seg, ps[n], a, env, x) && QuietlyVisits(sess, ps[n], a, x, m)
    requires JudgeKeeps(sess, seg, ps[n], paused(n), x, y) && y.stop && y.r.Ok? && y.r.value.unwound
    requires x.flow.Unwound? ==> y.c.v.retired == x.b.v.retired
    requires x.flow.Visited? ==> ps[n].finalStop.None? && !ps[n].epochHash
    requires !x.flow.Broken?
    ensures Apart(seg.start, y.c.marks, y.r.value.boundary.icount)
            || UnwoundAt(sess, seg, ps, paused, s0, y.c, y.r.value, r, m) == true
  {
    assert n > 0 ==> ps[n - 1].icount < ps[n].icount;
  }

  lemma RouteOne<S(!new), L(!new)>(c: Conduct<S, L>, engine: Engine<S>, sess: Session<S, L>, seg: Segment,
                                   injections: seq<ScheduledInjection>, ps: seq<StopPoint>, paused: nat -> bool,
                                   s0: S, n: nat, a: Progress<S, L>, env: Schedule, r: Route<S>)
    returns (m: nat)
    requires Conducts(c, engine, sess, seg, injections, ps, paused) && Runs(engine, sess.g, sess.config.margins)
    requires n < |ps| && PointsFrom(seg.start, ps) && NoVectors(sess, seg) && NoInjections(ps)
    requires OnRoute(sess, seg, ps, paused, s0, n, a, r) && QuietHost(sess, env)
    ensures var x := c.visit(n, a, env);
            var y := c.judge(n, x);
            && QuietHost(sess, y.env)
            && (!y.stop ==> OnRoute(sess, seg, ps, paused, s0, n + 1, x.b, Leg(r, m, x.b.v.state)) == true)
            && (y.stop && y.r.Ok? && y.r.value.unwound ==>
                  Apart(seg.start, y.c.marks, y.r.value.boundary.icount)
                  || UnwoundAt(sess, seg, ps, paused, s0, y.c, y.r.value, r, m) == true)
  {
    ConductKeeps(c, engine, sess, seg, injections, ps, paused, n, a, env);
    m := QuietVisit(engine, sess, seg, injections, ps[n], a, env);
    var x := c.visit(n, a, env);
    assert x == VisitOf(engine, sess, seg, injections, ps[n], a, env);
    var y := c.judge(n, x);
    assert y == Judge(engine, sess, seg, ps[n], paused(n), x);
    if !y.stop {
      RouteMore(sess, seg, ps, paused, s0, n, a, env, r, x, m);
    } else if y.r.Ok? && y.r.value.unwound {
      RouteUnwinds(sess, seg, ps, paused, s0, n, a, env, r, x, m, y);
    }
  }

  /** A quiet run without vectors that is unwound stops apart from every link, or where a refused exit is. */
  lemma {:induction false} QuietWalk<S(!new), L(!new)>(c: Conduct<S, L>, engine: Engine<S>, sess: Session<S, L>,
                                                       seg: Segment, injections: seq<ScheduledInjection>,
                                                       ps: seq<StopPoint>, paused: nat -> bool, s0: S, n: nat,
                                                       a: Progress<S, L>, env: Schedule, r: Route<S>)
    returns (r': Route<S>, m: nat)
    requires Conducts(c, engine, sess, seg, injections, ps, paused) && Runs(engine, sess.g, sess.config.margins)
    requires n <= |ps| && PointsFrom(seg.start, ps) && NoVectors(sess, seg) && NoInjections(ps)
    requires OnRoute(sess, seg, ps, paused, s0, n, a, r) && QuietHost(sess, env)
    ensures var w := WalkFrom(c, |ps|, n, a, env);
            w.r.Ok? && w.r.value.unwound ==>
              Apart(seg.start, w.end.marks, w.r.value.boundary.icount)
              || UnwoundAt(sess, seg, ps, paused, s0, w.end, w.r.value, r', m) == true
    decreases |ps| - n
  {
    r', m := r, 0;
    if n < |ps| {
      m := RouteOne(c, engine, sess, seg, injections, ps, paused, s0, n, a, env, r);
      var x := c.visit(n, a, env);
      var y := c.judge(n, x);
      if !y.stop {
        r', m := QuietWalk(c, engine, sess, seg, injections, ps, paused, s0, n + 1, x.b, y.env, Leg(r, m, x.b.v.state));
      }
    }
  }

  // ---- linked twice only then --------------------------------------------------------------------------------

  lemma UnwoundLinked<S(!new), L>(sess: Session<S, L>, seg: Segment, prior: seq<nat>, ps: seq<StopPoint>,
                                  paused: nat -> bool, s0: S, end: Progress<S, L>, o: Outcome, r: Route<S>, m: nat)
    requires PointsFrom(seg.start, ps) && FinalOnlyLast(ps) && UnwoundAt(sess, seg, ps, paused, s0, end, o, r, m)
    requires LinkedBefore(prior, end.marks, o.boundary.icount) && forall i :: 0 <= i < |prior| ==> prior[i] <= seg.start
    ensures UnwindsWhereLinked(sess, seg, prior, ps, paused, s0)
  {
    var i := Points(r);
    assert i > 0 ==> ps[i - 1].finalStop.None? && seg.start < ps[i - 1].icount;
    assert UnwindsNext(sess.g, r.at, m) && StandsLinked(seg, prior, ps, i);
  }

  lemma StoppedLinked<S(!new), L>(sess: Session<S, L>, seg: Segment, prior: seq<nat>, last: Last, ps: seq<StopPoint>,
                                  links0: seq<L>, n: nat, o: Outcome, pause: bool, b: Progress<S, L>,
                                  end: Progress<S, L>)
    requires PointsFrom(seg.start, ps) && FinalOnlyLast(ps) && |ps| > 0 && ps[|ps| - 1].icount == last.at
    requires Accounts(sess, seg, seg.start, links0, ps, n, o, end) && !o.unwound && EndLinked(sess, seg, ps, n, o)
    requires StopAt(sess, ps[n - 1], pause, b, o, end) && LinkedBefore(prior, end.marks, o.boundary.icount)
    requires forall i :: 0 <= i < |prior| ==> prior[i] <= seg.start
    ensures last.at == seg.start && EndsAt(prior, seg.start) && seg.options.hashFinalStop
  {}

  lemma TwiceUnwound<S(!new), L(!new)>(c: Conduct<S, L>, engine: Engine<S>, sess: Session<S, L>, seg: Segment,
                                       ps: seq<StopPoint>, paused: nat -> bool, v0: Vcpu<S>, links0: seq<L>,
                                       prior: seq<nat>, env: Schedule)
    requires NoVectors(sess, seg) && NoInjections(ps) && PointsFrom(seg.start, ps) && FinalOnlyLast(ps)
    requires v0.retired == seg.start && v0.pending.None? && !v0.debugEnabled && QuietHost(sess, env)
    requires Conducts(c, engine, sess, seg, seg.injections, ps, paused) && Runs(engine, sess.g, sess.config.margins)
    requires forall i :: 0 <= i < |prior| ==> prior[i] <= seg.start
    requires var w := WalkFrom(c, |ps|, 0, Begin(v0, links0), env);
             w.r.Ok? && w.r.value.unwound && LinkedBefore(prior, w.end.marks, w.r.value.boundary.icount)
    ensures UnwindsWhereLinked(sess, seg, prior, ps, paused, v0.state) == true
  {
    var w := WalkFrom(c, |ps|, 0, Begin(v0, links0), env);
    var r, m := QuietWalk(c, engine, sess, seg, seg.injections, ps, paused, v0.state, 0, Begin(v0, links0), env,
                          Outset(v0.state));
    UnwoundLinked(sess, seg, prior, ps, paused, v0.state, w.end, w.r.value, r, m);
  }

  /** Whatever quiet schedule links a count twice, the condition holds. */
  lemma TwiceOnlyThen<S(!new), L(!new)>(c: Conduct<S, L>, engine: Engine<S>, sess: Session<S, L>, seg: Segment,
                                        last: Last, ps: seq<StopPoint>, paused: nat -> bool, v0: Vcpu<S>,
                                        links0: seq<L>, prior: seq<nat>, env: Schedule)
    requires NoVectors(sess, seg) && CompiledFrom(sess, seg, Some(last), ps)
    requires v0.retired == seg.start && v0.pending.None? && !v0.debugEnabled
    requires Conducts(c, engine, sess, seg, seg.injections, ps, paused) && Runs(engine, sess.g, sess.config.margins)
    requires AscendingNats(prior) && forall i :: 0 <= i < |prior| ==> prior[i] <= seg.start
    requires QuietHost(sess, env) && TwiceLinked(sess, seg, prior, ps, WalkFrom(c, |ps|, 0, Begin(v0, links0), env))
    ensures CanLinkTwice(sess, seg, prior, last, ps, paused, v0.state) == true
  {
    SegmentPoints(sess, seg, last, ps);
    RunStops(c, engine, sess, seg, last, ps, paused, v0, links0, env);
    var w := WalkFrom(c, |ps|, 0, Begin(v0, links0), env);
    var o := w.r.value;
    OneLinkExactly(sess, seg, seg.start, links0, ps, w.n, o, w.end, prior);
    if o.unwound {
      TwiceUnwound(c, engine, sess, seg, ps, paused, v0, links0, prior, env);
    } else {
      StoppedLinked(sess, seg, prior, last, ps, links0, w.n, o, paused(w.n - 1), w.trace[|w.trace| - 1], w.end);
    }
  }

  // ---- and then it does ------------------------------------------------------------------------------------------

  /** A schedule of single micro-steps, in which nothing fails. */
  function Singles(n: nat): (env: Schedule)
    ensures |env| == n && forall p :: p in env ==> p == ONE
  {
    seq(n, _ => ONE)
  }

  lemma RouteVisit<S(!new), L>(engine: Engine<S>, sess: Session<S, L>, seg: Segment,
                               injections: seq<ScheduledInjection>, p: StopPoint, pause: bool, a: Progress<S, L>,
                               env: Schedule, n: nat, t: S)
    requires Runs(engine, sess.g, sess.config.margins) && IndicesFit(p, |injections|)
    requires NoVectors(sess, seg) && p.injections == [] && !a.v.debugEnabled && a.v.retired <= p.icount
    requires GoesOn(sess, p, pause, a.v.state, p.icount - a.v.retired, n, t)
    requires Smooth(a.v, sess.config.margins, env) && |env| > n
    ensures var x := VisitOf(engine, sess, seg, injections, p, a, env);
            && x.flow.Visited? && x.b.v.state == t && (QuietlyVisits(sess, p, a, x, n) == true)
            && Smooth(x.b.v, sess.config.margins, x.env) && |x.env| >= |env| - n - 1
  {
    LiveVisit(engine, sess, seg, injections, p, a, env, n);
  }

  /** One leg, on a smooth schedule with enough picks. */
  lemma RouteStep<S(!new), L(!new)>(c: Conduct<S, L>, engine: Engine<S>, sess: Session<S, L>, seg: Segment,
                                    injections: seq<ScheduledInjection>, ps: seq<StopPoint>, paused: nat -> bool,
                                    s0: S, a: Progress<S, L>, env: Schedule, r: Route<S>)
    requires Conducts(c, engine, sess, seg, injections, ps, paused) && Runs(engine, sess.g, sess.config.margins)
    requires PointsFrom(seg.start, ps) && NoVectors(sess, seg) && NoInjections(ps)
    requires r.Leg? && IsRoute(sess, seg.start, ps, paused, s0, r) && Points(r) <= |ps|
    requires OnRoute(sess, seg, ps, paused, s0, Points(r.before), a, r.before)
    requires Smooth(a.v, sess.config.margins, env) && |env| > r.steps
    ensures var i := Points(r.before);
            var x := c.visit(i, a, env);
            var y := c.judge(i, x);
            && !y.stop && (OnRoute(sess, seg, ps, paused, s0, i + 1, x.b, r) == true)
            && Smooth(x.b.v, sess.config.margins, y.env) && |y.env| >= |env| - r.steps - 1
  {
    var i := Points(r.before);
    var p := ps[i];
    assert i > 0 ==> ps[i - 1].icount < p.icount;
    RouteVisit(engine, sess, seg, injections, p, paused(i), a, env, r.steps, r.at);
    ConductKeeps(c, engine, sess, seg, injections, ps, paused, i, a, env);
    var x := VisitOf(engine, sess, seg, injections, p, a, env);
    assert c.judge(i, x) == Judge(engine, sess, seg, p, paused(i), x);
    RouteMore(sess, seg, ps, paused, s0, i, a, env, r.before, x, r.steps);
  }

  /** One point more of a walk: it ends as its rest does. */
  lemma WalkOn<S, L>(c: Conduct<S, L>, len: nat, n: nat, a: Progress<S, L>, env: Schedule)
    requires n < len
    ensures var w, x := WalkFrom(c, len, n, a, env), c.visit(n, a, env);
            var y := c.judge(n, x);
            if y.stop then w.r == y.r && w.end == y.c
            else var rest := WalkFrom(c, len, n + 1, x.b, y.env); w.r == rest.r && w.end == rest.end
  {}

  /** The run has come along the route `r`, and goes on from there. */
  ghost predicate CameTo<S, L>(c: Conduct<S, L>, sess: Session<S, L>, seg: Segment, ps: seq<StopPoint>,
                               paused: nat -> bool, v0: Vcpu<S>, links0: seq<L>, env: Schedule, r: Route<S>,
                               b: Progress<S, L>, rest: Schedule)
  {
    && Points(r) <= |ps| && OnRoute(sess, seg, ps, paused, v0.state, Points(r), b, r)
    && Smooth(b.v, sess.config.margins, rest) && |rest| >= |env| - Cost(r)
    && var w, w' := WalkFrom(c, |ps|, 0, Begin(v0, links0), env), WalkFrom(c, |ps|, Points(r), b, rest);
       w.r == w'.r && w.end == w'.end
  }

  lemma CameOn<S, L>(c: Conduct<S, L>, sess: Session<S, L>, seg: Segment, ps: seq<StopPoint>, paused: nat -> bool,
                     v0: Vcpu<S>, links0: seq<L>, env: Schedule, r: Route<S>, a: Progress<S, L>, env': Schedule)
    requires r.Leg? && Points(r) <= |ps| && CameTo(c, sess, seg, ps, paused, v0, links0, env, r.before, a, env')
    requires var x := c.visit(Points(r.before), a, env');
             var y := c.judge(Points(r.before), x);
             && !y.stop && OnRoute(sess, seg, ps, paused, v0.state, Points(r), x.b, r)
             && Smooth(x.b.v, sess.config.margins, y.env) && |y.env| >= |env'| - r.steps - 1
    ensures var x := c.visit(Points(r.before), a, env');
            var y := c.judge(Points(r.before), x);
            CameTo(c, sess, seg, ps, paused, v0, links0, env, r, x.b, y.env) == true
  {
    WalkOn(c, |ps|, Points(r.before), a, env');
  }

  /** A whole route. */
  lemma {:induction false} RouteRun<S(!new), L(!new)>(c: Conduct<S, L>, engine: Engine<S>, sess: Session<S, L>,
                                                      seg: Segment, injections: seq<ScheduledInjection>,
                                                      ps: seq<StopPoint>, paused: nat -> bool, v0: Vcpu<S>,
                                                      links0: seq<L>, env: Schedule, r: Route<S>)
    returns (b: Progress<S, L>, rest: Schedule)
    requires Conducts(c, engine, sess, seg, injections, ps, paused) && Runs(engine, sess.g, sess.config.margins)
    requires PointsFrom(seg.start, ps) && NoVectors(sess, seg) && NoInjections(ps)
    requires v0.retired == seg.start && !v0.debugEnabled && IsRoute(sess, seg.start, ps, paused, v0.state, r)
    requires Smooth(v0, sess.config.margins, env) && |env| >= Cost(r)
    ensures CameTo(c, sess, seg, ps, paused, v0, links0, env, r, b, rest) == true
  {
    match r
    case Outset(_) =>
      b, rest := Begin(v0, links0), env;
    case Leg(before, n, t) =>
      var a, env' := RouteRun(c, engine, sess, seg, injections, ps, paused, v0, links0, env, before);
      RouteStep(c, engine, sess, seg, injections, ps, paused, v0.state, a, env', r);
      CameOn(c, sess, seg, ps, paused, v0, links0, env, r, a, env');
      var x := c.visit(Points(before), a, env');
      b, rest := x.b, c.judge(Points(before), x).env;
  }

  /** At the end of a route the guest takes a refused exit before it retires anything: the run stops there, unwound. */
  lemma UnwindsHere<S(!new), L(!new)>(c: Conduct<S, L>, engine: Engine<S>, sess: Session<S, L>, seg: Segment,
                                      injections: seq<ScheduledInjection>, ps: seq<StopPoint>, paused: nat -> bool,
                                      n: nat, b: Progress<S, L>, env: Schedule, m: nat)
    requires Conducts(c, engine, sess, seg, injections, ps, paused) && Runs(engine, sess.g, sess.config.margins)
    requires n < |ps| && !b.v.debugEnabled && Smooth(b.v, sess.config.margins, env) && |env| > m + 1
    requires UnwindsNext(sess.g, b.v.state, m) && b.v.retired < ps[n].icount
    requires b.v.retired <= U64_MAX && sess.config.clock.vns(b.v.retired).Some?
    ensures var y := c.judge(n, c.visit(n, b, env));
            && y.stop && y.r.Ok? && y.r.value.unwound && y.r.value.boundary.icount == b.v.retired
            && y.c.marks == b.marks
  {
    EngineRefused(engine, sess.g, sess.config.margins, b.v, ps[n].icount, env, m);
    var l := engine.land(b.v, ps[n].icount, env);
    var x := VisitOf(engine, sess, seg, injections, ps[n], b, env);
    assert c.judge(n, x) == Judge(engine, sess, seg, ps[n], paused(n), x);
    assert l.env[0] in l.env;
  }

  lemma RouteClock<S, L>(sess: Session<S, L>, seg: Segment, ps: seq<StopPoint>, paused: nat -> bool, s0: S, r: Route<S>)
    requires IsRoute(sess, seg.start, ps, paused, s0, r) && Points(r) <= |ps| && sess.config.clock.vns(seg.start).Some?
    ensures var at := Behind(seg.start, ps, Points(r)); at <= U64_MAX && sess.config.clock.vns(at).Some?
  {
    if r.Leg? {
      var i := Points(r.before);
      assert GoesOn(sess, ps[i], paused(i), r.before.at, ps[i].icount - Behind(seg.start, ps, i), r.steps, r.at);
    }
  }

  lemma SinglesAreSmooth<S>(v: Vcpu<S>, margins: Margins, n: nat)
    requires v.pending.None?
    ensures Smooth(v, margins, Singles(n))
  {}

  /** Unwound where it stands linked, a run with final links on has linked that boundary twice. */
  lemma UnwoundIsTwice<S(!new), L>(sess: Session<S, L>, seg: Segment, prior: seq<nat>, ps: seq<StopPoint>, i: nat,
                                   links0: seq<L>, w: Walked<S, L>)
    requires AscendingNats(prior) && forall k :: 0 <= k < |prior| ==> prior[k] <= seg.start
    requires i <= |ps| && StandsLinked(seg, prior, ps, i) && seg.options.hashFinalStop
    requires w.r.Ok? && w.r.value.unwound && w.r.value.boundary.icount == Behind(seg.start, ps, i)
    requires MarksTell(seg, ps, i, w.end.marks)
    requires Accounts(sess, seg, seg.start, links0, ps, w.n, w.r.value, w.end)
    ensures TwiceLinked(sess, seg, prior, ps, w)
  {
    OneLinkExactly(sess, seg, seg.start, links0, ps, w.n, w.r.value, w.end, prior);
  }

  lemma TwiceByUnwinding<S(!new), L(!new)>(c: Conduct<S, L>, engine: Engine<S>, sess: Session<S, L>, seg: Segment,
                                           last: Last, ps: seq<StopPoint>, paused: nat -> bool, v0: Vcpu<S>,
                                           links0: seq<L>, prior: seq<nat>, r: Route<S>, m: nat)
    returns (env: Schedule)
    requires NoVectors(sess, seg) && CompiledFrom(sess, seg, Some(last), ps) && sess.config.clock.vns(seg.start).Some?
    requires v0.retired == seg.start && v0.pending.None? && !v0.debugEnabled
    requires Conducts(c, engine, sess, seg, seg.injections, ps, paused) && Runs(engine, sess.g, sess.config.margins)
    requires AscendingNats(prior) && forall i :: 0 <= i < |prior| ==> prior[i] <= seg.start
    requires IsRoute(sess, seg.start, ps, paused, v0.state, r) && UnwindsNext(sess.g, r.at, m)
    requires Points(r) < |ps| && Behind(seg.start, ps, Points(r)) < ps[Points(r)].icount
    requires StandsLinked(seg, prior, ps, Points(r)) && seg.options.hashFinalStop
    ensures QuietHost(sess, env) && TwiceLinked(sess, seg, prior, ps, WalkFrom(c, |ps|, 0, Begin(v0, links0), env))
  {
    env := Singles(Cost(r) + m + 2);
    SinglesAreSmooth(v0, sess.config.margins, Cost(r) + m + 2);
    SegmentPoints(sess, seg, last, ps);
    var b, rest := RouteRun(c, engine, sess, seg, seg.injections, ps, paused, v0, links0, env, r);
    RouteClock(sess, seg, ps, paused, v0.state, r);
    UnwindsHere(c, engine, sess, seg, seg.injections, ps, paused, Points(r), b, rest, m);
    WalkOn(c, |ps|, Points(r), b, rest);
    RunStops(c, engine, sess, seg, last, ps, paused, v0, links0, env);
    UnwoundIsTwice(sess, seg, prior, ps, Points(r), links0, WalkFrom(c, |ps|, 0, Begin(v0, links0), env));
  }

  // ---- nothing to run ----------------------------------------------------------------------------------------------

  /** The one point of an agenda that ends where it starts. */
  lemma StartPoint<S, L>(sess: Session<S, L>, seg: Segment, last: Last, ps: seq<StopPoint>)
    requires NoVectors(sess, seg) && CompiledFrom(sess, seg, Some(last), ps) && last.at == seg.start
    ensures |ps| == 1 && ps[0] == StopPoint(seg.start, [], [], false, false, Some(last.kind))
  {
    SegmentPoints(sess, seg, last, ps);
    assert ps[0] in ps;
  }

  lemma TwiceAtStart<S(!new), L(!new)>(c: Conduct<S, L>, engine: Engine<S>, sess: Session<S, L>, seg: Segment,
                                       last: Last, ps: seq<StopPoint>, paused: nat -> bool, v0: Vcpu<S>,
                                       links0: seq<L>, prior: seq<nat>)
    returns (env: Schedule)
    requires NoVectors(sess, seg) && CompiledFrom(sess, seg, Some(last), ps) && sess.config.clock.vns(seg.start).Some?
    requires v0.retired == seg.start && v0.pending.None? && !v0.debugEnabled
    requires Conducts(c, engine, sess, seg, seg.injections, ps, paused) && Runs(engine, sess.g, sess.config.margins)
    requires AscendingNats(prior) && forall i :: 0 <= i < |prior| ==> prior[i] <= seg.start
    requires last.at == seg.start && EndsAt(prior, seg.start) && seg.options.hashFinalStop
    ensures QuietHost(sess, env) && TwiceLinked(sess, seg, prior, ps, WalkFrom(c, |ps|, 0, Begin(v0, links0), env))
  {
    env := Singles(1);
    SinglesAreSmooth(v0, sess.config.margins, 1);
    StartPoint(sess, seg, last, ps);
    var a := Begin(v0, links0);
    assert IsLanding(sess.g, v0.state, 0, 0);
    LiveVisit(engine, sess, seg, seg.injections, ps[0], a, env, 0);
    var x := VisitOf(engine, sess, seg, seg.injections, ps[0], a, env);
    assert c.judge(0, x) == Judge(engine, sess, seg, ps[0], paused(0), x);
    RunStops(c, engine, sess, seg, last, ps, paused, v0, links0, env);
    var w := WalkFrom(c, 1, 0, a, env);
    OneLinkExactly(sess, seg, seg.start, links0, ps, w.n, w.r.value, w.end, prior);
    MarksLieBetween(sess, seg.start, seg.start, links0, w.end.links, w.end.marks);
  }

  /** Over all schedules in which no call fails and the overflow arrives within the margin, a run without vectors can
      link a count twice if and only if final links are on, and the guest unwinds the run at a boundary that is linked
      before it retires another instruction, or there is nothing to run from a start that the caller linked. */
  lemma LinkedTwiceExactly<S(!new), L(!new)>(c: Conduct<S, L>, engine: Engine<S>, sess: Session<S, L>, seg: Segment,
                                             last: Last, ps: seq<StopPoint>, paused: nat -> bool, v0: Vcpu<S>,
                                             links0: seq<L>, prior: seq<nat>)
    requires NoVectors(sess, seg) && CompiledFrom(sess, seg, Some(last), ps) && sess.config.clock.vns(seg.start).Some?
    requires v0.retired == seg.start && v0.pending.None? && !v0.debugEnabled
    requires Conducts(c, engine, sess, seg, seg.injections, ps, paused) && Runs(engine, sess.g, sess.config.margins)
    requires AscendingNats(prior) && forall i :: 0 <= i < |prior| ==> prior[i] <= seg.start
    ensures (exists env: Schedule ::
               QuietHost(sess, env) && TwiceLinked(sess, seg, prior, ps, WalkFrom(c, |ps|, 0, Begin(v0, links0), env)))
            <==> CanLinkTwice(sess, seg, prior, last, ps, paused, v0.state)
  {
    if env: Schedule :|
      QuietHost(sess, env) && TwiceLinked(sess, seg, prior, ps, WalkFrom(c, |ps|, 0, Begin(v0, links0), env))
    {
      TwiceOnlyThen(c, engine, sess, seg, last, ps, paused, v0, links0, prior, env);
    }
    if CanLinkTwice(sess, seg, prior, last, ps, paused, v0.state) {
      if UnwindsWhereLinked(sess, seg, prior, ps, paused, v0.state) {
        var r: Route<S>, m: nat :|
          && IsRoute(sess, seg.start, ps, paused, v0.state, r) && UnwindsNext(sess.g, r.at, m)
          && Points(r) < |ps| && Behind(seg.start, ps, Points(r)) < ps[Points(r)].icount
          && StandsLinked(seg, prior, ps, Points(r));
        var env := TwiceByUnwinding(c, engine, sess, seg, last, ps, paused, v0, links0, prior, r, m);
      } else {
        var env := TwiceAtStart(c, engine, sess, seg, last, ps, paused, v0, links0, prior);
      }
    }
  }

  /** A run without frames links a count twice exactly if final links are on and the caller linked the start. */
  lemma NoFramesTwice<S(!new), L>(sess: Session<S, L>, seg: Segment, v0: Vcpu<S>, links0: seq<L>, prior: seq<nat>,
                                  env: Schedule)
    requires v0.retired == seg.start && sess.config.clock.vns(seg.start).Some? && AllSound(env) && |env| > 0
    requires AscendingNats(prior) && forall i :: 0 <= i < |prior| ==> prior[i] <= seg.start
    ensures var y := CounterStop(sess, seg, BudgetReached, Begin(v0, links0), env);
            TwiceLinked(sess, seg, prior, [], Walked(y.c, y.r, y.env, 0, [])) <==>
              seg.options.hashFinalStop && EndsAt(prior, seg.start)
  {
    assert env[0] in env;
    CounterKeeps(sess, seg, BudgetReached, Begin(v0, links0), env);
    var y := CounterStop(sess, seg, BudgetReached, Begin(v0, links0), env);
    OneLinkExactly(sess, seg, seg.start, links0, [], 0, y.r.value, y.c, prior);
  }
}
