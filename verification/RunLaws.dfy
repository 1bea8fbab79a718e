/** What every run of run control promises: which links it pushes, where it stops, that a due timer fires, what a
    calm run without vectors amounts to, and when a run completes (crates/dh-vmm/src/runctl.rs). */
module RunLaws {
  import opened Common
  import opened Machine
  import opened Boundary
  import opened Inject
  import opened VirtualTime
  import opened Agenda
  import opened Itineraries
  import opened RunModel

  // ---- inputs and vectors ----------------------------------------------------------------------------

  /** The vectors that inputs queue, in order. */
  function QueuedBy<S, L>(sess: Session<S, L>, s: S, idxs: seq<nat>): seq<Vector>
  {
    if |idxs| == 0 then []
    else
      var before := idxs[..|idxs| - 1];
      QueuedBy(sess, s, before) + Raised(sess, LandAll(sess.land, s, before), idxs[|idxs| - 1])
  }

  /** The first `i` inputs have landed. */
  predicate AppliedTo<S(==), L>(sess: Session<S, L>, v: Vcpu<S>, idxs: seq<nat>, i: nat, a: Applied<S>)
    requires i <= |idxs|
  {
    && a.v == v.(state := LandAll(sess.land, v.state, idxs[..i])) && a.landed == idxs[..i]
    && a.vectors == QueuedBy(sess, v.state, idxs[..i])
  }

  lemma AppliedMore<S, L>(sess: Session<S, L>, v: Vcpu<S>, idxs: seq<nat>, i: nat, a: Applied<S>)
    requires i < |idxs| && AppliedTo(sess, v, idxs, i, a)
    ensures AppliedTo(sess, v, idxs, i + 1, ApplyNext(sess, a, idxs[i])) == true
  {
    assert idxs[..i + 1][..i] == idxs[..i];
  }

  /** Inputs land in order, up to the first that the sink refuses. */
  lemma {:induction false} AppliesInOrder<S, L>(sess: Session<S, L>, v: Vcpu<S>, idxs: seq<nat>, i: nat, a: Applied<S>)
    returns (j: nat)
    requires i <= |idxs| && AppliedTo(sess, v, idxs, i, a) && !a.refused
    ensures var x := ApplyFrom(sess, a, idxs, i);
            && j <= |idxs| && AppliedTo(sess, v, idxs, j, x)
            && (if x.refused then j < |idxs| && sess.sinkRefuses(x.v.state, idxs[j]) else j == |idxs|)
    decreases |idxs| - i
  {
    j := i;
    if i < |idxs| && !sess.sinkRefuses(a.v.state, idxs[i]) {
      AppliedMore(sess, v, idxs, i, a);
      j := AppliesInOrder(sess, v, idxs, i + 1, ApplyNext(sess, a, idxs[i]));
    }
  }

  /** All of a point's inputs. */
  lemma AppliesAll<S, L>(sess: Session<S, L>, v: Vcpu<S>, idxs: seq<nat>)
    ensures var x := ApplyFrom(sess, Applied(v, [], [], false), idxs, 0);
            && x.v == v.(state := x.v.state)
            && (!x.refused ==>
                  && x.v.state == LandAll(sess.land, v.state, idxs) && x.landed == idxs
                  && x.vectors == QueuedBy(sess, v.state, idxs))
  {
    var j := AppliesInOrder(sess, v, idxs, 0, Applied(v, [], [], false));
    assert idxs[..|idxs|] == idxs;
  }

  /** The sink takes all of these inputs. */
  predicate Accepted<S, L>(sess: Session<S, L>, s: S, idxs: seq<nat>)
  {
    forall j :: 0 <= j < |idxs| ==> !sess.sinkRefuses(LandAll(sess.land, s, idxs[..j]), idxs[j])
  }

  lemma {:induction false} AppliesAccepted<S, L>(sess: Session<S, L>, v: Vcpu<S>, idxs: seq<nat>, i: nat, a: Applied<S>)
    requires i <= |idxs| && AppliedTo(sess, v, idxs, i, a) && !a.refused
    requires forall j :: 0 <= j < i ==> !sess.sinkRefuses(LandAll(sess.land, v.state, idxs[..j]), idxs[j])
    ensures !ApplyFrom(sess, a, idxs, i).refused <==> Accepted(sess, v.state, idxs)
    decreases |idxs| - i
  {
    if i < |idxs| && !sess.sinkRefuses(a.v.state, idxs[i]) {
      AppliedMore(sess, v, idxs, i, a);
      AppliesAccepted(sess, v, idxs, i + 1, ApplyNext(sess, a, idxs[i]));
    }
  }

  lemma {:induction false} NothingQueued<S, L>(sess: Session<S, L>, s: S, idxs: seq<nat>)
    ensures !sess.queues ==> QueuedBy(sess, s, idxs) == []
    ensures forall x :: x in QueuedBy(sess, s, idxs) ==> x.injection.None?
  {
    if |idxs| > 0 { NothingQueued(sess, s, idxs[..|idxs| - 1]); }
  }

  /** The guest is at the boundary `at`, with nothing wrong. */
  predicate Settled<S>(d: Delivery<S>)
  {
    !d.v.debugEnabled && d.at.icount == d.v.retired && d.error.None?
  }

  predicate IsFired(seg: Segment, fired: Option<TimerFired>)
  {
    seg.timer.Some? && fired.Some? && fired.value.deadline == seg.timer.value.deadline
  }

  /** What delivering one vector promises. */
  ghost predicate OneKeeps<S, L>(sess: Session<S, L>, seg: Segment, d: Delivery<S>, x: Vector, y: Delivery<S>)
  {
    && Rest(y.env, d.env) && y.v.retired >= d.v.retired
    && (y.error.None? ==>
         && Settled(y) && y.delivered == d.delivered + 1 && y.v.pending == Some(x.vector) && x.vector >= 32
         && (if IsTimer(seg, x) then
               && IsFired(seg, y.fired) && y.fired.value.vector == x.vector
               && y.fired.value.delivered == y.v.retired
             else y.fired == d.fired))
    && (y.error.Some? ==> y.fired == d.fired && y.delivered == d.delivered)
  }

  lemma KeepsOne<S(!new), L>(engine: Engine<S>, sess: Session<S, L>, seg: Segment, d: Delivery<S>, x: Vector,
                             chained: bool)
    requires Runs(engine, sess.g, sess.config.margins) && Settled(d)
    ensures OneKeeps(sess, seg, d, x, DeliverOne(engine, sess, seg, d, x, chained)) == true
  {
    EngineSteps(engine, sess.g, sess.config.margins, d.v, d.env);
    var s := if chained then engine.step(d.v, d.env) else Single(d.v, Ok(d.at), d.env);
    if s.r.Ok? {
      KeepsInject(engine, sess.g, s.v, x.vector, s.r.value.icount, s.r.value, 0, sess.config.margins,
                  INJECT_DEFER_BUDGET, s.env);
    }
  }

  /** A vector goes in at the first open window: right there, or after one entry if another vector is queued. */
  lemma FirstWindow<S(!new), L>(engine: Engine<S>, sess: Session<S, L>, seg: Segment, d: Delivery<S>, x: Vector,
                                chained: bool)
    requires Runs(engine, sess.g, sess.config.margins) && Settled(d) && SkidBelow(d.env, sess.config.margins.skidMargin)
    requires !chained ==> d.v.pending.None?
    ensures var from := if chained then engine.step(d.v, d.env).v else d.v;
            var y := DeliverOne(engine, sess, seg, d, x, chained);
            y.error.None? ==>
              from.retired <= y.v.retired && FirstOpen(sess.g, from.state, y.v.retired - from.retired, y.v.state)
  {
    EngineSteps(engine, sess.g, sess.config.margins, d.v, d.env);
    var s := if chained then engine.step(d.v, d.env) else Single(d.v, Ok(d.at), d.env);
    if s.r.Ok? {
      CalmInject(engine, sess.g, s.v, x.vector, s.r.value.icount, s.r.value, 0, sess.config.margins,
                 INJECT_DEFER_BUDGET, s.env);
    }
  }

  /** What delivering the vectors from the `i`-th on promises. */
  ghost predicate AllKeeps<S>(seg: Segment, d: Delivery<S>, vectors: seq<Vector>, i: nat, y: Delivery<S>)
    requires i <= |vectors|
  {
    && Rest(y.env, d.env) && y.v.retired >= d.v.retired && (i == |vectors| ==> y == d)
    && (y.error.None? ==>
         && Settled(y) && y.delivered == d.delivered + |vectors| - i
         && (i < |vectors| ==> y.v.pending == Some(vectors[|vectors| - 1].vector))
         && (IsFired(seg, d.fired) ==> IsFired(seg, y.fired))
         && (forall j :: i <= j < |vectors| && IsTimer(seg, vectors[j]) ==> IsFired(seg, y.fired)))
    && (y.fired == d.fired || IsFired(seg, y.fired))
  }

  lemma KeepsOneMore<S, L>(sess: Session<S, L>, seg: Segment, d: Delivery<S>, vectors: seq<Vector>, i: nat,
                           x: Delivery<S>, y: Delivery<S>)
    requires i < |vectors| && Settled(d) && OneKeeps(sess, seg, d, vectors[i], x)
    requires if x.error.Some? then y == x else AllKeeps(seg, x, vectors, i + 1, y)
    ensures AllKeeps(seg, d, vectors, i, y) == true
  {}

  lemma {:induction false} KeepsAll<S(!new), L>(engine: Engine<S>, sess: Session<S, L>, seg: Segment, d: Delivery<S>,
                                                vectors: seq<Vector>, i: nat)
    requires i <= |vectors| && Runs(engine, sess.g, sess.config.margins) && Settled(d)
    ensures AllKeeps(seg, d, vectors, i, DeliverFrom(engine, sess, seg, d, vectors, i)) == true
    decreases |vectors| - i
  {
    if i < |vectors| {
      KeepsOne(engine, sess, seg, d, vectors[i], i > 0);
      var x := DeliverOne(engine, sess, seg, d, vectors[i], i > 0);
      if x.error.None? { KeepsAll(engine, sess, seg, x, vectors, i + 1); }
      KeepsOneMore(sess, seg, d, vectors, i, x, DeliverFrom(engine, sess, seg, d, vectors, i));
    }
  }

  // ---- one visit -------------------------------------------------------------------------------------

  /** What one visit promises, whatever the host does. */
  ghost predicate VisitKeeps<S, L>(sess: Session<S, L>, seg: Segment, p: StopPoint, a: Progress<S, L>, env: Schedule,
                                   x: Visit<S, L>)
  {
    && Rest(x.env, env) && x.b.v.retired >= a.v.retired
    && match x.flow
       case Visited(boundary, vns, hashed) =>
         && !x.b.v.debugEnabled && boundary.icount == p.icount <= x.b.v.retired
         && hashed == ActOf(seg.options, p).hash && sess.config.clock.vns(p.icount) == Some(vns)
         && (if hashed then
               && x.b.links == a.links + [sess.capture(x.b.v.state, x.b.v.pending, p.icount, vns)]
               && x.b.marks == a.marks + [EpochMark(p.icount, |x.b.links|)]
             else x.b.links == a.links && x.b.marks == a.marks)
       case _ => x.b.links == a.links && x.b.marks == a.marks
  }

  /** The landing and the deliveries of a visit that gets as far as delivering: `d` before, `y` after. */
  lemma VisitParts<S(!new), L>(engine: Engine<S>, sess: Session<S, L>, seg: Segment,
                               injections: seq<ScheduledInjection>, p: StopPoint, a: Progress<S, L>, env: Schedule)
    returns (d: Delivery<S>, queued: seq<Vector>)
    requires Runs(engine, sess.g, sess.config.margins) && !a.v.debugEnabled && IndicesFit(p, |injections|)
    ensures Settled(d) && d.fired == a.fired && d.delivered == a.delivered
    ensures var x := VisitOf(engine, sess, seg, injections, p, a, env);
            var y := DeliverFrom(engine, sess, seg, d, queued + DueVectors(injections, p), 0);
            && (AllKeeps(seg, d, queued + DueVectors(injections, p), 0, y) == true)
            && (x.b.fired == a.fired || x.b.fired == y.fired)
               && (x.flow.Visited? ==> y.error.None? && x.b.v == y.v && x.b.fired == y.fired)
  {
    EngineKeeps(engine, sess.g, sess.config.margins, a.v, p.icount, env);
    var l := engine.land(a.v, p.icount, env);
    d, queued := Delivery(a.v, Stop(a.v.retired, 0), a.delivered, a.fired, None, env), [];
    if l.r.Ok? {
      AppliesAll(sess, l.v, p.inputs);
      var x := ApplyFrom(sess, Applied(l.v, [], [], false), p.inputs, 0);
      if !x.refused { d, queued := Delivery(x.v, l.r.value, a.delivered, a.fired, None, l.env), x.vectors; }
    }
    KeepsAll(engine, sess, seg, d, queued + DueVectors(injections, p), 0);
  }

  lemma KeepsVisit<S(!new), L>(engine: Engine<S>, sess: Session<S, L>, seg: Segment,
                               injections: seq<ScheduledInjection>, p: StopPoint, a: Progress<S, L>, env: Schedule)
    requires Runs(engine, sess.g, sess.config.margins) && !a.v.debugEnabled && IndicesFit(p, |injections|)
    ensures VisitKeeps(sess, seg, p, a, env, VisitOf(engine, sess, seg, injections, p, a, env)) == true
  {
    EngineKeeps(engine, sess.g, sess.config.margins, a.v, p.icount, env);
    var l := engine.land(a.v, p.icount, env);
    if l.r.Ok? {
      AppliesAll(sess, l.v, p.inputs);
      var x := ApplyFrom(sess, Applied(l.v, [], [], false), p.inputs, 0);
      if !x.refused {
        KeepsAll(engine, sess, seg, Delivery(x.v, l.r.value, a.delivered, a.fired, None, l.env),
                 x.vectors + DueVectors(injections, p), 0);
      }
    }
  }

  /** A timer that is due at a visited point has fired. */
  lemma VisitFires<S(!new), L>(engine: Engine<S>, sess: Session<S, L>, seg: Segment,
                               injections: seq<ScheduledInjection>, p: StopPoint, a: Progress<S, L>, env: Schedule)
    requires Runs(engine, sess.g, sess.config.margins) && !a.v.debugEnabled && IndicesFit(p, |injections|)
    ensures var x := VisitOf(engine, sess, seg, injections, p, a, env);
            && (x.flow.Visited? && seg.timer.Some? && (|seg.injections| in p.injections || IsFired(seg, a.fired)) ==>
                  IsFired(seg, x.b.fired))
            && (x.b.fired == a.fired || IsFired(seg, x.b.fired))
  {
    var d, queued := VisitParts(engine, sess, seg, injections, p, a, env);
    if seg.timer.Some? && |seg.injections| in p.injections {
      var j :| 0 <= j < |p.injections| && p.injections[j] == |seg.injections|;
      assert IsTimer(seg, (queued + DueVectors(injections, p))[|queued| + j]);
    }
  }

  ghost predicate Stepped<S, L>(k: Walker<S, L>, options: RunOptions, p: StopPoint, a: Progress<S, L>,
                                b: Progress<S, L>)
  {
    var t := Trail(a.v.state, a.v.retired, a.links, a.landed);
    && b.v.pending.None? && b.v.retired == p.icount && ArrivesAt(k, t, p.icount)
    && Trail(b.v.state, b.v.retired, b.links, b.landed) == Perform(k, Settle(k, t, p.icount), ActOf(options, p))
  }

  lemma PerformedAct<S(!new), L>(sess: Session<S, L>, k: Walker<S, L>, options: RunOptions, p: StopPoint,
                                 t: Trail<S, L>, u: S)
    requires Models(k, sess) && IsBoundary(sess.g, t.state, p.icount - t.icount, u)
    ensures var a, s := ActOf(options, p), LandAll(sess.land, u, p.inputs);
            && ArrivesAt(k, t, p.icount)
            && Perform(k, Settle(k, t, p.icount), a)
               == Trail(s, p.icount,
                        t.links + (if a.hash
                                   then [sess.capture(s, None, p.icount, VnsAt(sess.config.clock.vns, p.icount))]
                                   else []),
                        t.landed + p.inputs)
  {}

  /** A calm visit without vectors performs the point's act on the one state with its count. */
  lemma CalmVisit<S(!new), L>(engine: Engine<S>, sess: Session<S, L>, seg: Segment, injections: seq<ScheduledInjection>,
                              p: StopPoint, a: Progress<S, L>, env: Schedule, k: Walker<S, L>)
    requires Runs(engine, sess.g, sess.config.margins) && !a.v.debugEnabled && IndicesFit(p, |injections|)
    requires Models(k, sess) && NoVectors(sess, seg) && p.injections == [] && Calm(a.v, sess.config.margins, env)
    ensures var x := VisitOf(engine, sess, seg, injections, p, a, env);
            x.flow.Visited? ==>
              (Stepped(k, seg.options, p, a, x.b) == true) && x.b.delivered == a.delivered && x.b.fired == a.fired
  {
    EngineKeeps(engine, sess.g, sess.config.margins, a.v, p.icount, env);
    var l := engine.land(a.v, p.icount, env);
    if l.r.Ok? {
      EngineCalm(engine, sess.g, sess.config.margins, a.v, p.icount, env);
      AppliesAll(sess, l.v, p.inputs);
      NothingQueued(sess, l.v.state, p.inputs);
      var x := ApplyFrom(sess, Applied(l.v, [], [], false), p.inputs, 0);
      if !x.refused {
        assert x.vectors + DueVectors(injections, p) == [];
        PerformedAct(sess, k, seg.options, p, Trail(a.v.state, a.v.retired, a.links, a.landed), l.v.state);
      }
    }
  }

  // ---- one verdict -----------------------------------------------------------------------------------

  /** A link that captures some state at count `c`. */
  ghost predicate IsLinkAt<S(!new), L>(sess: Session<S, L>, link: L, c: nat)
  {
    c <= U64_MAX
    && exists s: S, pending: Option<byte> :: link == sess.capture(s, pending, c, VnsAt(sess.config.clock.vns, c))
  }

  /** `links` is `links0` with one link more, at count `c`. */
  ghost predicate OneMoreLink<S(!new), L>(sess: Session<S, L>, links0: seq<L>, links: seq<L>, c: nat)
  {
    |links| == |links0| + 1 && links0 == links[..|links0|] && IsLinkAt(sess, links[|links0|], c)
  }

  lemma CapturedLink<S(!new), L>(sess: Session<S, L>, links0: seq<L>, s: S, pending: Option<byte>, c: u64, vns: u64)
    requires sess.config.clock.vns(c) == Some(vns)
    ensures OneMoreLink(sess, links0, links0 + [sess.capture(s, pending, c, vns)], c)
  {
    var links := links0 + [sess.capture(s, pending, c, vns)];
    assert links[|links0|] == sess.capture(s, pending, c, VnsAt(sess.config.clock.vns, c));
  }

  /** The run stopped at the point `p`: at its goal, or at its final stop. */
  ghost predicate StopsThere<S(!new), L>(sess: Session<S, L>, seg: Segment, p: StopPoint, x: Visit<S, L>,
                                         y: Verdict<S, L>, o: Outcome)
  {
    && x.flow.Visited? && o.boundary == x.flow.boundary && y.c == x.b.(links := y.c.links)
    && (if o.reason.GoalSatisfied? then p.goalPoll && sess.goal(x.b.v.state)
        else
          && !(p.goalPoll && sess.goal(x.b.v.state)) && p.finalStop.Some?
          && o.reason == if p.finalStop.value.BudgetStop? then BudgetReached else HardCapReached)
    && (if seg.options.hashFinalStop && !ActOf(seg.options, p).hash then
          y.c.links == x.b.links + [sess.capture(y.c.v.state, y.c.v.pending, p.icount,
                                                 VnsAt(sess.config.clock.vns, p.icount))]
        else y.c.links == x.b.links)
  }

  /** The run was paused at `p`: right there on an epoch, else at the next multiple of the epoch length. */
  ghost predicate PausesThere<S(!new), L>(sess: Session<S, L>, seg: Segment, p: StopPoint, x: Visit<S, L>,
                                          y: Verdict<S, L>, o: Outcome)
  {
    && x.flow.Visited? && p.finalStop.None? && !(p.goalPoll && sess.goal(x.b.v.state))
    && if p.epochHash then o.boundary == x.flow.boundary && y.c == x.b
       else
         && IsNextMultiple(p.icount, Max(sess.config.epochLen, 1), y.c.v.retired) && o.boundary.icount == y.c.v.retired
         && !y.c.v.debugEnabled && OneMoreLink(sess, x.b.links, y.c.links, y.c.v.retired)
         && y.c.marks == if EpochsOn(sess, seg.options) then x.b.marks + [EpochMark(o.boundary.icount, |y.c.links|)]
                         else x.b.marks
  }

  /** The run stopped where the counter was. */
  ghost predicate UnwindsThere<S(!new), L>(sess: Session<S, L>, seg: Segment, b: Progress<S, L>, y: Verdict<S, L>,
                                           o: Outcome)
  {
    && o.boundary.icount == y.c.v.retired >= b.v.retired && y.c.marks == b.marks && y.c.landed == b.landed
    && (if seg.options.hashFinalStop then OneMoreLink(sess, b.links, y.c.links, y.c.v.retired)
        else y.c.links == b.links)
  }

  ghost predicate JudgeKeeps<S(!new), L>(sess: Session<S, L>, seg: Segment, p: StopPoint, pause: bool, x: Visit<S, L>,
                                         y: Verdict<S, L>)
  {
    && Rest(y.env, x.env) && x.b.links <= y.c.links
    && (!y.stop ==>
          y.c == x.b && x.flow.Visited? && p.finalStop.None? && !(p.goalPoll && sess.goal(x.b.v.state)) && !pause)
    && (y.stop && y.r.Ok? ==>
         var o := y.r.value;
         if o.unwound then UnwindsThere(sess, seg, x.b, y, o)
         else !y.c.v.debugEnabled && if o.reason.Paused? then pause && PausesThere(sess, seg, p, x, y, o)
                                     else StopsThere(sess, seg, p, x, y, o))
  }

  lemma CounterKeeps<S(!new), L>(sess: Session<S, L>, seg: Segment, reason: StopReason, b: Progress<S, L>,
                                 env: Schedule)
    ensures var y := CounterStop(sess, seg, reason, b, env);
            && Rest(y.env, env) && b.links <= y.c.links && y.stop
            && (y.r.Ok? ==> y.r.value.unwound && y.r.value.reason == reason && UnwindsThere(sess, seg, b, y, y.r.value))
  {
    var at := b.v.retired;
    if at <= U64_MAX && sess.config.clock.vns(at).Some? {
      CapturedLink(sess, b.links, b.v.state, b.v.pending, at, sess.config.clock.vns(at).value);
    }
  }

  lemma RollKeeps<S(!new), L>(engine: Engine<S>, sess: Session<S, L>, seg: Segment, p: StopPoint, x: Visit<S, L>)
    requires Runs(engine, sess.g, sess.config.margins) && !x.b.v.debugEnabled
    requires x.flow.Visited? && p.finalStop.None? && !p.epochHash && !(p.goalPoll && sess.goal(x.b.v.state))
    ensures JudgeKeeps(sess, seg, p, true, x, RollOf(engine, sess, seg, p, x.b, x.env)) == true
  {
    var target := RollTarget(sess, p.icount);
    NextMultiple(p.icount, Max(sess.config.epochLen, 1));
    EngineKeeps(engine, sess.g, sess.config.margins, x.b.v, target, x.env);
    var l := engine.land(x.b.v, target, x.env);
    var c := x.b.(v := l.v);
    if l.r.Err? {
      var flow := FlowOf(LandFailed(l.r.error));
      if flow.Unwound? { CounterKeeps(sess, seg, ReasonOf(seg, flow.why), c, l.env); }
    } else if target <= U64_MAX && sess.config.clock.vns(target).Some? {
      CapturedLink(sess, c.links, l.v.state, l.v.pending, target, sess.config.clock.vns(target).value);
    }
  }

  lemma KeepsJudge<S(!new), L>(engine: Engine<S>, sess: Session<S, L>, seg: Segment, p: StopPoint, pause: bool,
                               a: Progress<S, L>, env: Schedule, x: Visit<S, L>)
    requires Runs(engine, sess.g, sess.config.margins) && VisitKeeps(sess, seg, p, a, env, x)
    ensures JudgeKeeps(sess, seg, p, pause, x, Judge(engine, sess, seg, p, pause, x)) == true
  {
    if x.flow.Unwound? {
      CounterKeeps(sess, seg, ReasonOf(seg, x.flow.why), x.b, x.env);
    } else if x.flow.Visited? && !(p.goalPoll && sess.goal(x.b.v.state)) && p.finalStop.None? && pause && !p.epochHash {
      RollKeeps(engine, sess, seg, p, x);
    }
  }

  // ---- which counts are linked -------------------------------------------------------------------------

  predicate AscendingMarks(marks: seq<EpochMark>)
  {
    forall i, j :: 0 <= i < j < |marks| ==> marks[i].icount < marks[j].icount
  }

  /** The marks ascend within (start, bound], and each closes a link at its count. */
  ghost predicate Marked<S(!new), L>(sess: Session<S, L>, start: nat, bound: nat, links0: seq<L>, links: seq<L>,
                                     marks: seq<EpochMark>)
  {
    && AscendingMarks(marks) && |links0| + |marks| <= |links| && links0 == links[..|links0|]
    && forall i :: 0 <= i < |marks| ==>
         start < marks[i].icount <= bound && marks[i].links == |links0| + i + 1
         && IsLinkAt(sess, links[|links0| + i], marks[i].icount)
  }

  lemma MarkMore<S(!new), L>(sess: Session<S, L>, start: nat, bound: nat, links0: seq<L>, links: seq<L>,
                             marks: seq<EpochMark>, links': seq<L>, c: u64)
    requires Marked(sess, start, bound, links0, links, marks) && |links| == |links0| + |marks|
    requires OneMoreLink(sess, links, links', c) && start < c && (marks != [] ==> bound < c)
    ensures Marked(sess, start, c, links0, links', marks + [EpochMark(c, |links'|)])
  {}

  lemma MarkedLonger<S(!new), L>(sess: Session<S, L>, start: nat, bound: nat, links0: seq<L>, links: seq<L>,
                                 marks: seq<EpochMark>, links': seq<L>, bound': nat)
    requires Marked(sess, start, bound, links0, links, marks) && links <= links' && bound <= bound'
    ensures Marked(sess, start, bound', links0, links', marks)
  {}

  /** The points of a run: ascending, and after the start but for a final stop right there. */
  predicate PointsFrom(start: nat, ps: seq<StopPoint>)
  {
    && Ascending(ps)
    && forall k :: 0 <= k < |ps| ==>
         start <= ps[k].icount && (ps[k].epochHash || ps[k].finalStop.None? ==> start < ps[k].icount)
  }

  function Behind(start: nat, ps: seq<StopPoint>, n: nat): nat
    requires n <= |ps|
  {
    if n == 0 then start else ps[n - 1].icount
  }

  /** Every link so far is a mark. */
  ghost predicate Chained<S(!new), L>(sess: Session<S, L>, start: nat, bound: nat, links0: seq<L>, a: Progress<S, L>)
  {
    Marked(sess, start, bound, links0, a.links, a.marks) && |a.links| == |links0| + |a.marks| && bound <= a.v.retired
  }

  lemma ChainVisit<S(!new), L>(sess: Session<S, L>, seg: Segment, start: nat, links0: seq<L>, ps: seq<StopPoint>,
                               n: nat, a: Progress<S, L>, env: Schedule, x: Visit<S, L>)
    requires n < |ps| && PointsFrom(start, ps) && Chained(sess, start, Behind(start, ps, n), links0, a)
    requires VisitKeeps(sess, seg, ps[n], a, env, x)
    ensures Chained(sess, start, if x.flow.Visited? then ps[n].icount else Behind(start, ps, n), links0, x.b) == true
    ensures x.flow.Visited? && x.b.marks != [] && !ActOf(seg.options, ps[n]).hash ==>
              x.b.marks[|x.b.marks| - 1].icount < ps[n].icount
  {
    var p, lo := ps[n], Behind(start, ps, n);
    assert n > 0 ==> ps[n - 1].icount < p.icount;
    if x.flow.Visited? {
      if x.flow.hashed {
        CapturedLink(sess, a.links, x.b.v.state, x.b.v.pending, p.icount, x.flow.vns);
        MarkMore(sess, start, lo, links0, a.links, a.marks, x.b.links, p.icount);
      } else {
        MarkedLonger(sess, start, lo, links0, a.links, a.marks, x.b.links, p.icount);
      }
    }
  }

  /** Whether the run pushed a link of its own at its stop, besides the marks. */
  predicate EndLinked<S, L>(sess: Session<S, L>, seg: Segment, ps: seq<StopPoint>, n: nat, o: Outcome)
    requires o.unwound || 0 < n <= |ps|
  {
    if o.unwound then seg.options.hashFinalStop
    else if o.reason.Paused? then !ps[n - 1].epochHash && !EpochsOn(sess, seg.options)
    else seg.options.hashFinalStop && !ActOf(seg.options, ps[n - 1]).hash
  }

  /** The links of a run: one per mark, in strictly ascending order up to the stop, and one at the stop if the
      end is linked; unless the run was unwound, that one lies past every mark. */
  ghost predicate Accounts<S(!new), L>(sess: Session<S, L>, seg: Segment, start: nat, links0: seq<L>,
                                       ps: seq<StopPoint>, n: nat, o: Outcome, end: Progress<S, L>)
  {
    && (o.unwound || 0 < n <= |ps|) && start <= o.boundary.icount
    && Marked(sess, start, o.boundary.icount, links0, end.links, end.marks)
    && (!o.unwound && EndLinked(sess, seg, ps, n, o) && end.marks != [] ==>
         end.marks[|end.marks| - 1].icount < o.boundary.icount)
    && var base := |links0| + |end.marks|;
       if EndLinked(sess, seg, ps, n, o)
       then |end.links| == base + 1 && IsLinkAt(sess, end.links[base], o.boundary.icount)
       else |end.links| == base
  }

  lemma ChainEnds<S(!new), L>(sess: Session<S, L>, seg: Segment, start: nat, links0: seq<L>, ps: seq<StopPoint>, n: nat,
                              pause: bool, bound: nat, x: Visit<S, L>, y: Verdict<S, L>)
    requires n < |ps| && PointsFrom(start, ps) && Chained(sess, start, bound, links0, x.b)
    requires start <= bound <= ps[n].icount && (x.flow.Visited? ==> bound == ps[n].icount == x.flow.boundary.icount)
    requires JudgeKeeps(sess, seg, ps[n], pause, x, y) && y.stop && y.r.Ok?
    requires x.flow.Visited? && x.b.marks != [] && !ActOf(seg.options, ps[n]).hash ==>
               x.b.marks[|x.b.marks| - 1].icount < ps[n].icount
    requires x.flow.Visited? && !y.r.value.unwound && !y.r.value.reason.Paused? ==>
               sess.config.clock.vns(ps[n].icount).Some?
    ensures Accounts(sess, seg, start, links0, ps, n + 1, y.r.value, y.c) == true
  {
    var o, p := y.r.value, ps[n];
    var stop := o.boundary.icount;
    if o.unwound {
      MarkedLonger(sess, start, bound, links0, x.b.links, x.b.marks, y.c.links, stop);
    } else if o.reason.Paused? {
      if !p.epochHash {
        if EpochsOn(sess, seg.options) {
          MarkRoll(sess, start, bound, links0, x.b, y.c.links, stop);
        } else {
          MarkedLonger(sess, start, bound, links0, x.b.links, x.b.marks, y.c.links, stop);
        }
      }
    } else {
      if EndLinked(sess, seg, ps, n + 1, o) {
        CapturedLink(sess, x.b.links, y.c.v.state, y.c.v.pending, p.icount, sess.config.clock.vns(p.icount).value);
      }
      MarkedLonger(sess, start, bound, links0, x.b.links, x.b.marks, y.c.links, stop);
    }
  }

  /** The mark of a roll-forward: it lies past every earlier one. */
  lemma MarkRoll<S(!new), L>(sess: Session<S, L>, start: nat, bound: nat, links0: seq<L>, b: Progress<S, L>,
                             links: seq<L>, c: nat)
    requires Chained(sess, start, bound, links0, b) && OneMoreLink(sess, b.links, links, c) && start < c && bound <= c
    requires b.marks != [] ==> b.marks[|b.marks| - 1].icount < c
    ensures Marked(sess, start, c, links0, links, b.marks + [EpochMark(c, |links|)])
  {
    if b.marks != [] {
      var top := b.marks[|b.marks| - 1].icount;
      assert Marked(sess, start, top, links0, b.links, b.marks);
      MarkMore(sess, start, top, links0, b.links, b.marks, links, c);
    } else {
      MarkMore(sess, start, bound, links0, b.links, b.marks, links, c);
    }
  }

  /** One point of a run, by what it promises. */
  lemma ConductKeeps<S(!new), L(!new)>(c: Conduct<S, L>, engine: Engine<S>, sess: Session<S, L>, seg: Segment,
                                       injections: seq<ScheduledInjection>, ps: seq<StopPoint>, paused: nat -> bool,
                                       n: nat, a: Progress<S, L>, env: Schedule)
    requires Conducts(c, engine, sess, seg, injections, ps, paused) && Runs(engine, sess.g, sess.config.margins)
    requires n < |ps| && !a.v.debugEnabled
    ensures var x := c.visit(n, a, env);
            (VisitKeeps(sess, seg, ps[n], a, env, x) == true)
            && (JudgeKeeps(sess, seg, ps[n], paused(n), x, c.judge(n, x)) == true)
  {
    var x := VisitOf(engine, sess, seg, injections, ps[n], a, env);
    KeepsVisit(engine, sess, seg, injections, ps[n], a, env);
    KeepsJudge(engine, sess, seg, ps[n], paused(n), a, env, x);
    assert c.judge(n, x) == Judge(engine, sess, seg, ps[n], paused(n), x);
  }

  lemma AccountsOne<S(!new), L(!new)>(c: Conduct<S, L>, engine: Engine<S>, sess: Session<S, L>, seg: Segment,
                                      injections: seq<ScheduledInjection>, ps: seq<StopPoint>, paused: nat -> bool,
                                      n: nat, a: Progress<S, L>, env: Schedule, start: nat, links0: seq<L>)
    requires Conducts(c, engine, sess, seg, injections, ps, paused) && Runs(engine, sess.g, sess.config.margins)
    requires n < |ps| && !a.v.debugEnabled && PointsFrom(start, ps)
    requires Chained(sess, start, Behind(start, ps, n), links0, a)
    ensures var x := c.visit(n, a, env);
            var y := c.judge(n, x);
            && Rest(y.env, env) && links0 <= y.c.links
            && (!y.stop ==> !x.b.v.debugEnabled && Chained(sess, start, ps[n].icount, links0, x.b) == true)
            && (y.stop && y.r.Ok? ==> Accounts(sess, seg, start, links0, ps, n + 1, y.r.value, y.c) == true)
  {
    ConductKeeps(c, engine, sess, seg, injections, ps, paused, n, a, env);
    var x := c.visit(n, a, env);
    var y := c.judge(n, x);
    ChainVisit(sess, seg, start, links0, ps, n, a, env, x);
    if y.stop && y.r.Ok? {
      ChainEnds(sess, seg, start, links0, ps, n, paused(n), if x.flow.Visited? then ps[n].icount
                                                            else Behind(start, ps, n), x, y);
    }
  }

  /** Every run that ends without an error accounts for its links. */
  lemma {:induction false} WalkAccounts<S(!new), L(!new)>(c: Conduct<S, L>, engine: Engine<S>, sess: Session<S, L>,
                                                          seg: Segment, injections: seq<ScheduledInjection>,
                                                          ps: seq<StopPoint>, paused: nat -> bool, n: nat,
                                                          a: Progress<S, L>, env: Schedule, start: nat, links0: seq<L>)
    requires Conducts(c, engine, sess, seg, injections, ps, paused) && Runs(engine, sess.g, sess.config.margins)
    requires n <= |ps| && !a.v.debugEnabled && PointsFrom(start, ps)
    requires Chained(sess, start, Behind(start, ps, n), links0, a)
    ensures var w := WalkFrom(c, |ps|, n, a, env);
            && n <= w.n <= |ps| && links0 <= w.end.links && Rest(w.env, env)
            && (w.r.Ok? ==> Accounts(sess, seg, start, links0, ps, w.n, w.r.value, w.end) == true)
    decreases |ps| - n
  {
    if n < |ps| {
      AccountsOne(c, engine, sess, seg, injections, ps, paused, n, a, env, start, links0);
      var x := c.visit(n, a, env);
      var y := c.judge(n, x);
      if !y.stop { WalkAccounts(c, engine, sess, seg, injections, ps, paused, n + 1, x.b, y.env, start, links0); }
    }
  }

  // ---- one link per boundary ----------------------------------------------------------------------------

  function CountsOf(marks: seq<EpochMark>): (counts: seq<nat>)
    ensures |counts| == |marks| && forall i :: 0 <= i < |marks| ==> counts[i] == marks[i].icount
  {
    seq(|marks|, i requires 0 <= i < |marks| => marks[i].icount)
  }

  predicate Distinct(counts: seq<nat>)
  {
    forall i, j :: 0 <= i < j < |counts| ==> counts[i] != counts[j]
  }

  /** The counts of the links that the chain had, and of those that the run added. */
  function AllCounts(prior: seq<nat>, marks: seq<EpochMark>, ended: bool, stop: nat): seq<nat>
  {
    prior + CountsOf(marks) + (if ended then [stop] else [])
  }

  /** The stop is linked already: by the last mark, or by the caller's last link if there is none. */
  predicate LinkedBefore(prior: seq<nat>, marks: seq<EpochMark>, stop: nat)
  {
    if marks != [] then marks[|marks| - 1].icount == stop else prior != [] && prior[|prior| - 1] == stop
  }

  /** A run that accounts for its links keeps one link per boundary if and only if it does not link its end
      where it is linked already. */
  lemma OneLinkExactly<S(!new), L>(sess: Session<S, L>, seg: Segment, start: nat, links0: seq<L>, ps: seq<StopPoint>,
                                   n: nat, o: Outcome, end: Progress<S, L>, prior: seq<nat>)
    requires Accounts(sess, seg, start, links0, ps, n, o, end)
    requires AscendingNats(prior) && forall i :: 0 <= i < |prior| ==> prior[i] <= start
    ensures var ended := EndLinked(sess, seg, ps, n, o);
            Distinct(AllCounts(prior, end.marks, ended, o.boundary.icount)) <==>
              !(ended && LinkedBefore(prior, end.marks, o.boundary.icount))
  {
    var ended, stop := EndLinked(sess, seg, ps, n, o), o.boundary.icount;
    var before, all := prior + CountsOf(end.marks), AllCounts(prior, end.marks, ended, stop);
    assert forall i, j :: 0 <= i < j < |before| ==> before[i] < before[j];
    assert forall i :: 0 <= i < |before| ==> before[i] <= stop;
    if ended && LinkedBefore(prior, end.marks, stop) {
      assert all[|before| - 1] == all[|before|];
    }
  }

  /** A run that stops at one of its points past the start, or at the roll-forward of a pause, links no count twice. */
  lemma OnePerBoundary<S(!new), L>(sess: Session<S, L>, seg: Segment, start: nat, links0: seq<L>, ps: seq<StopPoint>,
                                   n: nat, o: Outcome, end: Progress<S, L>, prior: seq<nat>)
    requires Accounts(sess, seg, start, links0, ps, n, o, end) && !o.unwound && start < o.boundary.icount
    requires AscendingNats(prior) && forall i :: 0 <= i < |prior| ==> prior[i] <= start
    ensures Distinct(AllCounts(prior, end.marks, EndLinked(sess, seg, ps, n, o), o.boundary.icount))
  {
    OneLinkExactly(sess, seg, start, links0, ps, n, o, end, prior);
  }

  lemma MarksLieBetween<S(!new), L>(sess: Session<S, L>, start: nat, bound: nat, links0: seq<L>, links: seq<L>,
                                    marks: seq<EpochMark>)
    requires Marked(sess, start, bound, links0, links, marks)
    ensures marks != [] ==> start < bound
  {
    if marks != [] { assert start < marks[0].icount <= bound; }
  }

  /** A run that ends where it starts marks nothing: it links the start if and only if it links its end. */
  lemma NothingRun<S(!new), L>(sess: Session<S, L>, seg: Segment, start: nat, links0: seq<L>, ps: seq<StopPoint>,
                               n: nat, o: Outcome, end: Progress<S, L>)
    requires Accounts(sess, seg, start, links0, ps, n, o, end) && o.boundary.icount == start && PointsFrom(start, ps)
    requires o.unwound || (!o.reason.Paused? && ps[n - 1].icount == start)
    ensures end.marks == [] && (EndLinked(sess, seg, ps, n, o) <==> seg.options.hashFinalStop)
  {
    MarksLieBetween(sess, start, o.boundary.icount, links0, end.links, end.marks);
  }

  // ---- where a run stops --------------------------------------------------------------------------------

  /** A pause stops on an epoch, or else at the least positive multiple of the epoch length from the point on. */
  ghost predicate PausedAt<S, L>(sess: Session<S, L>, p: StopPoint, stop: nat)
  {
    && p.finalStop.None?
    && if p.epochHash then stop == p.icount else IsNextMultiple(p.icount, Max(sess.config.epochLen, 1), stop)
  }

  /** The stop of a run that was not unwound, at the point `p` where its progress was `b`. */
  ghost predicate StopAt<S, L>(sess: Session<S, L>, p: StopPoint, pause: bool, b: Progress<S, L>, o: Outcome,
                               end: Progress<S, L>)
  {
    && !end.v.debugEnabled
    && match o.reason
       case GoalSatisfied => o.boundary.icount == p.icount && p.goalPoll && sess.goal(b.v.state)
       case Paused => pause && PausedAt(sess, p, o.boundary.icount) && !(p.goalPoll && sess.goal(b.v.state))
       case reason =>
         && o.boundary.icount == p.icount && p.finalStop.Some? && !(p.goalPoll && sess.goal(b.v.state))
         && reason == if p.finalStop.value.BudgetStop? then BudgetReached else HardCapReached
  }

  /** The run went past this point: no goal, no final stop, no pause. */
  ghost predicate WentPast<S, L>(sess: Session<S, L>, p: StopPoint, pause: bool, b: Progress<S, L>)
  {
    p.finalStop.None? && !pause && !(p.goalPoll && sess.goal(b.v.state))
  }

  /** A walk stops at the first point that asks it to. */
  ghost predicate StopsFirst<S, L>(sess: Session<S, L>, ps: seq<StopPoint>, paused: nat -> bool, n: nat,
                                   w: Walked<S, L>)
    requires n < |ps|
  {
    && n < w.n <= |ps| && |w.trace| == w.n - n
    && (forall i :: 0 <= i < |w.trace| - 1 ==> WentPast(sess, ps[n + i], paused(n + i), w.trace[i]))
    && (w.r.Ok? && !w.r.value.unwound ==>
         StopAt(sess, ps[w.n - 1], paused(w.n - 1), w.trace[|w.trace| - 1], w.r.value, w.end))
  }

  lemma StopsOne<S(!new), L(!new)>(c: Conduct<S, L>, engine: Engine<S>, sess: Session<S, L>, seg: Segment,
                                   injections: seq<ScheduledInjection>, ps: seq<StopPoint>, paused: nat -> bool,
                                   n: nat, a: Progress<S, L>, env: Schedule)
    requires Conducts(c, engine, sess, seg, injections, ps, paused) && Runs(engine, sess.g, sess.config.margins)
    requires n < |ps| && !a.v.debugEnabled
    ensures var x := c.visit(n, a, env);
            var y := c.judge(n, x);
            if y.stop then y.r.Ok? && !y.r.value.unwound ==> StopAt(sess, ps[n], paused(n), x.b, y.r.value, y.c) == true
            else !x.b.v.debugEnabled && WentPast(sess, ps[n], paused(n), x.b)
  {
    ConductKeeps(c, engine, sess, seg, injections, ps, paused, n, a, env);
  }

  lemma {:induction false} WalkStops<S(!new), L(!new)>(c: Conduct<S, L>, engine: Engine<S>, sess: Session<S, L>,
                                                       seg: Segment, injections: seq<ScheduledInjection>,
                                                       ps: seq<StopPoint>, paused: nat -> bool, n: nat,
                                                       a: Progress<S, L>, env: Schedule)
    requires Conducts(c, engine, sess, seg, injections, ps, paused) && Runs(engine, sess.g, sess.config.margins)
    requires n < |ps| && !a.v.debugEnabled && FinalOnlyLast(ps)
    ensures StopsFirst(sess, ps, paused, n, WalkFrom(c, |ps|, n, a, env)) == true
    decreases |ps| - n
  {
    StopsOne(c, engine, sess, seg, injections, ps, paused, n, a, env);
    var x := c.visit(n, a, env);
    var y := c.judge(n, x);
    if !y.stop {
      WalkStops(c, engine, sess, seg, injections, ps, paused, n + 1, x.b, y.env);
      StopsLater(sess, ps, paused, n, x.b, WalkFrom(c, |ps|, n + 1, x.b, y.env));
    }
  }

  lemma StopsLater<S, L>(sess: Session<S, L>, ps: seq<StopPoint>, paused: nat -> bool, n: nat, b: Progress<S, L>,
                         w: Walked<S, L>)
    requires n + 1 < |ps| && WentPast(sess, ps[n], paused(n), b) && StopsFirst(sess, ps, paused, n + 1, w)
    ensures StopsFirst(sess, ps, paused, n, w.(trace := [b] + w.trace))
  {
    var trace := [b] + w.trace;
    forall i | 0 <= i < |trace| - 1 ensures WentPast(sess, ps[n + i], paused(n + i), trace[i]) {
      if i > 0 { assert WentPast(sess, ps[(n + 1) + (i - 1)], paused((n + 1) + (i - 1)), w.trace[i - 1]); }
    }
  }

  /** No positive multiple of `len` lies in [at, last]. */
  ghost predicate NoMultipleLeft(at: nat, len: NonZero, last: nat)
  {
    forall m: nat :: m > 0 && IsMultiple(m, len) && at <= m ==> m > last
  }

  /** A paused run passes the end of its agenda if and only if it was paused off the epochs with no positive multiple
      of the epoch length left before that end. */
  lemma PausePasses<S, L>(sess: Session<S, L>, p: StopPoint, stop: nat, last: nat)
    requires PausedAt(sess, p, stop) && p.icount <= last
    ensures stop > last <==> !p.epochHash && NoMultipleLeft(p.icount, Max(sess.config.epochLen, 1), last)
  {
    var len: NonZero := Max(sess.config.epochLen, 1);
    if !p.epochHash && NoMultipleLeft(p.icount, len, last) {
      assert IsMultiple(stop, len);
    }
  }

  // ---- calm runs without vectors --------------------------------------------------------------------------

  /** What a completed run without vectors amounts to: the walk of its agenda, and one more link at the
      stop unless the stop was already linked or final links are off. */
  ghost predicate RanTo<S, L>(k: Walker<S, L>, sess: Session<S, L>, seg: Segment, last: Last, v0: Vcpu<S>,
                              links0: seq<L>, ps: seq<StopPoint>, v: Vcpu<S>, links: seq<L>, landed: seq<nat>)
  {
    && v0.retired == seg.start <= last.at == v.retired
    && StopsOf(seg.scheduled, EpochGrid(sess, seg.options), seg.start, last.at, ps)
    && WalksOver(k, From(v0.state, v0.retired, links0), seg.options, ps)
    && Trail(v.state, v.retired, links, landed) == Ended(k, From(v0.state, v0.retired, links0), seg.options, ps)
  }

  /** A completed run at an agenda point: neither paused, nor at its goal, nor unwound. */
  predicate Completed(r: Result<Outcome, RunError>)
  {
    r.Ok? && !r.value.unwound && (r.value.reason.BudgetReached? || r.value.reason.HardCapReached?)
  }

  /** The run so far is the walk of the first `n` points. */
  predicate OnWalk<S(==), L(==)>(k: Walker<S, L>, options: RunOptions, t0: Trail<S, L>, ps: seq<StopPoint>, n: nat,
                               v: Vcpu<S>, links: seq<L>, landed: seq<nat>)
    requires n <= |ps|
  {
    && Walkable(k, t0, Acts(options, ps, n))
    && Trail(v.state, v.retired, links, landed) == Walk(k, t0, Acts(options, ps, n))
  }

  lemma OnWalkNext<S, L>(k: Walker<S, L>, options: RunOptions, t0: Trail<S, L>, ps: seq<StopPoint>, n: nat,
                         a: Progress<S, L>, b: Progress<S, L>)
    requires n < |ps| && OnWalk(k, options, t0, ps, n, a.v, a.links, a.landed) && Stepped(k, options, ps[n], a, b)
    ensures OnWalk(k, options, t0, ps, n + 1, b.v, b.links, b.landed)
  {}

  /** A completed run has performed the acts of all its points, and its final link. */
  ghost predicate WalkedOver<S, L>(k: Walker<S, L>, options: RunOptions, t0: Trail<S, L>, ps: seq<StopPoint>,
                                   w: Walked<S, L>)
    requires |ps| > 0
  {
    && w.end.v.pending.None? && w.end.v.retired == ps[|ps| - 1].icount
    && Walkable(k, t0, Acts(options, ps, |ps|))
    && Trail(w.end.v.state, w.end.v.retired, w.end.links, w.end.landed) == Ended(k, t0, options, ps)
  }

  lemma CalmOne<S(!new), L(!new)>(c: Conduct<S, L>, engine: Engine<S>, sess: Session<S, L>, seg: Segment,
                                  injections: seq<ScheduledInjection>, ps: seq<StopPoint>, paused: nat -> bool,
                                  n: nat, a: Progress<S, L>, env: Schedule, k: Walker<S, L>)
    requires Conducts(c, engine, sess, seg, injections, ps, paused) && Runs(engine, sess.g, sess.config.margins)
    requires n < |ps| && !a.v.debugEnabled && Models(k, sess) && NoVectors(sess, seg) && NoInjections(ps)
    requires Calm(a.v, sess.config.margins, env)
    ensures var x := c.visit(n, a, env);
            var y := c.judge(n, x);
            && (!y.stop ==>
                  && !x.b.v.debugEnabled && Calm(x.b.v, sess.config.margins, y.env)
                  && (Stepped(k, seg.options, ps[n], a, x.b) == true))
            && (y.stop && Completed(y.r) ==>
                 && (Stepped(k, seg.options, ps[n], a, x.b) == true) && ps[n].finalStop.Some?
                 && y.c == x.b.(links := x.b.links + FinalLinks(k, seg.options, [ps[n]], x.b.v.state)))
  {
    ConductKeeps(c, engine, sess, seg, injections, ps, paused, n, a, env);
    CalmVisit(engine, sess, seg, injections, ps[n], a, env, k);
    assert c.visit(n, a, env) == VisitOf(engine, sess, seg, injections, ps[n], a, env);
  }

  lemma {:induction false} CalmWalk<S(!new), L(!new)>(c: Conduct<S, L>, engine: Engine<S>, sess: Session<S, L>,
                                                      seg: Segment, injections: seq<ScheduledInjection>,
                                                      ps: seq<StopPoint>, paused: nat -> bool, n: nat,
                                                      a: Progress<S, L>, env: Schedule, k: Walker<S, L>,
                                                      t0: Trail<S, L>)
    requires Conducts(c, engine, sess, seg, injections, ps, paused) && Runs(engine, sess.g, sess.config.margins)
    requires n < |ps| && !a.v.debugEnabled && Models(k, sess) && NoVectors(sess, seg) && NoInjections(ps)
    requires FinalOnlyLast(ps)
    requires Calm(a.v, sess.config.margins, env) && OnWalk(k, seg.options, t0, ps, n, a.v, a.links, a.landed)
    ensures var w := WalkFrom(c, |ps|, n, a, env);
            Completed(w.r) ==> WalkedOver(k, seg.options, t0, ps, w) == true
    decreases |ps| - n
  {
    CalmOne(c, engine, sess, seg, injections, ps, paused, n, a, env, k);
    StopsOne(c, engine, sess, seg, injections, ps, paused, n, a, env);
    var x := c.visit(n, a, env);
    var y := c.judge(n, x);
    if !y.stop {
      OnWalkNext(k, seg.options, t0, ps, n, a, x.b);
      CalmWalk(c, engine, sess, seg, injections, ps, paused, n + 1, x.b, y.env, k, t0);
    } else if Completed(y.r) {
      OnWalkNext(k, seg.options, t0, ps, n, a, x.b);
    }
  }

  // ---- a due timer fires ------------------------------------------------------------------------------------

  lemma FiresOne<S(!new), L(!new)>(c: Conduct<S, L>, engine: Engine<S>, sess: Session<S, L>, seg: Segment,
                                   injections: seq<ScheduledInjection>, ps: seq<StopPoint>, paused: nat -> bool,
                                   n: nat, a: Progress<S, L>, env: Schedule)
    requires Conducts(c, engine, sess, seg, injections, ps, paused) && Runs(engine, sess.g, sess.config.margins)
    requires n < |ps| && !a.v.debugEnabled && seg.timer.Some?
    requires (IsFired(seg, a.fired) || |seg.injections| in ps[n].injections)
    ensures var x := c.visit(n, a, env);
            var y := c.judge(n, x);
            && (!y.stop ==> IsFired(seg, x.b.fired))
            && (y.stop && Completed(y.r) ==> IsFired(seg, y.c.fired))
  {
    ConductKeeps(c, engine, sess, seg, injections, ps, paused, n, a, env);
    VisitFires(engine, sess, seg, injections, ps[n], a, env);
    assert c.visit(n, a, env) == VisitOf(engine, sess, seg, injections, ps[n], a, env);
  }

  /** A completed run has fired the timer that was due at the point `i`. */
  lemma {:induction false} WalkFires<S(!new), L(!new)>(c: Conduct<S, L>, engine: Engine<S>, sess: Session<S, L>,
                                                       seg: Segment, injections: seq<ScheduledInjection>,
                                                       ps: seq<StopPoint>, paused: nat -> bool, n: nat,
                                                       a: Progress<S, L>, env: Schedule, i: nat)
    requires Conducts(c, engine, sess, seg, injections, ps, paused) && Runs(engine, sess.g, sess.config.margins)
    requires n < |ps| && !a.v.debugEnabled && seg.timer.Some? && FinalOnlyLast(ps)
    requires IsFired(seg, a.fired) || (n <= i < |ps| && |seg.injections| in ps[i].injections)
    ensures var w := WalkFrom(c, |ps|, n, a, env);
            Completed(w.r) ==> IsFired(seg, w.end.fired)
    decreases |ps| - n
  {
    StopsOne(c, engine, sess, seg, injections, ps, paused, n, a, env);
    if IsFired(seg, a.fired) || i == n { FiresOne(c, engine, sess, seg, injections, ps, paused, n, a, env); }
    var x := c.visit(n, a, env);
    var y := c.judge(n, x);
    if !y.stop { WalkFires(c, engine, sess, seg, injections, ps, paused, n + 1, x.b, y.env, i); }
  }

  // ---- undisturbed runs complete -----------------------------------------------------------------------------

  ghost predicate RetiresWithin<S>(g: Guest<S>, s: S, bound: nat)
  {
    exists n: nat :: n <= bound && IsLanding(g, s, n, 1) && Unrefused(g, s, n)
  }

  /** Every `bound` micro-steps retire an instruction, and the handler refuses no exit. */
  ghost predicate Brisk<S(!new)>(g: Guest<S>, bound: nat)
  {
    forall s: S :: RetiresWithin(g, s, bound)
  }

  lemma JoinUnrefused<S>(g: Guest<S>, s: S, a: nat, b: nat)
    requires Unrefused(g, s, a) && Unrefused(g, Iter(g, s, a), b)
    ensures Unrefused(g, s, a + b)
  {
    forall j: nat | j < a + b && g.kind(Iter(g, s, j)).Exit? ensures g.refuses(Iter(g, s, j)).None? {
      if j >= a { IterAdd(g, s, a, j - a); }
    }
  }

  lemma JoinLandings<S>(g: Guest<S>, s: S, a: nat, j: nat, b: nat, k: nat)
    requires IsLanding(g, s, a, j) && IsLanding(g, Iter(g, s, a), b, k)
    ensures IsLanding(g, s, a + b, j + k)
  {
    IterAdd(g, s, a, b);
    if b > 0 { IterAdd(g, s, a, b - 1); }
  }

  /** A brisk guest lands anywhere, within `bound` micro-steps per instruction. */
  lemma {:induction false} BriskLands<S(!new)>(g: Guest<S>, bound: nat, s: S, d: nat) returns (n: nat)
    requires Brisk(g, bound)
    ensures n <= d * bound && IsLanding(g, s, n, d) && Unrefused(g, s, n)
    decreases d
  {
    n := 0;
    if d > 0 {
      assert RetiresWithin(g, s, bound);
      var m: nat :| m <= bound && IsLanding(g, s, m, 1) && Unrefused(g, s, m);
      var rest := BriskLands(g, bound, Iter(g, s, m), d - 1);
      JoinLandings(g, s, m, 1, rest, d - 1);
      JoinUnrefused(g, s, m, rest);
      Distribute(1, d - 1, bound);
      n := m + rest;
    }
  }

  /** Nothing stands in the way of a run: no vectors, no pause, no goal reached, no input refused, and a clock
      that covers every count. */
  ghost predicate Undisturbed<S(!new), L>(sess: Session<S, L>, seg: Segment, ps: seq<StopPoint>, paused: nat -> bool)
  {
    && NoVectors(sess, seg) && NoInjections(ps)
    && (forall i: nat :: !paused(i)) && (forall s: S :: !sess.goal(s))
    && (forall s: S, i: nat :: !sess.sinkRefuses(s, i)) && (forall i: u64 :: sess.config.clock.vns(i).Some?)
  }

  lemma LiveVisit<S(!new), L>(engine: Engine<S>, sess: Session<S, L>, seg: Segment, injections: seq<ScheduledInjection>,
                              p: StopPoint, a: Progress<S, L>, env: Schedule, n: nat)
    requires Runs(engine, sess.g, sess.config.margins) && !a.v.debugEnabled && IndicesFit(p, |injections|)
    requires NoVectors(sess, seg) && p.injections == [] && CanLand(sess.g, a.v, p.icount, sess.config.margins, env, n)
    requires Accepted(sess, Iter(sess.g, a.v.state, n), p.inputs) && sess.config.clock.vns(p.icount).Some?
    ensures var x := VisitOf(engine, sess, seg, injections, p, a, env);
            && x.flow.Visited? && !x.b.v.debugEnabled && x.b.v.retired == p.icount && x.b.delivered == a.delivered
               && x.b.fired == a.fired
            && x.b.v.state == LandAll(sess.land, Iter(sess.g, a.v.state, n), p.inputs)
            && Smooth(x.b.v, sess.config.margins, x.env) && |x.env| >= |env| - n - 1
  {
    EngineLands(engine, sess.g, sess.config.margins, a.v, p.icount, env, n);
    var l := engine.land(a.v, p.icount, env);
    AppliesAll(sess, l.v, p.inputs);
    NothingQueued(sess, l.v.state, p.inputs);
    AppliesAccepted(sess, l.v, p.inputs, 0, Applied(l.v, [], [], false));
    var x := ApplyFrom(sess, Applied(l.v, [], [], false), p.inputs, 0);
    assert x.vectors + DueVectors(injections, p) == [];
  }

  lemma LiveOne<S(!new), L(!new)>(c: Conduct<S, L>, engine: Engine<S>, sess: Session<S, L>, seg: Segment,
                                  injections: seq<ScheduledInjection>, ps: seq<StopPoint>, paused: nat -> bool,
                                  n: nat, a: Progress<S, L>, env: Schedule, bound: nat)
    requires Conducts(c, engine, sess, seg, injections, ps, paused) && Runs(engine, sess.g, sess.config.margins)
    requires n < |ps| && !a.v.debugEnabled && Undisturbed(sess, seg, ps, paused) && Brisk(sess.g, bound)
    requires Smooth(a.v, sess.config.margins, env) && a.v.retired <= ps[n].icount
    requires |env| > (ps[n].icount - a.v.retired) * bound
    ensures var x := c.visit(n, a, env);
            var y := c.judge(n, x);
            if ps[n].finalStop.Some? then y.stop && Completed(y.r)
            else
              && !y.stop && !x.b.v.debugEnabled && x.b.v.retired == ps[n].icount
              && Smooth(x.b.v, sess.config.margins, y.env)
                 && |y.env| >= |env| - (ps[n].icount - a.v.retired) * bound - 1
  {
    var m := BriskLands(sess.g, bound, a.v.state, ps[n].icount - a.v.retired);
    LiveVisit(engine, sess, seg, injections, ps[n], a, env, m);
    var x := VisitOf(engine, sess, seg, injections, ps[n], a, env);
    assert c.judge(n, x) == Judge(engine, sess, seg, ps[n], paused(n), x);
  }

  /** An undisturbed run of a brisk guest completes, on every smooth schedule that has a pick for each micro-step
      and each point. */
  lemma {:induction false} LiveWalk<S(!new), L(!new)>(c: Conduct<S, L>, engine: Engine<S>, sess: Session<S, L>,
                                                      seg: Segment, injections: seq<ScheduledInjection>,
                                                      ps: seq<StopPoint>, paused: nat -> bool, n: nat,
                                                      a: Progress<S, L>, env: Schedule, bound: nat, end: nat)
    requires Conducts(c, engine, sess, seg, injections, ps, paused) && Runs(engine, sess.g, sess.config.margins)
    requires n < |ps| && !a.v.debugEnabled && Undisturbed(sess, seg, ps, paused) && Brisk(sess.g, bound)
    requires FinalOnlyLast(ps) && Ascending(ps) && ps[|ps| - 1].icount == end && a.v.retired <= ps[n].icount
    requires Smooth(a.v, sess.config.margins, env) && |env| >= (end - a.v.retired) * bound + |ps| - n
    ensures Completed(WalkFrom(c, |ps|, n, a, env).r)
    decreases |ps| - n
  {
    Distribute(ps[n].icount - a.v.retired, end - ps[n].icount, bound);
    MulMonotone(0, end - ps[n].icount, bound);
    LiveOne(c, engine, sess, seg, injections, ps, paused, n, a, env, bound);
    var x := c.visit(n, a, env);
    var y := c.judge(n, x);
    if !y.stop {
      assert n < |ps| - 1;
      LiveWalk(c, engine, sess, seg, injections, ps, paused, n + 1, x.b, y.env, bound, end);
    }
  }

  // ---- an agenda as the points of a run ------------------------------------------------------------------------

  lemma PointIndices(inp: AgendaInputs, last: Last, at: u64)
    ensures forall i :: i in PointAt(inp, last, All(inp, last), at).injections ==> i < |inp.injections|
    ensures inp.injections == [] ==> PointAt(inp, last, All(inp, last), at).injections == []
  {
    IndicesOfSpec(inp.injections, |inp.injections|, at);
  }

  lemma AgendaShape(inp: AgendaInputs, last: Last, ps: seq<StopPoint>)
    requires last.at >= inp.start && IsAgenda(FullPlan(inp, last), ps)
    ensures StopsOf(inp.scheduled, inp.epochLen, inp.start, last.at, ps) && AllFit(ps, |inp.injections|)
    ensures inp.injections == [] ==> NoInjections(ps)
  {
    AgendaStops(inp, last, ps);
    forall k | 0 <= k < |ps|
      ensures IndicesFit(ps[k], |inp.injections|)
      ensures inp.injections == [] ==> ps[k].injections == []
    {
      assert ps[k] in ps;
      PointIndices(inp, last, ps[k].icount);
    }
  }

  lemma AgendaPoints(inp: AgendaInputs, last: Last, ps: seq<StopPoint>)
    requires last.at >= inp.start && IsAgenda(FullPlan(inp, last), ps)
    ensures |ps| > 0 && FinalOnlyLast(ps) && PointsFrom(inp.start, ps) && ps[|ps| - 1].icount == last.at
    ensures |ps| <= last.at - inp.start + 1
  {
    FinalStopIsLast(inp, last, ps);
    forall k | 0 <= k < |ps|
      ensures inp.start <= ps[k].icount && (ps[k].epochHash || ps[k].finalStop.None? ==> inp.start < ps[k].icount)
    {
      assert ps[k] in ps;
    }
    Spread(ps, inp.start, |ps| - 1);
  }

  lemma {:induction false} Spread(ps: seq<StopPoint>, lo: nat, k: nat)
    requires k < |ps| && Ascending(ps) && lo <= ps[0].icount
    ensures lo + k <= ps[k].icount
  {
    if k > 0 { Spread(ps, lo, k - 1); }
  }

  /** An injection in the window is due at some point. */
  lemma InjectionDue(inp: AgendaInputs, last: Last, ps: seq<StopPoint>, i: nat) returns (k: nat)
    requires IsAgenda(FullPlan(inp, last), ps) && i < |inp.injections| && InWindow(inp, last, inp.injections[i])
    ensures k < |ps| && i in ps[k].injections
  {
    var at := inp.injections[i];
    IndicesOfSpec(inp.injections, |inp.injections|, at);
    var p := FullPlan(inp, last)(at);
    assert i in p.injections;
    assert Due(FullPlan(inp, last), at);
    k :| 0 <= k < |ps| && ps[k] == p;
  }

  // ---- a whole run -----------------------------------------------------------------------------------------------

  ghost predicate CompiledFrom<S, L>(sess: Session<S, L>, seg: Segment, last: Option<Last>, ps: seq<StopPoint>)
    requires last.Some? && (seg.timer.Some? ==> seg.start < U64_MAX)
  {
    && AllInjections(sess, seg).Some?
    && var inp := Inputs(sess, seg, AllInjections(sess, seg).value);
       last == FinalPoint(inp) && IsAgenda(FullPlan(inp, last.value), ps)
  }

  /** The points of a segment's agenda, as its run needs them. */
  lemma SegmentPoints<S, L>(sess: Session<S, L>, seg: Segment, last: Last, ps: seq<StopPoint>)
    requires (seg.timer.Some? ==> seg.start < U64_MAX) && CompiledFrom(sess, seg, Some(last), ps)
    ensures 0 < |ps| <= last.at - seg.start + 1 && FinalOnlyLast(ps) && PointsFrom(seg.start, ps)
    ensures ps[|ps| - 1].icount == last.at
    ensures StopsOf(seg.scheduled, EpochGrid(sess, seg.options), seg.start, last.at, ps) == true
    ensures AllFit(ps, |AllInjections(sess, seg).value|) && (NoVectors(sess, seg) ==> NoInjections(ps))
  {
    var inp := Inputs(sess, seg, AllInjections(sess, seg).value);
    AgendaShape(inp, last, ps);
    AgendaPoints(inp, last, ps);
  }

  /** A frame budget of zero: there is nothing to run. */
  predicate NoFrames(seg: Segment)
  {
    seg.until.FrameBudget? && seg.until.frames == 0
  }

  /** Why a run does not start, if it does not. */
  function Unstarted<S, L>(sess: Session<S, L>, seg: Segment, retired: nat): Option<RunError>
    requires seg.timer.Some? ==> seg.start < U64_MAX
  {
    if !seg.readable then Some(CounterUnread)
    else if retired != seg.start then Some(StartMismatch)
    else if sess.config.clock.vns(seg.start).None? then Some(ClockOverflow)
    else if seg.until.NextSdkEvent? && !seg.sdkFeed then Some(MissingSdkEventFeed)
    else if NoFrames(seg) then None
    else
      var all := AllInjections(sess, seg);
      if all.None? then Some(ClockOverflow)
      else if FinalPoint(Inputs(sess, seg, all.value)).None? then Some(BudgetOverflow)
      else None
  }

  function Begin<S, L>(v0: Vcpu<S>, links0: seq<L>): Progress<S, L>
  {
    Progress(v0, links0, [], [], 0, None)
  }

  /** The armed timer comes due within the run. */
  predicate TimerDue<S, L>(sess: Session<S, L>, seg: Segment, last: Last)
  {
    && seg.timer.Some? && seg.start < U64_MAX
    && var t := TimerToInjection(seg.timer.value, sess.config.clock, seg.start);
       t.Some? && t.value.icount <= last.at
  }

  /** Nothing stands in the way of this run: it starts, the guest is brisk, nothing disturbs it, and the schedule
      has enough picks and no failing call. */
  ghost predicate Fair<S(!new), L>(sess: Session<S, L>, seg: Segment, paused: nat -> bool, v0: Vcpu<S>, env: Schedule,
                                   bound: nat)
  {
    && NoVectors(sess, seg) && !NoFrames(seg) && Unstarted(sess, seg, v0.retired).None?
    && Undisturbed(sess, seg, [], paused) && Brisk(sess.g, bound) && Smooth(v0, sess.config.margins, env)
    && var last := FinalPoint(Inputs(sess, seg, seg.injections)).value;
       |env| > (last.at - seg.start) * (bound + 1)
  }

  /** Everything that a run over an agenda promises. */
  ghost predicate RunKeeps<S(!new), L(!new)>(sess: Session<S, L>, seg: Segment, paused: nat -> bool, v0: Vcpu<S>,
                                             links0: seq<L>, env0: Schedule, last: Last, ps: seq<StopPoint>,
                                             w: Walked<S, L>, k: Walker<S, L>)
    requires |ps| > 0
  {
    && links0 <= w.end.links && Rest(w.env, env0)
    && (w.r.Ok? ==> Accounts(sess, seg, seg.start, links0, ps, w.n, w.r.value, w.end))
    && StopsFirst(sess, ps, paused, 0, w)
    && (Completed(w.r) && NoVectors(sess, seg) && Calm(v0, sess.config.margins, env0) ==>
         w.end.v.pending.None? && RanTo(k, sess, seg, last, v0, links0, ps, w.end.v, w.end.links, w.end.landed))
    && (Completed(w.r) && TimerDue(sess, seg, last) ==> IsFired(seg, w.end.fired))
    && (forall bound: nat {:trigger Fair(sess, seg, paused, v0, env0, bound)} ::
         Fair(sess, seg, paused, v0, env0, bound) ==> Completed(w.r))
  }

  /** `w` is the run of this segment over its agenda `ps`, conducted by `c`. */
  ghost predicate RunsOver<S(!new), L(!new)>(sess: Session<S, L>, seg: Segment, paused: nat -> bool, v0: Vcpu<S>,
                                             links0: seq<L>, env0: Schedule, engine: Engine<S>, last: Option<Last>,
                                             ps: seq<StopPoint>, c: Conduct<S, L>, w: Walked<S, L>)
    requires last.Some? && (seg.timer.Some? ==> seg.start < U64_MAX)
  {
    && v0.retired == seg.start && CompiledFrom(sess, seg, last, ps)
    && Conducts(c, engine, sess, seg, AllInjections(sess, seg).value, ps, paused)
    && w == WalkFrom(c, |ps|, 0, Begin(v0, links0), env0)
  }

  /** What a segment's run `w` amounts to. One that does not start changes nothing, one without frames ends at the
      counter, and any other walks its agenda `ps`; each that ends without an error accounts for its links. */
  ghost predicate Ran<S(!new), L(!new)>(sess: Session<S, L>, seg: Segment, paused: nat -> bool, v0: Vcpu<S>,
                                        links0: seq<L>, env0: Schedule, engine: Engine<S>, k: Walker<S, L>,
                                        last: Option<Last>, ps: seq<StopPoint>, c: Conduct<S, L>, w: Walked<S, L>)
    requires seg.timer.Some? ==> seg.start < U64_MAX
  {
    && links0 <= w.end.links && Rest(w.env, env0)
    && (w.r.Ok? ==> Accounts(sess, seg, seg.start, links0, ps, w.n, w.r.value, w.end))
    && match Unstarted(sess, seg, v0.retired)
       case Some(error) => last.None? && w.r == Err(error) && w.end == Begin(v0, links0) && w.env == env0
       case None =>
         if NoFrames(seg) then
           last.None? && w.n == |ps| == 0
           && Verdict(true, w.r, w.end, w.env) == CounterStop(sess, seg, BudgetReached, Begin(v0, links0), env0)
         else
           && last.Some? && |ps| > 0 && RunsOver(sess, seg, paused, v0, links0, env0, engine, last, ps, c, w)
           && RunKeeps(sess, seg, paused, v0, links0, env0, last.value, ps, w, k)
  }

  lemma RanMeans<S(!new), L(!new)>(sess: Session<S, L>, seg: Segment, paused: nat -> bool, v0: Vcpu<S>, links0: seq<L>,
                                   env0: Schedule, engine: Engine<S>, k: Walker<S, L>, last: Option<Last>,
                                   ps: seq<StopPoint>, c: Conduct<S, L>, w: Walked<S, L>)
    requires seg.timer.Some? ==> seg.start < U64_MAX
    requires Ran(sess, seg, paused, v0, links0, env0, engine, k, last, ps, c, w)
    ensures links0 <= w.end.links && Rest(w.env, env0)
    ensures w.r.Ok? ==> Accounts(sess, seg, seg.start, links0, ps, w.n, w.r.value, w.end) == true
    ensures Unstarted(sess, seg, v0.retired).Some? ==>
              w.r == Err(Unstarted(sess, seg, v0.retired).value) && w.end == Begin(v0, links0) && w.env == env0
  {}

  lemma ConductorConducts<S(!new), L(!new)>(engine: Engine<S>, sess: Session<S, L>, seg: Segment,
                                            injections: seq<ScheduledInjection>, ps: seq<StopPoint>,
                                            paused: nat -> bool)
    requires AllFit(ps, |injections|)
    ensures Conducts(ConductOf(engine, sess, seg, injections, ps, paused), engine, sess, seg, injections, ps, paused)
  {}

  lemma RunFires<S(!new), L(!new)>(c: Conduct<S, L>, engine: Engine<S>, sess: Session<S, L>, seg: Segment, last: Last,
                                   ps: seq<StopPoint>, paused: nat -> bool, a: Progress<S, L>, env: Schedule)
    requires (seg.timer.Some? ==> seg.start < U64_MAX) && CompiledFrom(sess, seg, Some(last), ps)
    requires Conducts(c, engine, sess, seg, AllInjections(sess, seg).value, ps, paused)
    requires Runs(engine, sess.g, sess.config.margins)
    requires |ps| > 0 && !a.v.debugEnabled && TimerDue(sess, seg, last)
    ensures var w := WalkFrom(c, |ps|, 0, a, env); Completed(w.r) ==> IsFired(seg, w.end.fired)
  {
    var all := AllInjections(sess, seg).value;
    var inp := Inputs(sess, seg, all);
    assert inp.injections[|seg.injections|] == all[|seg.injections|].icount;
    SegmentPoints(sess, seg, last, ps);
    var i := InjectionDue(inp, last, ps, |seg.injections|);
    WalkFires(c, engine, sess, seg, all, ps, paused, 0, a, env, i);
  }

  lemma OnePickMore(d: nat, bound: nat)
    ensures d * (bound + 1) == d * bound + d
  {}

  /** A fair schedule has enough picks for the points of the agenda. */
  lemma FairPicks<S(!new), L>(sess: Session<S, L>, seg: Segment, paused: nat -> bool, v0: Vcpu<S>, env: Schedule,
                              bound: nat, last: Last, ps: seq<StopPoint>)
    requires Fair(sess, seg, paused, v0, env, bound) && Some(last) == FinalPoint(Inputs(sess, seg, seg.injections))
    requires |ps| <= last.at - seg.start + 1 && NoInjections(ps)
    ensures |env| >= (last.at - v0.retired) * bound + |ps| && v0.retired == seg.start
    ensures Undisturbed(sess, seg, ps, paused) == true
  {
    OnePickMore(last.at - seg.start, bound);
  }

  lemma RunCompletes<S(!new), L(!new)>(c: Conduct<S, L>, engine: Engine<S>, sess: Session<S, L>, seg: Segment,
                                       last: Last, ps: seq<StopPoint>, paused: nat -> bool, v0: Vcpu<S>, links0: seq<L>,
                                       env: Schedule, bound: nat)
    requires seg.timer.None? && CompiledFrom(sess, seg, Some(last), ps) && |ps| > 0
    requires Conducts(c, engine, sess, seg, seg.injections, ps, paused) && Runs(engine, sess.g, sess.config.margins)
    requires !v0.debugEnabled && Fair(sess, seg, paused, v0, env, bound)
    ensures Completed(WalkFrom(c, |ps|, 0, Begin(v0, links0), env).r)
  {
    SegmentPoints(sess, seg, last, ps);
    FairPicks(sess, seg, paused, v0, env, bound, last, ps);
    LiveWalk(c, engine, sess, seg, seg.injections, ps, paused, 0, Begin(v0, links0), env, bound, last.at);
  }

  lemma RunCalm<S(!new), L(!new)>(c: Conduct<S, L>, engine: Engine<S>, sess: Session<S, L>, seg: Segment, last: Last,
                                  ps: seq<StopPoint>, paused: nat -> bool, v0: Vcpu<S>, links0: seq<L>, env: Schedule,
                                  k: Walker<S, L>)
    requires NoVectors(sess, seg) && CompiledFrom(sess, seg, Some(last), ps) && v0.retired == seg.start
    requires Conducts(c, engine, sess, seg, seg.injections, ps, paused) && Runs(engine, sess.g, sess.config.margins)
    requires !v0.debugEnabled && Models(k, sess) && Calm(v0, sess.config.margins, env) && |ps| > 0
    ensures var w := WalkFrom(c, |ps|, 0, Begin(v0, links0), env);
            Completed(w.r) ==>
              w.end.v.pending.None?
              && RanTo(k, sess, seg, last, v0, links0, ps, w.end.v, w.end.links, w.end.landed) == true
  {
    SegmentPoints(sess, seg, last, ps);
    var a, t0 := Begin(v0, links0), From(v0.state, v0.retired, links0);
    assert OnWalk(k, seg.options, t0, ps, 0, a.v, a.links, a.landed);
    CalmWalk(c, engine, sess, seg, seg.injections, ps, paused, 0, a, env, k, t0);
  }

  lemma RunStops<S(!new), L(!new)>(c: Conduct<S, L>, engine: Engine<S>, sess: Session<S, L>, seg: Segment, last: Last,
                                   ps: seq<StopPoint>, paused: nat -> bool, v0: Vcpu<S>, links0: seq<L>, env: Schedule)
    requires (seg.timer.Some? ==> seg.start < U64_MAX) && CompiledFrom(sess, seg, Some(last), ps)
    requires v0.retired == seg.start
    requires Conducts(c, engine, sess, seg, AllInjections(sess, seg).value, ps, paused)
    requires Runs(engine, sess.g, sess.config.margins)
    requires !v0.debugEnabled
    ensures |ps| > 0
    ensures var w := WalkFrom(c, |ps|, 0, Begin(v0, links0), env);
            && links0 <= w.end.links && Rest(w.env, env) && (StopsFirst(sess, ps, paused, 0, w) == true)
            && (w.r.Ok? ==> Accounts(sess, seg, seg.start, links0, ps, w.n, w.r.value, w.end) == true)
  {
    var all := AllInjections(sess, seg).value;
    SegmentPoints(sess, seg, last, ps);
    WalkAccounts(c, engine, sess, seg, all, ps, paused, 0, Begin(v0, links0), env, seg.start, links0);
    WalkStops(c, engine, sess, seg, all, ps, paused, 0, Begin(v0, links0), env);
  }

  /** A run over its agenda keeps all its promises. */
  lemma RunKeepsAll<S(!new), L(!new)>(c: Conduct<S, L>, engine: Engine<S>, sess: Session<S, L>, seg: Segment,
                                      last: Last, ps: seq<StopPoint>, paused: nat -> bool, v0: Vcpu<S>, links0: seq<L>,
                                      env: Schedule, k: Walker<S, L>)
    requires (seg.timer.Some? ==> seg.start < U64_MAX) && CompiledFrom(sess, seg, Some(last), ps)
    requires v0.retired == seg.start
    requires Conducts(c, engine, sess, seg, AllInjections(sess, seg).value, ps, paused)
    requires Runs(engine, sess.g, sess.config.margins)
    requires !v0.debugEnabled && Models(k, sess)
    ensures |ps| > 0
    ensures RunKeeps(sess, seg, paused, v0, links0, env, last, ps, WalkFrom(c, |ps|, 0, Begin(v0, links0), env),
                     k) == true
  {
    RunStops(c, engine, sess, seg, last, ps, paused, v0, links0, env);
    if NoVectors(sess, seg) && Calm(v0, sess.config.margins, env) {
      RunCalm(c, engine, sess, seg, last, ps, paused, v0, links0, env, k);
    }
    if TimerDue(sess, seg, last) { RunFires(c, engine, sess, seg, last, ps, paused, Begin(v0, links0), env); }
    forall bound: nat | Fair(sess, seg, paused, v0, env, bound)
      ensures Completed(WalkFrom(c, |ps|, 0, Begin(v0, links0), env).r)
    {
      RunCompletes(c, engine, sess, seg, last, ps, paused, v0, links0, env, bound);
    }
  }

  lemma NeverStarted<S(!new), L(!new)>(sess: Session<S, L>, seg: Segment, paused: nat -> bool, v0: Vcpu<S>,
                                       links0: seq<L>, env0: Schedule, engine: Engine<S>, k: Walker<S, L>,
                                       c: Conduct<S, L>, error: RunError)
    requires (seg.timer.Some? ==> seg.start < U64_MAX) && Unstarted(sess, seg, v0.retired) == Some(error)
    ensures Ran(sess, seg, paused, v0, links0, env0, engine, k, None, [], c,
                Walked(Begin(v0, links0), Err(error), env0, 0, [])) == true
  {}

  lemma NoFramesRan<S(!new), L(!new)>(sess: Session<S, L>, seg: Segment, paused: nat -> bool, v0: Vcpu<S>,
                                      links0: seq<L>, env0: Schedule, engine: Engine<S>, k: Walker<S, L>,
                                      c: Conduct<S, L>, y: Verdict<S, L>)
    requires (seg.timer.Some? ==> seg.start < U64_MAX) && Unstarted(sess, seg, v0.retired).None? && NoFrames(seg)
    requires y == CounterStop(sess, seg, BudgetReached, Begin(v0, links0), env0)
    ensures Ran(sess, seg, paused, v0, links0, env0, engine, k, None, [], c, Walked(y.c, y.r, y.env, 0, [])) == true
  {
    CounterKeeps(sess, seg, BudgetReached, Begin(v0, links0), env0);
  }

  lemma AgendaRan<S(!new), L(!new)>(sess: Session<S, L>, seg: Segment, paused: nat -> bool, v0: Vcpu<S>, links0: seq<L>,
                                    env0: Schedule, engine: Engine<S>, k: Walker<S, L>, last: Last, ps: seq<StopPoint>,
                                    c: Conduct<S, L>, w: Walked<S, L>)
    requires (seg.timer.Some? ==> seg.start < U64_MAX) && Unstarted(sess, seg, v0.retired).None? && !NoFrames(seg)
    requires RunsOver(sess, seg, paused, v0, links0, env0, engine, Some(last), ps, c, w) && !v0.debugEnabled
    requires Models(k, sess) && Runs(engine, sess.g, sess.config.margins)
    ensures Ran(sess, seg, paused, v0, links0, env0, engine, k, Some(last), ps, c, w) == true
  {
    RunKeepsAll(c, engine, sess, seg, last, ps, paused, v0, links0, env0, k);
  }
}
