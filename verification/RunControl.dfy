/** Run control: walk the agenda of one run (crates/dh-vmm/src/runctl.rs). */
module RunControl {
  import opened Common
  import opened Machine
  import opened Boundary
  import opened Inject
  import opened VirtualTime
  import opened Agenda
  import opened Itineraries
  import opened RunModel
  import opened RunLaws

  /** Land the inputs due at this boundary, in order, and collect the vectors they queue. */
  method ApplyInputs<S, L>(sess: Session<S, L>, v0: Vcpu<S>, idxs: seq<nat>) returns (x: Applied<S>)
    ensures x == ApplyFrom(sess, Applied(v0, [], [], false), idxs, 0)
    ensures x.v == v0.(state := x.v.state)
    ensures !x.refused ==>
              x.v.state == LandAll(sess.land, v0.state, idxs) && x.landed == idxs
              && x.vectors == QueuedBy(sess, v0.state, idxs)
  {
    x := Applied(v0, [], [], false);
    AppliesAll(sess, v0, idxs);
    for i := 0 to |idxs|
      invariant !x.refused && ApplyFrom(sess, Applied(v0, [], [], false), idxs, 0) == ApplyFrom(sess, x, idxs, i)
    {
      if sess.sinkRefuses(x.v.state, idxs[i]) { return x.(refused := true); }
      x := Applied(x.v.(state := sess.land(x.v.state, idxs[i])), x.vectors + Raised(sess, x.v.state, idxs[i]),
                   x.landed + [idxs[i]], false);
    }
  }

  /** Queue one vector, after one entry if another is queued already. */
  method DeliverVector<S(!new), L>(sess: Session<S, L>, seg: Segment, d: Delivery<S>, x: Vector, chained: bool,
                                   ghost engine: Engine<S>)
    returns (y: Delivery<S>)
    requires Runs(engine, sess.g, sess.config.margins) && Settled(d)
    // `timer_slot == injection_idx` also matches two absent slots, and the source then fails.
    requires seg.timer.None? ==> x.injection.Some?
    ensures y == DeliverOne(engine, sess, seg, d, x, chained)
    ensures OneKeeps(sess, seg, d, x, y) == true
  {
    KeepsOne(engine, sess, seg, d, x, chained);
    var v, at, env := d.v, d.at, d.env;
    if chained {
      var stepped;
      v, stepped, env := StepOneEntry(sess.g, v, env, sess.config.margins, engine);
      if stepped.Err? { return d.(v := v, env := env, error := Some(LandFailed(stepped.error))); }
      at := stepped.value;
    }
    var inj;
    v, inj, env := InjectAt(sess.g, v, x.vector, at, sess.config.margins, INJECT_DEFER_BUDGET, env, engine);
    if inj.Err? { return d.(v := v, env := env, error := Some(InjectFailed(inj.error))); }
    var timerSlot := if seg.timer.Some? then Some(|seg.injections|) else None;
    var fired := d.fired;
    if timerSlot == x.injection {
      fired := Some(TimerFired(inj.value.vector, seg.timer.value.deadline, inj.value.delivered));
    }
    return Delivery(v, Stop(inj.value.delivered, inj.value.rip), d.delivered + 1, fired, None, env);
  }

  /** Queue the vectors of one boundary, entering the guest once between consecutive ones. */
  method DeliverVectors<S(!new), L>(sess: Session<S, L>, seg: Segment, d0: Delivery<S>, vectors: seq<Vector>,
                                    ghost engine: Engine<S>)
    returns (d: Delivery<S>)
    requires Runs(engine, sess.g, sess.config.margins) && Settled(d0)
    requires seg.timer.None? ==> forall i :: 0 <= i < |vectors| ==> vectors[i].injection.Some?
    ensures d == DeliverFrom(engine, sess, seg, d0, vectors, 0)
    ensures AllKeeps(seg, d0, vectors, 0, d) == true
  {
    d := d0;
    KeepsAll(engine, sess, seg, d0, vectors, 0);
    for i := 0 to |vectors|
      invariant Settled(d)
      invariant DeliverFrom(engine, sess, seg, d0, vectors, 0) == DeliverFrom(engine, sess, seg, d, vectors, i)
    {
      d := DeliverVector(sess, seg, d, vectors[i], i > 0, engine);
      if d.error.Some? { return; }
    }
  }

  /** One agenda point: land, apply the inputs, deliver the vectors, hash. */
  method VisitPoint<S(!new), L>(sess: Session<S, L>, seg: Segment, injections: seq<ScheduledInjection>, p: StopPoint,
                                a: Progress<S, L>, env0: Schedule, ghost engine: Engine<S>)
    returns (x: Visit<S, L>)
    requires Runs(engine, sess.g, sess.config.margins) && !a.v.debugEnabled && IndicesFit(p, |injections|)
    requires seg.timer.None? ==> !sess.queues
    ensures x == VisitOf(engine, sess, seg, injections, p, a, env0)
    ensures VisitKeeps(sess, seg, p, a, env0, x)
  {
    KeepsVisit(engine, sess, seg, injections, p, a, env0);
    var v, boundary, env, entries := LandAt(sess.g, a.v, p.icount, sess.config.margins, env0, engine);
    if boundary.Err? { return Visit(a.(v := v), FlowOf(LandFailed(boundary.error)), env); }
    var applied := ApplyInputs(sess, v, p.inputs);
    var landed := a.landed + applied.landed;
    if applied.refused {
      return Visit(a.(v := applied.v, landed := landed), Broken(LandFailed(Refused(Fault))), env);
    }
    NothingQueued(sess, v.state, p.inputs);
    var d := DeliverVectors(sess, seg, Delivery(applied.v, boundary.value, a.delivered, a.fired, None, env),
                            applied.vectors + DueVectors(injections, p), engine);
    var b := Progress(d.v, a.links, landed, a.marks, d.delivered, d.fired);
    if d.error.Some? { return Visit(b, FlowOf(d.error.value), d.env); }
    var vns := sess.config.clock.vns(p.icount);
    if vns.None? { return Visit(b, Broken(ClockOverflow), d.env); }
    var hashed := p.epochHash && (p.finalStop.None? || seg.options.hashFinalEpoch);
    if hashed {
      var links := b.links + [sess.capture(b.v.state, b.v.pending, p.icount, vns.value)];
      b := b.(links := links, marks := b.marks + [EpochMark(p.icount, |links|)]);
    }
    return Visit(b, Visited(boundary.value, vns.value, hashed), d.env);
  }

  /** `finish_at_counter`: stop where the guest stopped, and link that boundary. */
  method FinishAtCounter<S(!new), L>(sess: Session<S, L>, seg: Segment, reason: StopReason, b: Progress<S, L>,
                                     env0: Schedule)
    returns (y: Verdict<S, L>)
    ensures y == CounterStop(sess, seg, reason, b, env0)
    ensures y.r.Ok? ==> y.r.value.unwound && y.r.value.reason == reason && UnwindsThere(sess, seg, b, y, y.r.value)
  {
    CounterKeeps(sess, seg, reason, b, env0);
    if |env0| == 0 { return Verdict(true, Err(LandFailed(InFlight)), b, env0); }
    var p, env := env0[0], env0[1..];
    if p.readFault { return Verdict(true, Err(LandFailed(CounterFault)), b, env); }
    if p.regsFault { return Verdict(true, Err(LandFailed(RegsFault)), b, env); }
    if b.v.retired > U64_MAX { return Verdict(true, Err(ClockOverflow), b, env); }
    var vns := sess.config.clock.vns(b.v.retired);
    if vns.None? { return Verdict(true, Err(ClockOverflow), b, env); }
    var boundary := Stop(b.v.retired, sess.g.rip(b.v.state));
    y := Finish(sess, seg, reason, boundary, vns.value, false, true, b, env);
  }

  /** `finish`: a link at the stop, unless it was linked already or final links are off. */
  method Finish<S, L>(sess: Session<S, L>, seg: Segment, reason: StopReason, boundary: Stop, vns: u64,
                      alreadyHashed: bool, unwound: bool, b: Progress<S, L>, env: Schedule)
    returns (y: Verdict<S, L>)
    requires boundary.icount <= U64_MAX
    ensures y.stop && y.env == env && y.r == Ok(Outcome(reason, boundary, vns, b.delivered, b.fired, unwound))
    ensures y.c == b.(links := y.c.links)
    ensures y.c.links == if seg.options.hashFinalStop && !alreadyHashed
                         then b.links + [sess.capture(b.v.state, b.v.pending, boundary.icount, vns)] else b.links
  {
    var links := b.links;
    if seg.options.hashFinalStop && !alreadyHashed {
      links := links + [sess.capture(b.v.state, b.v.pending, boundary.icount, vns)];
    }
    y := Verdict(true, Ok(Outcome(reason, boundary, vns, b.delivered, b.fired, unwound)), b.(links := links), env);
  }

  /** Honour a pause by running on to the next multiple of the epoch length and linking it. */
  method RollForward<S(!new), L>(sess: Session<S, L>, seg: Segment, p: StopPoint, x: Visit<S, L>,
                                 ghost engine: Engine<S>)
    returns (y: Verdict<S, L>)
    requires Runs(engine, sess.g, sess.config.margins) && !x.b.v.debugEnabled
    requires x.flow.Visited? && p.finalStop.None? && !p.epochHash && !(p.goalPoll && sess.goal(x.b.v.state))
    ensures y == RollOf(engine, sess, seg, p, x.b, x.env)
    ensures y.r.Ok? ==> if y.r.value.unwound then UnwindsThere(sess, seg, x.b, y, y.r.value)
                        else PausesThere(sess, seg, p, x, y, y.r.value)
  {
    RollKeeps(engine, sess, seg, p, x);
    var target := RollTarget(sess, p.icount);
    var v, boundary, env, entries := LandAt(sess.g, x.b.v, target, sess.config.margins, x.env, engine);
    var c := x.b.(v := v);
    if boundary.Err? {
      var flow := FlowOf(LandFailed(boundary.error));
      if flow.Unwound? {
        y := FinishAtCounter(sess, seg, ReasonOf(seg, flow.why), c, env);
        return;
      }
      return Verdict(true, Err(LandFailed(boundary.error)), c, env);
    }
    if target > U64_MAX { return Verdict(true, Err(ClockOverflow), c, env); }
    var vns := sess.config.clock.vns(target);
    if vns.None? { return Verdict(true, Err(ClockOverflow), c, env); }
    var links := c.links + [sess.capture(v.state, v.pending, target, vns.value)];
    var marks := c.marks;
    if EpochsOn(sess, seg.options) {
      marks := marks + [EpochMark(target, |links|)];
    }
    y := Verdict(true, Ok(Outcome(Paused, boundary.value, vns.value, c.delivered, c.fired, false)),
                 c.(links := links, marks := marks), env);
  }

  /** The decision after a visit: unwind or fail, or else goal, final stop, pause, in this order. */
  method Conclude<S(!new), L>(sess: Session<S, L>, seg: Segment, p: StopPoint, pause: bool, ghost a: Progress<S, L>,
                              ghost env0: Schedule, x: Visit<S, L>, ghost engine: Engine<S>)
    returns (y: Verdict<S, L>)
    requires Runs(engine, sess.g, sess.config.margins) && VisitKeeps(sess, seg, p, a, env0, x)
    ensures y == Judge(engine, sess, seg, p, pause, x)
    ensures JudgeKeeps(sess, seg, p, pause, x, y)
  {
    KeepsJudge(engine, sess, seg, p, pause, a, env0, x);
    match x.flow {
      case Unwound(why) => y := FinishAtCounter(sess, seg, ReasonOf(seg, why), x.b, x.env);
      case Broken(error) => y := Verdict(true, Err(error), x.b, x.env);
      case Visited(boundary, vns, hashed) =>
        if p.goalPoll && sess.goal(x.b.v.state) {
          y := Finish(sess, seg, GoalSatisfied, boundary, vns, hashed, false, x.b, x.env);
        } else if p.finalStop.Some? {
          var reason := if p.finalStop.value.BudgetStop? then BudgetReached else HardCapReached;
          y := Finish(sess, seg, reason, boundary, vns, hashed, false, x.b, x.env);
        } else if pause && p.epochHash {
          y := Verdict(true, Ok(Outcome(Paused, boundary, vns, x.b.delivered, x.b.fired, false)), x.b, x.env);
        } else if pause {
          y := RollForward(sess, seg, p, x, engine);
        } else {
          y := Verdict(false, Err(LandFailed(InFlight)), x.b, x.env);
        }
    }
  }

  function Joined<S, L>(trace: seq<Progress<S, L>>, w: Walked<S, L>): Walked<S, L>
  {
    w.(trace := trace + w.trace)
  }

  /** One point more of a walk. */
  lemma JoinedOn<S, L>(c: Conduct<S, L>, len: nat, n: nat, a: Progress<S, L>, env: Schedule, trace: seq<Progress<S, L>>)
    requires n < len
    ensures var x := c.visit(n, a, env);
            var y := c.judge(n, x);
            Joined(trace, WalkFrom(c, len, n, a, env))
            == if y.stop then Walked(y.c, y.r, y.env, n + 1, trace + [x.b])
               else Joined(trace + [x.b], WalkFrom(c, len, n + 1, x.b, y.env))
  {
    var x := c.visit(n, a, env);
    var y := c.judge(n, x);
    if !y.stop {
      var rest := WalkFrom(c, len, n + 1, x.b, y.env).trace;
      assert trace + ([x.b] + rest) == (trace + [x.b]) + rest;
    }
  }

  lemma JoinedNone<S, L>(w: Walked<S, L>)
    ensures Joined([], w) == w
  {
    assert [] + w.trace == w.trace;
  }

  /** The agenda walk of `run_segment_inner`. */
  method WalkAgenda<S(!new), L(!new)>(sess: Session<S, L>, seg: Segment, injections: seq<ScheduledInjection>,
                                      ps: seq<StopPoint>, paused: nat -> bool, a0: Progress<S, L>, env0: Schedule,
                                      ghost engine: Engine<S>, ghost c: Conduct<S, L>)
    returns (end: Progress<S, L>, r: Result<Outcome, RunError>, env: Schedule, n: nat, ghost trace: seq<Progress<S, L>>)
    requires Conducts(c, engine, sess, seg, injections, ps, paused) && Runs(engine, sess.g, sess.config.margins)
    requires !a0.v.debugEnabled && |ps| > 0 && FinalOnlyLast(ps)
    requires seg.timer.None? ==> !sess.queues
    ensures var w := WalkFrom(c, |ps|, 0, a0, env0); end == w.end && r == w.r && env == w.env && n == w.n
    ensures trace == WalkFrom(c, |ps|, 0, a0, env0).trace
    ensures StopsFirst(sess, ps, paused, 0, Walked(end, r, env, n, trace)) == true
  {
    WalkStops(c, engine, sess, seg, injections, ps, paused, 0, a0, env0);
    end, r, env, n, trace := WalkPoints(sess, seg, injections, ps, paused, a0, env0, engine, c);
  }

  /** Its loop. */
  method WalkPoints<S(!new), L(!new)>(sess: Session<S, L>, seg: Segment, injections: seq<ScheduledInjection>,
                                      ps: seq<StopPoint>, paused: nat -> bool, a0: Progress<S, L>, env0: Schedule,
                                      ghost engine: Engine<S>, ghost c: Conduct<S, L>)
    returns (end: Progress<S, L>, r: Result<Outcome, RunError>, env: Schedule, n: nat, ghost trace: seq<Progress<S, L>>)
    requires Conducts(c, engine, sess, seg, injections, ps, paused) && Runs(engine, sess.g, sess.config.margins)
    requires !a0.v.debugEnabled && |ps| > 0 && FinalOnlyLast(ps) && (seg.timer.None? ==> !sess.queues)
    ensures var w := WalkFrom(c, |ps|, 0, a0, env0); end == w.end && r == w.r && env == w.env && n == w.n
    ensures trace == WalkFrom(c, |ps|, 0, a0, env0).trace
  {
    var at := a0;
    env, n, trace := env0, 0, [];
    JoinedNone(WalkFrom(c, |ps|, 0, a0, env0));
    while true
      invariant n < |ps| && !at.v.debugEnabled
      invariant WalkFrom(c, |ps|, 0, a0, env0) == Joined(trace, WalkFrom(c, |ps|, n, at, env))
      decreases |ps| - n
    {
      JoinedOn(c, |ps|, n, at, env, trace);
      var stop;
      stop, at, end, r, env := AtPoint(sess, seg, injections, ps, n, paused, at, env, engine, c);
      n, trace := n + 1, trace + [at];
      if stop { return; }
    }
  }

  /** Everything run control does at one point: visit it, then go on or stop. */
  method AtPoint<S(!new), L(!new)>(sess: Session<S, L>, seg: Segment, injections: seq<ScheduledInjection>,
                                   ps: seq<StopPoint>, n: nat, paused: nat -> bool, a: Progress<S, L>, env0: Schedule,
                                   ghost engine: Engine<S>, ghost c: Conduct<S, L>)
    returns (stop: bool, b: Progress<S, L>, end: Progress<S, L>, r: Result<Outcome, RunError>, env: Schedule)
    requires Conducts(c, engine, sess, seg, injections, ps, paused) && Runs(engine, sess.g, sess.config.margins)
    requires n < |ps| && !a.v.debugEnabled && (seg.timer.None? ==> !sess.queues)
    ensures b == c.visit(n, a, env0).b && Verdict(stop, r, end, env) == c.judge(n, c.visit(n, a, env0))
    ensures !stop ==> !b.v.debugEnabled && ps[n].finalStop.None?
  {
    var x := VisitPoint(sess, seg, injections, ps[n], a, env0, engine);
    var y := Conclude(sess, seg, ps[n], paused(n), a, env0, x, engine);
    return y.stop, x.b, y.c, y.r, y.env;
  }

  /** `run_segment` */
  method RunSegment<S(!new), L(!new)>(sess: Session<S, L>, seg: Segment, paused: nat -> bool, v0: Vcpu<S>,
                                      links0: seq<L>, env0: Schedule, ghost k: Walker<S, L>, ghost engine: Engine<S>)
    returns (end: Progress<S, L>, r: Result<Outcome, RunError>, env: Schedule, ps: seq<StopPoint>, n: nat,
             ghost last: Option<Last>, ghost c: Conduct<S, L>, ghost trace: seq<Progress<S, L>>)
    requires !v0.debugEnabled
    requires seg.timer.Some? ==> seg.start < U64_MAX
    requires seg.timer.None? ==> !sess.queues
    requires !(seg.start == U64_MAX && EpochsOn(sess, seg.options) && sess.config.epochLen == 1)
    requires Models(k, sess) && Runs(engine, sess.g, sess.config.margins)
    // `ps` is the agenda, if the run got as far as compiling it; `n` of its points were visited.
    ensures Ran(sess, seg, paused, v0, links0, env0, engine, k, last, ps, c, Walked(end, r, env, n, trace)) == true
    // A run that does not start changes nothing; one that ends without an error accounts for its links.
    ensures Unstarted(sess, seg, v0.retired).Some? ==>
              r == Err(Unstarted(sess, seg, v0.retired).value) && end == Begin(v0, links0) && env == env0
    ensures links0 <= end.links && Rest(env, env0)
    ensures r.Ok? ==> Accounts(sess, seg, seg.start, links0, ps, n, r.value, end) == true
  {
    end, r, env, ps, n, last, c, trace := RunInner(sess, seg, paused, v0, links0, env0, k, engine);
    RanMeans(sess, seg, paused, v0, links0, env0, engine, k, last, ps, c, Walked(end, r, env, n, trace));
  }

  /** `run_segment_inner`: check the start, compile the agenda, walk it. */
  method RunInner<S(!new), L(!new)>(sess: Session<S, L>, seg: Segment, paused: nat -> bool, v0: Vcpu<S>,
                                    links0: seq<L>, env0: Schedule, ghost k: Walker<S, L>, ghost engine: Engine<S>)
    returns (end: Progress<S, L>, r: Result<Outcome, RunError>, env: Schedule, ps: seq<StopPoint>, n: nat,
             ghost last: Option<Last>, ghost c: Conduct<S, L>, ghost trace: seq<Progress<S, L>>)
    requires !v0.debugEnabled
    requires (seg.timer.Some? ==> seg.start < U64_MAX) && (seg.timer.None? ==> !sess.queues)
    requires !(seg.start == U64_MAX && EpochsOn(sess, seg.options) && sess.config.epochLen == 1)
    requires Models(k, sess) && Runs(engine, sess.g, sess.config.margins)
    ensures Ran(sess, seg, paused, v0, links0, env0, engine, k, last, ps, c, Walked(end, r, env, n, trace)) == true
  {
    end, env, ps, n := Begin(v0, links0), env0, [], 0;
    last, trace, c := None, [], ConductOf(engine, sess, seg, [], [], paused);
    var stuck := if !seg.readable then Some(CounterUnread)
                 else if v0.retired != seg.start then Some(StartMismatch)
                 else if sess.config.clock.vns(seg.start).None? then Some(ClockOverflow)
                 else if seg.until.NextSdkEvent? && !seg.sdkFeed then Some(MissingSdkEventFeed) else None;
    if stuck.Some? {
      NeverStarted(sess, seg, paused, v0, links0, env0, engine, k, c, stuck.value);
      r := Err(stuck.value);
      return;
    }
    if seg.until.FrameBudget? && seg.until.frames == 0 {
      var y := FinishAtCounter(sess, seg, BudgetReached, end, env0);
      NoFramesRan(sess, seg, paused, v0, links0, env0, engine, k, c, y);
      end, r, env := y.c, y.r, y.env;
      return;
    }
    end, r, env, ps, n, last, c, trace := RunAgenda(sess, seg, paused, v0, links0, env0, k, engine);
  }

  /** Compile a segment's agenda and walk it. */
  method RunAgenda<S(!new), L(!new)>(sess: Session<S, L>, seg: Segment, paused: nat -> bool, v0: Vcpu<S>,
                                     links0: seq<L>, env0: Schedule, ghost k: Walker<S, L>, ghost engine: Engine<S>)
    returns (end: Progress<S, L>, r: Result<Outcome, RunError>, env: Schedule, ps: seq<StopPoint>, n: nat,
             ghost last: Option<Last>, ghost c: Conduct<S, L>, ghost trace: seq<Progress<S, L>>)
    requires !v0.debugEnabled && seg.readable && v0.retired == seg.start && sess.config.clock.vns(seg.start).Some?
    requires !(seg.until.NextSdkEvent? && !seg.sdkFeed) && !NoFrames(seg)
    requires (seg.timer.Some? ==> seg.start < U64_MAX) && (seg.timer.None? ==> !sess.queues)
    requires !(seg.start == U64_MAX && EpochsOn(sess, seg.options) && sess.config.epochLen == 1)
    requires Models(k, sess) && Runs(engine, sess.g, sess.config.margins)
    ensures Ran(sess, seg, paused, v0, links0, env0, engine, k, last, ps, c, Walked(end, r, env, n, trace)) == true
  {
    end, env, ps, n := Begin(v0, links0), env0, [], 0;
    last, trace, c := None, [], ConductOf(engine, sess, seg, [], [], paused);
    var all := AllInjections(sess, seg);
    if all.None? {
      NeverStarted(sess, seg, paused, v0, links0, env0, engine, k, c, ClockOverflow);
      r := Err(ClockOverflow);
      return;
    }
    var inp := Inputs(sess, seg, all.value);
    var agenda := Compile(inp);
    if agenda.None? {
      NeverStarted(sess, seg, paused, v0, links0, env0, engine, k, c, BudgetOverflow);
      r := Err(BudgetOverflow);
      return;
    }
    last, ps := FinalPoint(inp), agenda.value;
    SegmentPoints(sess, seg, last.value, ps);
    c := ConductOf(engine, sess, seg, all.value, ps, paused);
    ConductorConducts(engine, sess, seg, all.value, ps, paused);
    end, r, env, n, trace := WalkAgenda(sess, seg, all.value, ps, paused, end, env0, engine, c);
    AgendaRan(sess, seg, paused, v0, links0, env0, engine, k, last.value, ps, c, Walked(end, r, env, n, trace));
  }
}
