/** A run as a function of the boundary engine and its schedule (crates/dh-vmm/src/runctl.rs). */
module RunModel {
  import opened Common
  import opened Machine
  import opened Boundary
  import opened Inject
  import opened VirtualTime
  import opened Agenda
  import opened Itineraries

  const INJECT_DEFER_BUDGET: nat := 65536

  datatype Until =
    | Icount(budget: u64)
    | Vns(budget: u64)
    | Goal(period: u64, cap: u64)
    | NextSdkEvent(cap: u64)
    | FrameBudget(frames: u64, cap: u64)

  datatype StopReason = BudgetReached | GoalSatisfied | HardCapReached | Paused | GuestHalted | SdkEvent

  datatype TimerFired = TimerFired(vector: byte, deadline: u64, delivered: nat)

  /** `unwound` tells a stop taken off the counter after a refused exit from a stop at an agenda point. */
  datatype Outcome = Outcome(reason: StopReason, boundary: Stop, vns: u64, delivered: nat,
                             fired: Option<TimerFired>, unwound: bool)

  datatype RunError =
    | CounterUnread
    | StartMismatch
    | ClockOverflow
    | BudgetOverflow
    | LandFailed(error: LandError)
    | InjectFailed(inject: InjectError)
    | MissingSdkEventFeed

  datatype RunConfig = RunConfig(clock: Clock, margins: Margins, epochLen: u64, epochsOn: bool)

  /** The callers' half of a run: how an input changes the devices, which vectors it queues, what the
      goal reads, and what a hash link captures of a state. */
  datatype Session<!S, !L> = Session(
    g: Guest<S>,
    config: RunConfig,
    land: (S, nat) -> S,
    sinkRefuses: (S, nat) -> bool,
    queues: bool,
    queued: (S, nat) -> seq<byte>,
    goal: S -> bool,
    capture: (S, Option<byte>, u64, u64) -> L)

  /** One epoch link as the recording rail sees it: its count, and the chain it closes. */
  datatype EpochMark = EpochMark(icount: u64, links: nat)

  // ---- what a walk is supposed to do ---------------------------------------------------

  /** The guest's state `k` boundaries on; the state itself if it never gets there. */
  ghost function StateAt<S>(g: Guest<S>, s: S, k: int): S
  {
    if exists n: nat :: IsLanding(g, s, n, k) then
      var n: nat :| IsLanding(g, s, n, k); Iter(g, s, n)
    else s
  }

  ghost predicate Arrives<S>(g: Guest<S>, s: S, k: int)
  {
    exists n: nat :: IsLanding(g, s, n, k)
  }

  lemma StateAtIs<S>(g: Guest<S>, s: S, k: int, t: S)
    requires IsBoundary(g, s, k, t)
    ensures Arrives(g, s, k) && StateAt(g, s, k) == t
  {
    var n: nat :| IsLanding(g, s, n, k);
    BoundaryUnique(g, s, k, StateAt(g, s, k), t);
  }

  function LandAll<S>(land: (S, nat) -> S, s: S, idxs: seq<nat>): S
  {
    if |idxs| == 0 then s
    else land(LandAll(land, s, idxs[..|idxs| - 1]), idxs[|idxs| - 1])
  }

  function VnsAt(vns: u64 -> Option<u64>, icount: u64): u64
  {
    match vns(icount) case Some(v) => v case None => 0
  }

  ghost function WalkerOf<S, L>(sess: Session<S, L>): Walker<S, L>
  {
    Walker((s: S, k: int) => StateAt(sess.g, s, k),
           (s: S, k: int) => Arrives(sess.g, s, k),
           (s: S, idxs: seq<nat>) => LandAll(sess.land, s, idxs),
           (s: S, i: u64) => sess.capture(s, None, i, VnsAt(sess.config.clock.vns, i)))
  }

  /** `k` tells the truth about the session. */
  ghost predicate Models<S(!new), L>(k: Walker<S, L>, sess: Session<S, L>)
  {
    && (forall s: S, i: int, t: S {:trigger IsBoundary(sess.g, s, i, t)} ::
         IsBoundary(sess.g, s, i, t) ==> k.arrives(s, i) && k.at(s, i) == t)
    && (forall s: S, idxs: seq<nat> {:trigger LandAll(sess.land, s, idxs)} ::
         k.land(s, idxs) == LandAll(sess.land, s, idxs))
    && (forall s: S, i: u64 {:trigger sess.capture(s, None, i, VnsAt(sess.config.clock.vns, i))} ::
         k.link(s, i) == sess.capture(s, None, i, VnsAt(sess.config.clock.vns, i)))
  }

  lemma WalkerModels<S(!new), L>(sess: Session<S, L>)
    ensures Models(WalkerOf(sess), sess)
  {
    forall s: S, i: int, t: S | IsBoundary(sess.g, s, i, t)
      ensures Arrives(sess.g, s, i) && StateAt(sess.g, s, i) == t
    {
      StateAtIs(sess.g, s, i, t);
    }
  }

  lemma WalkerIsLawful<S(!new), L>(sess: Session<S, L>)
    ensures Lawful(WalkerOf(sess))
  {
    var k := WalkerOf(sess);
    forall s: S ensures k.arrives(s, 0) && k.at(s, 0) == s {
      StateAtZero(sess.g, s);
    }
    forall s: S, i: int, j: int ensures TwoHops(k, s, i, j) {
      if Arrives(sess.g, s, i) && Arrives(sess.g, StateAt(sess.g, s, i), j) {
        StateAtCompose(sess.g, s, i, j);
      }
    }
  }

  lemma StateAtCompose<S>(g: Guest<S>, s: S, j: int, k: int)
    requires Arrives(g, s, j) && Arrives(g, StateAt(g, s, j), k)
    ensures Arrives(g, s, j + k) && StateAt(g, s, j + k) == StateAt(g, StateAt(g, s, j), k)
  {
    var t := StateAt(g, s, j);
    var u := StateAt(g, t, k);
    BoundaryCompose(g, s, j, t, k, u);
    StateAtIs(g, s, j + k, u);
  }

  lemma StateAtZero<S>(g: Guest<S>, s: S)
    ensures Arrives(g, s, 0) && StateAt(g, s, 0) == s
  {
    BoundarySelf(g, s);
    StateAtIs(g, s, 0, s);
  }

  // ---- a segment -------------------------------------------------------------------------------

  /** The run-specific half of a segment. `readable` is whether the counter can be read at its start. */
  datatype Segment = Segment(
    start: u64, scheduled: seq<u64>, injections: seq<ScheduledInjection>, timer: Option<TimerArm>,
    until: Until, options: RunOptions, sdkFeed: bool, readable: bool)

  datatype Vector = Vector(vector: byte, injection: Option<nat>)

  datatype Flow = Visited(boundary: Stop, vns: u64, hashed: bool) | Unwound(why: Refusal) | Broken(error: RunError)

  /** No vector can come up: none scheduled, no timer armed, and the inputs queue none. */
  predicate NoVectors<S, L>(sess: Session<S, L>, seg: Segment)
  {
    seg.injections == [] && seg.timer.None? && !sess.queues
  }

  function EpochsOn<S, L>(sess: Session<S, L>, options: RunOptions): bool
  {
    sess.config.epochsOn || options.paranoidHash
  }

  function AsNonZero(x: u64): Option<NonZero>
  {
    if x == 0 then None else Some(x)
  }

  function AllInjections<S, L>(sess: Session<S, L>, seg: Segment): Option<seq<ScheduledInjection>>
    requires seg.timer.Some? ==> seg.start < U64_MAX
  {
    if seg.timer.None? then Some(seg.injections)
    else
      var t := TimerToInjection(seg.timer.value, sess.config.clock, seg.start);
      if t.None? then None else Some(seg.injections + [t.value])
  }

  function EpochGrid<S, L>(sess: Session<S, L>, options: RunOptions): Option<NonZero>
  {
    if EpochsOn(sess, options) then AsNonZero(sess.config.epochLen) else None
  }

  /** The stop that a run must not pass. */
  function FinalStopOf(until: Until): FinalStop
  {
    match until
    case Icount(b) => IcountBudget(b)
    case Vns(b) => VnsBudget(b)
    case Goal(_, cap) => HardCap(cap)
    case NextSdkEvent(cap) => HardCap(cap)
    case FrameBudget(_, cap) => HardCap(cap)
  }

  function PollPeriod(until: Until): Option<NonZero>
  {
    if until.Goal? then AsNonZero(until.period) else None
  }

  function Inputs<S, L>(sess: Session<S, L>, seg: Segment, injections: seq<ScheduledInjection>): AgendaInputs
  {
    AgendaInputs(seg.start, seg.scheduled, seq(|injections|, i requires 0 <= i < |injections| => injections[i].icount),
                 EpochGrid(sess, seg.options), PollPeriod(seg.until), FinalStopOf(seg.until), sess.config.clock)
  }

  /** The refusal behind an error, if the flight was unwound rather than broken. */
  function RefusalOf(e: RunError): Option<Refusal>
  {
    match e
    case LandFailed(Refused(why)) => if why.Fault? then None else Some(why)
    case LandFailed(DroppedAfter(why)) => if why.Fault? then None else Some(why)
    case InjectFailed(Landing(Refused(why))) => if why.Fault? then None else Some(why)
    case _ => None
  }

  function FlowOf(e: RunError): Flow
  {
    if RefusalOf(e).Some? then Unwound(RefusalOf(e).value) else Broken(e)
  }

  function ReasonOf(seg: Segment, why: Refusal): StopReason
  {
    match why
    case Halted => GuestHalted
    case FrameSinkStop => Paused
    case _ => if seg.until.FrameBudget? then BudgetReached else SdkEvent
  }

  /** What a run hands from one point to the next. */
  datatype Progress<S, L> = Progress(v: Vcpu<S>, links: seq<L>, landed: seq<nat>, marks: seq<EpochMark>,
                                     delivered: nat, fired: Option<TimerFired>)

  predicate IndicesFit(p: StopPoint, n: nat)
  {
    forall i :: i in p.injections ==> i < n
  }

  predicate AllFit(ps: seq<StopPoint>, n: nat)
  {
    forall k :: 0 <= k < |ps| ==> IndicesFit(ps[k], n)
  }

  predicate NoInjections(ps: seq<StopPoint>)
  {
    forall k :: 0 <= k < |ps| ==> ps[k].injections == []
  }

  // ---- one point, as a function of the engine and its schedule ----------------------------------

  /** The inputs landed so far at one boundary, and the vectors they queued. */
  datatype Applied<S> = Applied(v: Vcpu<S>, vectors: seq<Vector>, landed: seq<nat>, refused: bool)

  function Raised<S, L>(sess: Session<S, L>, s: S, idx: nat): seq<Vector>
  {
    if !sess.queues then []
    else
      var queued := sess.queued(s, idx);
      seq(|queued|, j requires 0 <= j < |queued| => Vector(queued[j], None))
  }

  /** One input more. */
  function ApplyNext<S, L>(sess: Session<S, L>, a: Applied<S>, idx: nat): Applied<S>
  {
    Applied(a.v.(state := sess.land(a.v.state, idx)), a.vectors + Raised(sess, a.v.state, idx), a.landed + [idx], false)
  }

  function ApplyFrom<S, L>(sess: Session<S, L>, a: Applied<S>, idxs: seq<nat>, i: nat): Applied<S>
    requires i <= |idxs|
    decreases |idxs| - i
  {
    if i == |idxs| then a
    else if sess.sinkRefuses(a.v.state, idxs[i]) then a.(refused := true)
    else ApplyFrom(sess, ApplyNext(sess, a, idxs[i]), idxs, i + 1)
  }

  /** The vectors queued so far at one boundary, and where the guest is. */
  datatype Delivery<S> = Delivery(v: Vcpu<S>, at: Stop, delivered: nat, fired: Option<TimerFired>,
                                  error: Option<RunError>, env: Schedule)

  predicate IsTimer(seg: Segment, x: Vector)
  {
    seg.timer.Some? && x.injection == Some(|seg.injections|)
  }

  /** One vector: after one entry if another vector is queued already, and then at the first open window. */
  function DeliverOne<S, L>(engine: Engine<S>, sess: Session<S, L>, seg: Segment, d: Delivery<S>, x: Vector,
                            chained: bool): Delivery<S>
  {
    var s := if chained then engine.step(d.v, d.env) else Single(d.v, Ok(d.at), d.env);
    if s.r.Err? then d.(v := s.v, env := s.env, error := Some(LandFailed(s.r.error)))
    else
      var inj := InjectFrom(engine, sess.g, s.v, x.vector, s.r.value.icount, s.r.value, 0, INJECT_DEFER_BUDGET, s.env);
      match inj.r
      case Err(error) => d.(v := inj.v, env := inj.env, error := Some(InjectFailed(error)))
      case Ok(done) =>
        var fired := if IsTimer(seg, x) then Some(TimerFired(done.vector, seg.timer.value.deadline, done.delivered))
                     else d.fired;
        Delivery(inj.v, Stop(done.delivered, done.rip), d.delivered + 1, fired, None, inj.env)
  }

  function DeliverFrom<S, L>(engine: Engine<S>, sess: Session<S, L>, seg: Segment, d: Delivery<S>, vectors: seq<Vector>,
                             i: nat): Delivery<S>
    requires i <= |vectors|
    decreases |vectors| - i
  {
    if i == |vectors| then d
    else
      var x := DeliverOne(engine, sess, seg, d, vectors[i], i > 0);
      if x.error.Some? then x else DeliverFrom(engine, sess, seg, x, vectors, i + 1)
  }

  /** The scheduled vectors of a point, after those that its inputs queue. */
  function DueVectors(injections: seq<ScheduledInjection>, p: StopPoint): seq<Vector>
    requires IndicesFit(p, |injections|)
  {
    seq(|p.injections|, j requires 0 <= j < |p.injections| =>
      assert p.injections[j] in p.injections; Vector(injections[p.injections[j]].vector, Some(p.injections[j])))
  }

  datatype Visit<S, L> = Visit(b: Progress<S, L>, flow: Flow, env: Schedule)

  /** The link at a point, if the options want one there. */
  function Hash<S, L>(sess: Session<S, L>, options: RunOptions, p: StopPoint, vns: u64,
                      b: Progress<S, L>): Progress<S, L>
  {
    if !ActOf(options, p).hash then b
    else
      var links := b.links + [sess.capture(b.v.state, b.v.pending, p.icount, vns)];
      b.(links := links, marks := b.marks + [EpochMark(p.icount, |links|)])
  }

  /** Land, apply the inputs, deliver the vectors, hash. */
  function VisitOf<S, L>(engine: Engine<S>, sess: Session<S, L>, seg: Segment, injections: seq<ScheduledInjection>,
                         p: StopPoint, a: Progress<S, L>, env: Schedule): Visit<S, L>
    requires IndicesFit(p, |injections|)
  {
    var l := engine.land(a.v, p.icount, env);
    if l.r.Err? then Visit(a.(v := l.v), FlowOf(LandFailed(l.r.error)), l.env)
    else
      var x := ApplyFrom(sess, Applied(l.v, [], [], false), p.inputs, 0);
      if x.refused then
        Visit(a.(v := x.v, landed := a.landed + x.landed), Broken(LandFailed(Refused(Fault))), l.env)
      else
        var d := DeliverFrom(engine, sess, seg, Delivery(x.v, l.r.value, a.delivered, a.fired, None, l.env),
                             x.vectors + DueVectors(injections, p), 0);
        var b := Progress(d.v, a.links, a.landed + x.landed, a.marks, d.delivered, d.fired);
        if d.error.Some? then Visit(b, FlowOf(d.error.value), d.env)
        else
          match sess.config.clock.vns(p.icount)
          case None => Visit(b, Broken(ClockOverflow), d.env)
          case Some(vns) =>
            Visit(Hash(sess, seg.options, p, vns, b), Visited(l.r.value, vns, ActOf(seg.options, p).hash), d.env)
  }

  /** Whether the run stops at a point, and how. */
  datatype Verdict<S, L> = Verdict(stop: bool, r: Result<Outcome, RunError>, c: Progress<S, L>, env: Schedule)

  /** `finish_at_counter` */
  function CounterStop<S, L>(sess: Session<S, L>, seg: Segment, reason: StopReason, b: Progress<S, L>,
                             env: Schedule): Verdict<S, L>
  {
    if |env| == 0 then Verdict(true, Err(LandFailed(InFlight)), b, env)
    else
      var p, rest, at := env[0], env[1..], b.v.retired;
      if p.readFault then Verdict(true, Err(LandFailed(CounterFault)), b, rest)
      else if p.regsFault then Verdict(true, Err(LandFailed(RegsFault)), b, rest)
      else if at > U64_MAX || sess.config.clock.vns(at).None? then Verdict(true, Err(ClockOverflow), b, rest)
      else
        var vns := sess.config.clock.vns(at).value;
        var links := if seg.options.hashFinalStop then b.links + [sess.capture(b.v.state, b.v.pending, at, vns)]
                     else b.links;
        Verdict(true, Ok(Outcome(reason, Stop(at, sess.g.rip(b.v.state)), vns, b.delivered, b.fired, true)),
                b.(links := links), rest)
  }

  /** `finish` */
  function PointStop<S, L>(sess: Session<S, L>, seg: Segment, reason: StopReason, p: StopPoint, flow: Flow,
                           b: Progress<S, L>, env: Schedule)
    : Verdict<S, L>
    requires flow.Visited?
  {
    var links := if seg.options.hashFinalStop && !flow.hashed
                 then b.links + [sess.capture(b.v.state, b.v.pending, p.icount, flow.vns)] else b.links;
    Verdict(true, Ok(Outcome(reason, flow.boundary, flow.vns, b.delivered, b.fired, false)), b.(links := links), env)
  }

  /** A flight that broke off: unwound, or in error. */
  function BrokeOff<S, L>(sess: Session<S, L>, seg: Segment, flow: Flow, b: Progress<S, L>,
                          env: Schedule): Verdict<S, L>
    requires !flow.Visited?
  {
    match flow
    case Unwound(why) => CounterStop(sess, seg, ReasonOf(seg, why), b, env)
    case Broken(error) => Verdict(true, Err(error), b, env)
  }

  function RollTarget<S, L>(sess: Session<S, L>, icount: u64): nat
  {
    var epoch: NonZero := Max(sess.config.epochLen, 1);
    NextMultiple(icount, epoch);
    Max(CeilDiv(icount, epoch), 1) * epoch
  }

  /** A pause between epochs: run on to the next multiple of the epoch length, and link it. */
  function RollOf<S, L>(engine: Engine<S>, sess: Session<S, L>, seg: Segment, p: StopPoint, b: Progress<S, L>,
                        env: Schedule): Verdict<S, L>
  {
    var target := RollTarget(sess, p.icount);
    var l := engine.land(b.v, target, env);
    var c := b.(v := l.v);
    if l.r.Err? then BrokeOff(sess, seg, FlowOf(LandFailed(l.r.error)), c, l.env)
    else if target > U64_MAX || sess.config.clock.vns(target).None? then Verdict(true, Err(ClockOverflow), c, l.env)
    else
      var vns := sess.config.clock.vns(target).value;
      var links := c.links + [sess.capture(l.v.state, l.v.pending, target, vns)];
      var marks := if EpochsOn(sess, seg.options) then c.marks + [EpochMark(target, |links|)] else c.marks;
      Verdict(true, Ok(Outcome(Paused, l.r.value, vns, c.delivered, c.fired, false)),
              c.(links := links, marks := marks), l.env)
  }

  /** The decision at a visited point: goal, then final stop, then pause. */
  function Decide<S, L>(engine: Engine<S>, sess: Session<S, L>, seg: Segment, p: StopPoint, flow: Flow, pause: bool,
                        b: Progress<S, L>, env: Schedule): Verdict<S, L>
    requires flow.Visited?
  {
    if p.goalPoll && sess.goal(b.v.state) then PointStop(sess, seg, GoalSatisfied, p, flow, b, env)
    else if p.finalStop.Some? then
      PointStop(sess, seg, if p.finalStop.value.BudgetStop? then BudgetReached else HardCapReached, p, flow, b, env)
    else if pause && p.epochHash then
      Verdict(true, Ok(Outcome(Paused, flow.boundary, flow.vns, b.delivered, b.fired, false)), b, env)
    else if pause then RollOf(engine, sess, seg, p, b, env)
    else Verdict(false, Err(LandFailed(InFlight)), b, env)
  }

  /** The verdict after a visit. */
  function Judge<S, L>(engine: Engine<S>, sess: Session<S, L>, seg: Segment, p: StopPoint, pause: bool,
                       x: Visit<S, L>): Verdict<S, L>
  {
    if x.flow.Visited? then Decide(engine, sess, seg, p, x.flow, pause, x.b, x.env)
    else BrokeOff(sess, seg, x.flow, x.b, x.env)
  }

  /** What a run does at each of its points. */
  datatype Conduct<!S, !L> = Conduct(visit: (nat, Progress<S, L>, Schedule) -> Visit<S, L>,
                                     judge: (nat, Visit<S, L>) -> Verdict<S, L>)

  function ConductOf<S, L>(engine: Engine<S>, sess: Session<S, L>, seg: Segment, injections: seq<ScheduledInjection>,
                           ps: seq<StopPoint>, paused: nat -> bool): Conduct<S, L>
  {
    Conduct((n: nat, a: Progress<S, L>, env: Schedule) =>
              if n < |ps| && IndicesFit(ps[n], |injections|) then VisitOf(engine, sess, seg, injections, ps[n], a, env)
              else Visit(a, Broken(ClockOverflow), env),
            (n: nat, x: Visit<S, L>) =>
              if n < |ps| then Judge(engine, sess, seg, ps[n], paused(n), x)
              else Verdict(true, Err(ClockOverflow), x.b, x.env))
  }

  /** `c` is what run control does. */
  ghost predicate Conducts<S(!new), L(!new)>(c: Conduct<S, L>, engine: Engine<S>, sess: Session<S, L>, seg: Segment,
                                             injections: seq<ScheduledInjection>, ps: seq<StopPoint>,
                                             paused: nat -> bool)
  {
    && AllFit(ps, |injections|)
    && (forall n: nat, a: Progress<S, L>, env: Schedule
         {:trigger VisitOf(engine, sess, seg, injections, ps[n], a, env)} ::
         n < |ps| ==> c.visit(n, a, env) == VisitOf(engine, sess, seg, injections, ps[n], a, env))
    && (forall n: nat, x: Visit<S, L> {:trigger Judge(engine, sess, seg, ps[n], paused(n), x)} ::
         n < |ps| ==> c.judge(n, x) == Judge(engine, sess, seg, ps[n], paused(n), x))
  }

  /** A walk over `len` points, from the `n`-th on. `trace` is the progress at each point as it was visited;
      the result's `n` counts the points up to the one where the walk stops. */
  datatype Walked<S, L> = Walked(end: Progress<S, L>, r: Result<Outcome, RunError>, env: Schedule, n: nat,
                                 trace: seq<Progress<S, L>>)

  function WalkFrom<S, L>(c: Conduct<S, L>, len: nat, n: nat, a: Progress<S, L>, env: Schedule): Walked<S, L>
    requires n <= len
    decreases len - n
  {
    if n == len then Walked(a, Err(LandFailed(InFlight)), env, n, [])
    else
      var x := c.visit(n, a, env);
      var y := c.judge(n, x);
      if y.stop then Walked(y.c, y.r, y.env, n + 1, [x.b])
      else
        var w := WalkFrom(c, len, n + 1, x.b, y.env);
        w.(trace := [x.b] + w.trace)
  }

  /** `t` is the least positive multiple of `len` from `at` on. */
  ghost predicate IsNextMultiple(at: nat, len: NonZero, t: nat)
  {
    && t > 0 && IsMultiple(t, len) && at <= t
    && forall m: nat :: m > 0 && IsMultiple(m, len) && at <= m ==> t <= m
  }

  lemma NextMultiple(at: nat, len: NonZero)
    ensures var q := Max(CeilDiv(at, len), 1); q * len >= 0 && IsNextMultiple(at, len, q * len)
  {
    var q := Max(CeilDiv(at, len), 1);
    ProductIsMultiple(q, len);
    CeilBound(at, len, q);
    MulMonotone(1, q, len);
    forall m: nat | m > 0 && IsMultiple(m, len) && at <= m ensures q * len <= m {
      NoEarlierMultiple(at, len, m);
    }
  }

  lemma NoEarlierMultiple(at: nat, len: NonZero, m: nat)
    requires m > 0 && IsMultiple(m, len) && at <= m
    ensures Max(CeilDiv(at, len), 1) * len <= m
  {
    IsMultipleMeans(m, len);
    CeilBound(at, len, m / len);
    MulMonotone(Max(CeilDiv(at, len), 1), m / len, len);
  }
}
