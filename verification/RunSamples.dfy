/** Sample runs: the inputs at which run control does less than it promises, and runs that complete. */
module RunSamples {
  import opened Common
  import opened Machine
  import opened Boundary
  import opened Inject
  import opened VirtualTime
  import opened Agenda
  import opened Itineraries
  import opened RunModel
  import opened RunLaws
  import opened LinkLaws
  import opened RunControl
  import opened Quantization
  import opened Pieces

  // ---- guests, sessions and schedules -----------------------------------------------------------------

  /** A guest that retires an instruction with every micro-step. */
  function Steady(): Guest<int>
  {
    Guest((s: int) => Retire, (s: int) => s + 1, (s: int) => None, (s: int) => true, (s: int, x: byte) => s,
          (s: int) => 0, (s: int) => 0)
  }

  /** The same, but for a terminal halt after the first instruction. */
  function HaltsAfterOne(): Guest<int>
  {
    Guest((s: int) => if s == 1 then Exit else Retire, (s: int) => s + 1,
          (s: int) => if s == 1 then Some(Halted) else None, (s: int) => true, (s: int, x: byte) => s,
          (s: int) => 0, (s: int) => 0)
  }

  /** Every link is the count that it was taken at. */
  function Counting(g: Guest<int>, epochLen: u64, epochsOn: bool): Session<int, int>
  {
    Session(g, RunConfig(Clock((i: u64) => Some(i), (v: u64) => Some(v)), Margins(1, 0), epochLen, epochsOn),
            (s: int, i: nat) => s, (s: int, i: nat) => false, false, (s: int, i: nat) => [], (s: int) => false,
            (s: int, pending: Option<byte>, icount: u64, vns: u64) => icount)
  }

  function Picks(n: nat): (env: Schedule)
    ensures |env| == n && forall p :: p in env ==> p == ONE
  {
    seq(n, _ => ONE)
  }

  function Fresh(): Vcpu<int>
  {
    Vcpu(0, 0, None, false, false, 0)
  }

  function Upto(budget: u64, scheduled: seq<u64>, options: RunOptions): Segment
  {
    Segment(0, scheduled, [], None, Icount(budget), options, false, true)
  }

  lemma {:induction false} SteadyIs(s: int, n: nat)
    ensures Iter(Steady(), s, n) == s + n && Retired(Steady(), s, n) == n
    decreases n
  {
    if n > 0 { SteadyIs(s + 1, n - 1); }
  }

  lemma SteadyLands(s: int, n: nat)
    ensures IsLanding(Steady(), s, n, n) && Unrefused(Steady(), s, n)
  {
    SteadyIs(s, n);
  }

  lemma SteadyIsBrisk()
    ensures Brisk(Steady(), 1)
  {
    forall s: int ensures RetiresWithin(Steady(), s, 1) {
      SteadyLands(s, 1);
    }
  }

  lemma EarliestPoint(plan: Plan, ps: seq<StopPoint>, at: u64)
    requires IsAgenda(plan, ps) && Due(plan, at) && plan(at).icount == at && forall b: u64 :: b < at ==> !Due(plan, b)
    ensures |ps| > 0 && ps[0] == plan(at)
  {
    var i :| 0 <= i < |ps| && ps[i] == plan(at);
    assert ps[0] in ps;
  }

  /** One sample run, with the engine that it runs on. */
  method Sample(sess: Session<int, int>, seg: Segment, paused: nat -> bool, links0: seq<int>, env0: Schedule)
    returns (end: Progress<int, int>, r: Result<Outcome, RunError>, ps: seq<StopPoint>, n: nat,
             ghost engine: Engine<int>, ghost last: Option<Last>, ghost c: Conduct<int, int>, ghost w: Walked<int, int>)
    requires seg.start == 0 && seg.timer.None? && !sess.queues && Unstarted(sess, seg, 0).None? && !NoFrames(seg)
    ensures Runs(engine, sess.g, sess.config.margins) && w.end == end && w.r == r && w.n == n && last.Some? && |ps| > 0
    ensures RunsOver(sess, seg, paused, Fresh(), links0, env0, engine, last, ps, c, w) == true
    ensures RunKeeps(sess, seg, paused, Fresh(), links0, env0, last.value, ps, w, WalkerOf(sess)) == true
  {
    engine := EngineOf(sess.g, sess.config.margins);
    EngineRuns(sess.g, sess.config.margins);
    WalkerModels(sess);
    var env;
    ghost var trace;
    end, r, env, ps, n, last, c, trace := RunSegment(sess, seg, paused, Fresh(), links0, env0, WalkerOf(sess),
                                                       engine);
    w := Walked(end, r, env, n, trace);
  }

  // ---- a boundary linked twice ----------------------------------------------------------------------------

  const EVERY := RunOptions(false, true, true)

  lemma HaltPoints(last: Last, ps: seq<StopPoint>)
    requires CompiledFrom(Counting(HaltsAfterOne(), 1, true), Upto(5, [], EVERY), Some(last), ps)
    ensures |ps| > 1 && ps[0] == StopPoint(1, [], [], true, false, None) && ps[1].icount > 1
  {
    var sess, seg := Counting(HaltsAfterOne(), 1, true), Upto(5, [], EVERY);
    var inp := Inputs(sess, seg, []);
    var plan := FullPlan(inp, last);
    assert IsMultiple(1, 1);
    EarliestPoint(plan, ps, 1);
    SegmentPoints(sess, seg, last, ps);
  }

  /** The first point is an epoch, and it is linked. */
  lemma HaltFirst(engine: Engine<int>, p: StopPoint)
    requires Runs(engine, HaltsAfterOne(), Margins(1, 0)) && p == StopPoint(1, [], [], true, false, None)
    ensures var sess, seg := Counting(HaltsAfterOne(), 1, true), Upto(5, [], EVERY);
            var x := VisitOf(engine, sess, seg, [], p, Begin(Fresh(), []), Picks(9));
            && x.flow.Visited? && x.b.links == [1] && x.b.v.state == 1 && x.b.v.retired == 1
            && !x.b.v.debugEnabled && Smooth(x.b.v, Margins(1, 0), x.env) && |x.env| >= 7
  {
    var sess, seg, g := Counting(HaltsAfterOne(), 1, true), Upto(5, [], EVERY), HaltsAfterOne();
    assert Iter(g, 0, 1) == 1 && IsLanding(g, 0, 1, 1) && Unrefused(g, 0, 1);
    LiveVisit(engine, sess, seg, [], p, Begin(Fresh(), []), Picks(9), 1);
    KeepsVisit(engine, sess, seg, [], p, Begin(Fresh(), []), Picks(9));
  }

  /** On the way to the second one the guest halts, where it is linked already. */
  lemma HaltSecond(engine: Engine<int>, p: StopPoint, a: Progress<int, int>, env: Schedule, pause: bool)
    requires Runs(engine, HaltsAfterOne(), Margins(1, 0)) && IndicesFit(p, 0) && p.icount > 1
    requires a.v.state == 1 && a.v.retired == 1 && !a.v.debugEnabled && Smooth(a.v, Margins(1, 0), env) && |env| >= 7
    ensures var sess, seg := Counting(HaltsAfterOne(), 1, true), Upto(5, [], EVERY);
            var y := Judge(engine, sess, seg, p, pause, VisitOf(engine, sess, seg, [], p, a, env));
            && y.stop && y.r.Ok? && y.r.value.unwound && y.r.value.reason.GuestHalted? && y.r.value.boundary.icount == 1
            && y.c.links == a.links + [1]
  {
    var g := HaltsAfterOne();
    assert Iter(g, 1, 0) == 1 && FirstRefusal(g, 1, 0);
    EngineRefused(engine, g, Margins(1, 0), a.v, p.icount, env, 0);
    var l := engine.land(a.v, p.icount, env);
    assert l.env[0] in l.env;
  }

  lemma HaltWalk(engine: Engine<int>, paused: nat -> bool, last: Last, ps: seq<StopPoint>, c: Conduct<int, int>,
                 w: Walked<int, int>)
    requires Runs(engine, HaltsAfterOne(), Margins(1, 0)) && !paused(0)
    requires RunsOver(Counting(HaltsAfterOne(), 1, true), Upto(5, [], EVERY), paused, Fresh(), [], Picks(9), engine,
                      Some(last), ps, c, w)
    ensures w.r.Ok? && w.r.value.reason.GuestHalted? && w.r.value.boundary.icount == 1 && w.end.links == [1, 1]
  {
    var sess, seg := Counting(HaltsAfterOne(), 1, true), Upto(5, [], EVERY);
    HaltPoints(last, ps);
    HaltFirst(engine, ps[0]);
    var x := VisitOf(engine, sess, seg, [], ps[0], Begin(Fresh(), []), Picks(9));
    assert c.judge(0, x) == Judge(engine, sess, seg, ps[0], paused(0), x);
    WalkOn(c, |ps|, 0, Begin(Fresh(), []), Picks(9));
    HaltSecond(engine, ps[1], x.b, x.env, paused(1));
    assert c.judge(1, VisitOf(engine, sess, seg, [], ps[1], x.b, x.env))
        == Judge(engine, sess, seg, ps[1], paused(1), VisitOf(engine, sess, seg, [], ps[1], x.b, x.env));
    WalkOn(c, |ps|, 1, x.b, x.env);
  }

  /** A guest that halts right after an epoch: that boundary is linked twice. */
  method LinksTwice() returns (end: Progress<int, int>, r: Result<Outcome, RunError>)
    ensures r.Ok? && r.value.reason.GuestHalted? && r.value.boundary.icount == 1 && end.links == [1, 1]
  {
    var ps, n;
    ghost var engine, last, c, w;
    end, r, ps, n, engine, last, c, w := Sample(Counting(HaltsAfterOne(), 1, true), Upto(5, [], EVERY),
                                                (i: nat) => false, [], Picks(9));
    HaltWalk(engine, (i: nat) => false, last.value, ps, c, w);
  }

  // ---- runs that complete ---------------------------------------------------------------------------------

  lemma SteadyIsFair(epochLen: u64, epochsOn: bool, seg: Segment, v0: Vcpu<int>, env: Schedule)
    requires seg.injections == [] && seg.timer.None? && seg.readable && seg.until.Icount?
    requires seg.start + seg.until.budget <= U64_MAX
    requires v0.retired == seg.start && v0.pending.None? && env == Picks(|env|) && |env| > 2 * seg.until.budget
    ensures Fair(Counting(Steady(), epochLen, epochsOn), seg, (i: nat) => false, v0, env, 1)
  {
    SteadyIsBrisk();
  }

  lemma StartLinked(sess: Session<int, int>, seg: Segment, paused: nat -> bool, env: Schedule, last: Last,
                    ps: seq<StopPoint>, w: Walked<int, int>)
    requires sess == Counting(Steady(), 1, true) && seg == Upto(0, [], EVERY)
    requires CompiledFrom(sess, seg, Some(last), ps) && |ps| > 0 && Completed(w.r)
    requires RunKeeps(sess, seg, paused, Fresh(), [0], env, last, ps, w, WalkerOf(sess))
    ensures w.r.value.boundary.icount == 0 && w.end.links == [0, 0]
  {
    SegmentPoints(sess, seg, last, ps);
    NothingRun(sess, seg, 0, [0], ps, w.n, w.r.value, w.end);
  }

  /** A run of no instructions links its start, which the caller has linked already. */
  method LinksStart() returns (end: Progress<int, int>, r: Result<Outcome, RunError>)
    ensures Completed(r) && r.value.boundary.icount == 0 && end.links == [0, 0]
  {
    var ps, n;
    ghost var engine, last, c, w;
    var sess, seg := Counting(Steady(), 1, true), Upto(0, [], EVERY);
    SteadyIsFair(1, true, seg, Fresh(), Picks(1));
    end, r, ps, n, engine, last, c, w := Sample(sess, seg, (i: nat) => false, [0], Picks(1));
    StartLinked(sess, seg, (i: nat) => false, Picks(1), last.value, ps, w);
  }

  /** So does a frame budget of zero. */
  method LinksStartAgain() returns (end: Progress<int, int>, r: Result<Outcome, RunError>)
    ensures r.Ok? && r.value.reason.BudgetReached? && r.value.boundary.icount == 0 && end.links == [0, 0]
  {
    var sess, seg := Counting(Steady(), 1, true), Segment(0, [], [], None, FrameBudget(0, 5), EVERY, false, true);
    EngineRuns(sess.g, sess.config.margins);
    WalkerModels(sess);
    var env, ps, n;
    ghost var last, c, trace;
    end, r, env, ps, n, last, c, trace :=
      RunSegment(sess, seg, (i: nat) => false, Fresh(), [0], Picks(1), WalkerOf(sess),
                 EngineOf(sess.g, sess.config.margins));
  }

  // ---- a pause that passes the end ------------------------------------------------------------------------

  lemma PausePoints(last: Last, ps: seq<StopPoint>)
    requires CompiledFrom(Counting(Steady(), 100, false), Upto(10, [5], EVERY), Some(last), ps)
    ensures |ps| > 0 && ps[0] == StopPoint(5, [0], [], false, false, None)
  {
    var inp := Inputs(Counting(Steady(), 100, false), Upto(10, [5], EVERY), []);
    var plan := FullPlan(inp, last);
    assert forall at: u64 :: IndicesOf(inp.scheduled, 1, at) == if at == 5 then [0] else [];
    EarliestPoint(plan, ps, 5);
  }

  lemma PauseFirst(engine: Engine<int>, p: StopPoint)
    requires Runs(engine, Steady(), Margins(1, 0)) && p == StopPoint(5, [0], [], false, false, None)
    ensures var sess, seg := Counting(Steady(), 100, false), Upto(10, [5], EVERY);
            var y := Judge(engine, sess, seg, p, true, VisitOf(engine, sess, seg, [], p, Begin(Fresh(), []),
                                                               Picks(200)));
            y.stop && y.r.Ok? && y.r.value.reason.Paused? && y.r.value.boundary.icount == 100
  {
    var sess, seg := Counting(Steady(), 100, false), Upto(10, [5], EVERY);
    SteadyLands(0, 5);
    LiveVisit(engine, sess, seg, [], p, Begin(Fresh(), []), Picks(200), 5);
    var x := VisitOf(engine, sess, seg, [], p, Begin(Fresh(), []), Picks(200));
    SteadyLands(x.b.v.state, 95);
    EngineLands(engine, Steady(), Margins(1, 0), x.b.v, 100, x.env, 95);
  }

  lemma PauseWalk(engine: Engine<int>, last: Last, ps: seq<StopPoint>, c: Conduct<int, int>, w: Walked<int, int>)
    requires Runs(engine, Steady(), Margins(1, 0))
    requires RunsOver(Counting(Steady(), 100, false), Upto(10, [5], EVERY), (i: nat) => true, Fresh(), [], Picks(200),
                      engine, Some(last), ps, c, w)
    ensures w.r.Ok? && w.r.value.reason.Paused? && w.r.value.boundary.icount == 100
  {
    var sess, seg := Counting(Steady(), 100, false), Upto(10, [5], EVERY);
    PausePoints(last, ps);
    PauseFirst(engine, ps[0]);
    var x := VisitOf(engine, sess, seg, [], ps[0], Begin(Fresh(), []), Picks(200));
    var paused := (i: nat) => true;
    assert c.judge(0, x) == Judge(engine, sess, seg, ps[0], paused(0), x);
    WalkOn(c, |ps|, 0, Begin(Fresh(), []), Picks(200));
  }

  /** A run with a budget of 10, paused at an input at 5 while the epoch length is 100, stops at 100. */
  method PausesBeyond() returns (end: Progress<int, int>, r: Result<Outcome, RunError>)
    ensures r.Ok? && r.value.reason.Paused? && r.value.boundary.icount == 100
  {
    var ps, n;
    ghost var engine, last, c, w;
    end, r, ps, n, engine, last, c, w := Sample(Counting(Steady(), 100, false), Upto(10, [5], EVERY), (i: nat) => true,
                                                [], Picks(200));
    PauseWalk(engine, last.value, ps, c, w);
  }

  // ---- a cut that drops an epoch --------------------------------------------------------------------------

  const NO_FINAL := RunOptions(false, false, false)

  /** A run of four instructions with an epoch every two, in one piece and cut at the first epoch: with final hashing
      off, as the caller of the first half has it, the link at the cut is missing. */
  method DropsLink() returns (x: Progress<int, int>, xa: Progress<int, int>, xb: Progress<int, int>)
    ensures xa.links <= xb.links && x.links == xa.links + [2] + xb.links[|xa.links|..]
  {
    var sess, m := Counting(Steady(), 2, true), Margins(1, 0);
    var seg, a, b := Upto(4, [], EVERY), Upto(2, [], NO_FINAL), Segment(2, [], [], None, Icount(2), EVERY, false, true);
    SteadyIsFair(2, true, seg, Fresh(), Picks(9));
    SteadyIsFair(2, true, a, Fresh(), Picks(9));
    SteadyIsFair(2, true, b, Fresh().(retired := 2), Picks(9));
    var r, ra, rb;
    x, r, xa, ra, xb, rb := RunSplit(sess, seg, a, b, m, m, m, (i: nat) => false, Fresh(), [], Picks(9), Picks(9),
                                     Picks(9));
    assert With(sess, m) == sess;
    assert FairSplit(sess, seg, a, b, m, m, m, (i: nat) => false, Fresh(), Picks(9), Picks(9), Picks(9), 1);
    assert IsMultiple(2, 2) && DropsEpoch(sess, a, b.start);
  }

  function Alone(seg: Segment): Piece
  {
    Piece(seg, Margins(1, 0), Picks(20))
  }

  lemma AloneIsFair(sess: Session<int, int>, p: Piece)
    requires sess == Counting(Steady(), 2, true) && p == Alone(p.seg) && p.seg.until.Icount? && p.seg.until.budget < 10
    requires p.seg.injections == [] && p.seg.timer.None? && p.seg.readable && p.seg.start < 10
    ensures FairPiece(sess, p, (i: nat) => false, Fresh(), 1) == true
  {
    assert With(sess, p.margins) == sess;
    SteadyIsFair(2, true, p.seg, Fresh().(retired := p.seg.start), p.env);
  }

  /** A piece of two instructions that leaves out the epoch at its end. */
  function Short(start: u64): Piece
  {
    Alone(Segment(start, [], [], None, Icount(2), NO_FINAL, false, true))
  }

  lemma ShortPieces(sess: Session<int, int>, whole: Piece, b: Piece)
    requires sess == Counting(Steady(), 2, true) && whole == Alone(Upto(6, [], EVERY))
    requires b == Alone(Segment(4, [], [], None, Icount(2), EVERY, false, true))
    ensures FairPieces(sess, whole, [Short(0), Short(2)], b, (i: nat) => false, Fresh(), 1) == true
    ensures DropsIn(sess, [Short(0), Short(2)], b, 2) == 2
  {
    AloneIsFair(sess, whole);
    AloneIsFair(sess, Short(0));
    AloneIsFair(sess, Short(2));
    AloneIsFair(sess, b);
    assert IsMultiple(2, 2) && IsMultiple(4, 2);
    assert DropsIn(sess, [Short(0), Short(2)], b, 1) == 1;
  }

  /** A run of six in three pieces: both cuts drop a link. */
  method DropsTwoLinks() returns (x: Progress<int, int>, xb: Progress<int, int>)
    ensures |x.links| == |xb.links| + 2
  {
    var sess, pieces := Counting(Steady(), 2, true), [Short(0), Short(2)];
    var whole := Alone(Upto(6, [], EVERY));
    var b := Alone(Segment(4, [], [], None, Icount(2), EVERY, false, true));
    ShortPieces(sess, whole, b);
    var r, xs, rs, rb;
    x, r, xs, rs, xb, rb := RunPieces(sess, whole, pieces, b, (i: nat) => false, Fresh(), []);
    SameLinksExactly(sess, [], pieces, b, x, xs, xb);
  }

  // ---- landings and injections ----------------------------------------------------------------------------

  lemma CanLandAtSeven(margins: Margins, env: Schedule)
    requires margins.skidMargin > 0 && env == Picks(|env|) && |env| > 7
    ensures CanLand(Steady(), Fresh(), 7, margins, env, 7) == true
  {
    SteadyLands(0, 7);
  }

  /** Two landings, under different margins and schedules, that both succeed. */
  method LandsBoth() returns (v1: Vcpu<int>, r1: Result<Stop, LandError>, v2: Vcpu<int>, r2: Result<Stop, LandError>)
    ensures r1.Ok? && r1 == r2 && v1.state == v2.state
  {
    CanLandAtSeven(Margins(1, 0), Picks(9));
    CanLandAtSeven(Margins(5, 3), Picks(20));
    v1, r1, v2, r2 := LandTwice(Steady(), Fresh(), 7, Margins(1, 0), Margins(5, 3), Picks(9), Picks(20));
  }

  /** A guest whose interrupt window opens at its third state. */
  function OpensLate(): Guest<int>
  {
    Steady().(open := (s: int) => s >= 2)
  }

  lemma CanInjectLate()
    ensures CanInject(OpensLate(), Fresh(), 32, Margins(1, 0), 4, Picks(9), 2, 2) == true
  {
    var g := OpensLate();
    assert Iter(g, 0, 1) == 1 && Iter(g, 0, 2) == 2 && Retired(g, 0, 1) == 1 && Retired(g, 0, 2) == 2;
    assert IsLanding(g, 0, 2, 2) && Unrefused(g, 0, 2);
    forall j: nat, m: nat | j < 2 && IsLanding(g, 0, m, j) ensures !g.open(Iter(g, 0, m)) {
      assert IsLanding(g, 0, j, j);
      LandingUnique(g, 0, j, m, j);
    }
  }

  /** An injection that is put off until the window opens. */
  method InjectsLate() returns (v: Vcpu<int>, r: Result<Injection, InjectError>)
    ensures r.Ok? && v.state >= 2 && v.pending == Some(32)
  {
    var g := OpensLate();
    CanInjectLate();
    EngineRuns(g, Margins(1, 0));
    var env;
    v, r, env := InjectAt(g, Fresh(), 32, Stop(0, 0), Margins(1, 0), 4, Picks(9), EngineOf(g, Margins(1, 0)));
  }
}
