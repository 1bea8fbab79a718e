/** The boundary engine: stop the vCPU at exactly the requested instruction count
    (crates/dh-vmm/src/boundary.rs). */
module Boundary {
  import opened Common
  import opened Machine

  const NEVER_FIRES_PERIOD: nat := 0x4000_0000_0000_0000

  datatype Margins = Margins(skidMargin: u32, resyncSlack: u32)

  /** `debugEnabled` is the control word last set by KVM_SET_GUEST_DEBUG; `trapArmed` is whether the
      next entry really traps. An exit or a debug trap may consume the latter behind our back. */
  datatype Vcpu<S> = Vcpu(
    state: S, retired: nat, pending: Option<byte>, debugEnabled: bool, trapArmed: bool, period: nat)

  /** One choice of the host and the kernel for one round of the landing loop: how many micro-steps
      the guest gets before a kick, how late the overflow interrupt arrives, whether the exit
      consumes the trap, and which of the calls fail. */
  datatype Pick = Pick(
    steps: nat, skid: nat, eatsTrap: bool,
    readFault: bool, armFault: bool, debugFault: bool, dropFault: bool, runFault: bool, regsFault: bool)

  type Schedule = seq<Pick>

  datatype Stop = Stop(icount: nat, rip: u64)

  datatype LandError =
    | Overshoot(target: nat, counted: nat)
    | CounterFault
    | RunFault
    | RegsFault
    | DebugFault
    | DroppedAfter(why: Refusal)  // turning single-step off failed, with the handler's refusal on record
    | Refused(why: Refusal)
    | InFlight  // the schedule ended first: the run is still under way

  datatype RunExit = Exited | Debugged | Kicked | Failed

  datatype Flight<S> = Flight(state: S, steps: nat, ticks: nat, atExit: bool)

  /** One guest entry, in numbers: was single-step wanted, was it in force, what retired. */
  datatype Entry = Entry(stepping: bool, armed: bool, ticks: nat)

  /** Guest execution until `n` micro-steps are used, an exit comes up, or one more retirement
      would exceed `quota`. */
  function Advance<S>(g: Guest<S>, s: S, n: nat, quota: nat): (f: Flight<S>)
    ensures f.steps <= n && f.ticks <= quota
    ensures f.state == Iter(g, s, f.steps) && f.ticks == Retired(g, s, f.steps)
    ensures f.atExit ==> g.kind(f.state).Exit?
    ensures n > 0 && quota > 0 ==> f.atExit || f.steps > 0
    decreases n
  {
    if n == 0 then Flight(s, 0, 0, false)
    else if g.kind(s).Exit? then Flight(s, 0, 0, true)
    else if g.kind(s).Retire? && quota == 0 then Flight(s, 0, 0, false)
    else
      var f := Advance(g, g.step(s), n - 1, quota - Ticks(g, s));
      Flight(f.state, f.steps + 1, f.ticks + Ticks(g, s), f.atExit)
  }

  function Armed<S>(v: Vcpu<S>): bool { v.debugEnabled && v.trapArmed }

  /** KVM_RUN. With the trap in force the entry ends after one micro-step, or after the handler of a
      vector delivered on the way in; otherwise it ends at an exit, a kick, or the overflow
      interrupt at `period` plus the skid. */
  function KvmRun<S>(g: Guest<S>, v: Vcpu<S>, p: Pick): (r: (Vcpu<S>, RunExit))
    ensures r.0.retired >= v.retired && r.0.debugEnabled == v.debugEnabled
    ensures r.1.Debugged? ==> Armed(v)
    ensures v.pending.None? ==> r.0.pending.None?
  {
    if p.runFault then (v, Failed)
    else if p.steps == 0 then (v, Kicked)
    else
      var s := if v.pending.Some? then g.deliver(v.state, v.pending.value) else v.state;
      var limit := if !Armed(v) then p.steps
                   else if v.pending.Some? then Min(p.steps, 1 + g.isr(s)) else 1;
      var quota := if Armed(v) then limit else v.period + p.skid;
      var f := Advance(g, s, limit, quota);
      var w := v.(state := f.state, retired := v.retired + f.ticks, pending := None);
      if f.atExit then (w.(trapArmed := v.trapArmed && !p.eatsTrap), Exited)
      else if Armed(v) && (v.pending.None? || limit == 1 + g.isr(s)) then
        (w.(trapArmed := !p.eatsTrap), Debugged)
      else (w, Kicked)
  }

  /** KVM_SET_GUEST_DEBUG */
  function SetSingleStep<S>(v: Vcpu<S>, on: bool): Vcpu<S>
  {
    v.(debugEnabled := on, trapArmed := on)
  }

  /** What is left of a schedule. */
  predicate Rest(env: Schedule, env0: Schedule)
  {
    |env| <= |env0| && forall p :: p in env ==> p in env0
  }

  /** The overflow arrives less than `bound` late, whenever an entry goes further than one micro-step. */
  predicate SkidBelow(env: Schedule, bound: nat)
  {
    forall p :: p in env ==> Tame(p, bound)
  }

  predicate Tame(p: Pick, bound: nat)
  {
    p.skid < bound || p.steps <= 1
  }

  predicate Productive(env: Schedule)
  {
    forall p :: p in env ==> p.steps > 0
  }

  /** No call fails. */
  predicate Sound(p: Pick)
  {
    !p.readFault && !p.armFault && !p.debugFault && !p.dropFault && !p.runFault && !p.regsFault
  }

  predicate AllSound(env: Schedule)
  {
    forall p :: p in env ==> Sound(p)
  }

  /** The conditions under which a landing is promised to be independent of the margins. */
  predicate Calm<S>(v: Vcpu<S>, margins: Margins, env: Schedule)
  {
    v.pending.None? && SkidBelow(env, margins.skidMargin)
  }

  /** The errors that leave `land_at` through `?`, without the single-step cleanup after the loop. */
  predicate SkipsCleanup(e: LandError)
  {
    e.CounterFault? || e.RegsFault? || e.DebugFault? || e.Refused? || e.InFlight?
  }

  predicate EndedStepping(entries: seq<Entry>)
  {
    |entries| > 0 && entries[|entries| - 1].stepping
  }

  // ---- one round of the landing loop ----------------------------------------------------------

  /** How a round ends: the loop goes on, or `land_at` returns. */
  datatype Round<S> =
    | Again(v: Vcpu<S>, stepping: bool, entries: seq<Entry>)
    | Done(v: Vcpu<S>, r: Result<Stop, LandError>, entries: seq<Entry>)

  /** The exit handler, and the error it returns. */
  function Service<S>(g: Guest<S>, v: Vcpu<S>): (Vcpu<S>, Option<LandError>)
  {
    (v.(state := g.step(v.state)), if g.refuses(v.state).Some? then Some(Refused(g.refuses(v.state).value)) else None)
  }

  /** Far approach: run with the overflow armed short of the target. */
  function FarRun<S>(g: Guest<S>, v: Vcpu<S>, p: Pick): (r: (Vcpu<S>, Option<LandError>))
    requires !v.debugEnabled
    ensures !r.0.debugEnabled && r.0.retired >= v.retired && (v.pending.None? ==> r.0.pending.None?)
    ensures r.1.Some? ==> if r.1.value.RunFault? then p.runFault else r.1.value.Refused?
  {
    var (w, x) := KvmRun(g, v, p);
    if x.Failed? then (w, Some(RunFault)) else if x.Kicked? then (w, None) else Service(g, w)
  }

  /** Near approach: one entry under single-step, which is asserted again after every debug trap and
      every serviced exit. */
  function StepRun<S>(g: Guest<S>, v: Vcpu<S>, p: Pick): (r: (Vcpu<S>, Option<LandError>))
    requires Armed(v)
    ensures r.0.debugEnabled && r.0.retired >= v.retired && (r.1.None? ==> Armed(r.0))
    ensures v.pending.None? ==> r.0.pending.None? && r.0.retired <= v.retired + 1
    ensures r.1.Some? ==>
              if r.1.value.RunFault? then p.runFault else if r.1.value.DebugFault? then p.debugFault
                                                          else r.1.value.Refused?
  {
    var (w, x) := KvmRun(g, v, p);
    match x
    case Failed => (w, Some(RunFault))
    case Kicked => (w, None)
    case Debugged => if p.debugFault then (w, Some(DebugFault)) else (SetSingleStep(w, true), None)
    case Exited =>
      var (u, e) := Service(g, w);
      if e.Some? then (u, e) else if p.debugFault then (u, Some(DebugFault)) else (SetSingleStep(u, true), None)
  }

  /** Out of the loop through `break`: single-step is dropped. */
  function Leave<S>(v: Vcpu<S>, stepping: bool, p: Pick, r: Result<Stop, LandError>, entries: seq<Entry>): Round<S>
  {
    if !stepping then Done(v, r, entries)
    else if p.dropFault then Done(v, Err(DebugFault), entries)
    else Done(SetSingleStep(v, false), r, entries)
  }

  /** After an entry from `v` to `w`. */
  function Entered<S>(v: Vcpu<S>, w: Vcpu<S>, stepping: bool, e: Option<LandError>, p: Pick): Round<S>
    requires w.retired >= v.retired
  {
    var entries := [Entry(stepping, Armed(v), w.retired - v.retired)];
    match e
    case None => Again(w, stepping, entries)
    case Some(RunFault) => Leave(w, stepping, p, Err(RunFault), entries)
    case Some(error) => Done(w, Err(error), entries)
  }

  function FarRound<S>(g: Guest<S>, v: Vcpu<S>, p: Pick): Round<S>
    requires !v.debugEnabled
  {
    var (w, e) := FarRun(g, v, p);
    Entered(v, w, false, e, p)
  }

  function StepRound<S>(g: Guest<S>, v: Vcpu<S>, p: Pick): Round<S>
    requires Armed(v)
  {
    var (w, e) := StepRun(g, v, p);
    Entered(v, w, true, e, p)
  }

  /** Single-step is in force exactly while the loop is stepping. */
  predicate Ready<S>(v: Vcpu<S>, stepping: bool)
  {
    if stepping then Armed(v) else !v.debugEnabled
  }

  predicate IsFar(retired: nat, target: nat, margins: Margins)
  {
    retired + margins.skidMargin + margins.resyncSlack < target
  }

  function LandRound<S>(g: Guest<S>, v: Vcpu<S>, stepping: bool, target: nat, margins: Margins, p: Pick): Round<S>
    requires Ready(v, stepping)
  {
    if p.readFault then Done(v, Err(CounterFault), [])
    else if v.retired > target then Leave(v, stepping, p, Err(Overshoot(target, v.retired)), [])
    else if v.retired == target then
      if p.regsFault then Done(v, Err(RegsFault), [])
      else Leave(v, stepping, p, Ok(Stop(target, g.rip(v.state))), [])
    else if stepping then StepRound(g, v, p)
    else if p.armFault then Done(v, Err(CounterFault), [])
    else if IsFar(v.retired, target, margins) then FarRound(g, v.(period := target - v.retired - margins.skidMargin), p)
    else if p.debugFault then Done(v.(period := NEVER_FIRES_PERIOD), Err(DebugFault), [])
    else StepRound(g, SetSingleStep(v.(period := NEVER_FIRES_PERIOD), true), p)
  }

  /** All rounds, one pick each. */
  datatype Approach<S> = Approach(v: Vcpu<S>, r: Result<Stop, LandError>, env: Schedule, entries: seq<Entry>)

  function Land<S>(g: Guest<S>, v: Vcpu<S>, stepping: bool, target: nat, margins: Margins,
                   env: Schedule): (l: Approach<S>)
    requires Ready(v, stepping)
    ensures |l.env| <= |env| && (l.r.Ok? ==> !l.v.debugEnabled && l.v.retired == target)
    decreases |env|
  {
    if |env| == 0 then Approach(v, Err(InFlight), env, [])
    else
      match LandRound(g, v, stepping, target, margins, env[0])
      case Done(w, r, entries) => Approach(w, r, env[1..], entries)
      case Again(w, on, entries) =>
        var l := Land(g, w, on, target, margins, env[1..]);
        l.(entries := entries + l.entries)
  }

  // ---- what every landing keeps, calm or not ------------------------------------------------------

  /** Single-step is in force at every stepping entry, which then retires one instruction at most, if no
      vector is delivered. */
  predicate InForce(entries: seq<Entry>, alone: bool)
  {
    forall e :: e in entries && e.stepping ==> e.armed && (alone ==> e.ticks <= 1)
  }

  /** What one round promises, whatever the host does. */
  ghost predicate RoundKeeps<S>(g: Guest<S>, v: Vcpu<S>, target: nat, round: Round<S>)
  {
    && round.v.retired >= v.retired && (v.retired >= target ==> round.Done? && round.entries == [])
    && (v.pending.None? ==> round.v.pending.None?)
    && InForce(round.entries, v.pending.None?)
    && match round
       case Again(w, on, entries) => Ready(w, on) && |entries| == 1 && on == entries[0].stepping
       case Done(w, r, _) =>
         && (r.Ok? ==> w.retired == target && r.value == Stop(target, g.rip(w.state)))
         && (r.Err? && r.error.Overshoot? ==> w.retired > target && r.error.counted == w.retired)
         && !(r.Err? && r.error.InFlight?)
  }

  lemma KeepsEntry<S>(g: Guest<S>, v: Vcpu<S>, w: Vcpu<S>, stepping: bool, target: nat, e: Option<LandError>, p: Pick)
    requires v.retired < target && w.retired >= v.retired && (v.pending.None? ==> w.pending.None?)
    requires stepping ==> Armed(v) && (v.pending.None? ==> w.retired <= v.retired + 1)
    requires e.None? ==> Ready(w, stepping)
    requires e.Some? ==> e.value.RunFault? || e.value.Refused? || e.value.DebugFault?
    ensures RoundKeeps(g, v, target, Entered(v, w, stepping, e, p))
  {}

  lemma KeepsFar<S>(g: Guest<S>, v: Vcpu<S>, target: nat, p: Pick)
    requires !v.debugEnabled && v.retired < target
    ensures RoundKeeps(g, v, target, FarRound(g, v, p)) == true
  {
    var (w, e) := FarRun(g, v, p);
    KeepsEntry(g, v, w, false, target, e, p);
  }

  lemma KeepsStep<S>(g: Guest<S>, v: Vcpu<S>, target: nat, p: Pick)
    requires Armed(v) && v.retired < target
    ensures RoundKeeps(g, v, target, StepRound(g, v, p)) == true
  {
    var (w, e) := StepRun(g, v, p);
    KeepsEntry(g, v, w, true, target, e, p);
  }

  lemma KeepsStop<S>(g: Guest<S>, v: Vcpu<S>, stepping: bool, target: nat, margins: Margins, p: Pick)
    requires Ready(v, stepping) && (p.readFault || v.retired >= target || (!stepping && p.armFault))
    ensures RoundKeeps(g, v, target, LandRound(g, v, stepping, target, margins, p)) == true
  {}

  lemma KeepsRound<S>(g: Guest<S>, v: Vcpu<S>, stepping: bool, target: nat, margins: Margins, p: Pick)
    requires Ready(v, stepping)
    ensures RoundKeeps(g, v, target, LandRound(g, v, stepping, target, margins, p)) == true
  {
    if p.readFault || v.retired >= target || (!stepping && p.armFault) {
      KeepsStop(g, v, stepping, target, margins, p);
    } else if stepping {
      KeepsStep(g, v, target, p);
    } else if IsFar(v.retired, target, margins) {
      KeepsFar(g, v.(period := target - v.retired - margins.skidMargin), target, p);
    } else if !p.debugFault {
      KeepsStep(g, SetSingleStep(v.(period := NEVER_FIRES_PERIOD), true), target, p);
    }
  }

  /** Single-step is left on exactly by the results that bypass the cleanup after a stepping entry. */
  lemma RoundDebug<S>(g: Guest<S>, v: Vcpu<S>, stepping: bool, target: nat, margins: Margins, p: Pick)
    requires Ready(v, stepping)
    ensures var round := LandRound(g, v, stepping, target, margins, p);
            round.Done? ==>
              (round.v.debugEnabled <==>
                round.r.Err? && SkipsCleanup(round.r.error)
                && (if round.entries == [] then stepping else EndedStepping(round.entries)))
  {}

  /** What a landing promises, whatever the host does. */
  ghost predicate LandKeeps<S>(g: Guest<S>, v: Vcpu<S>, stepping: bool, target: nat, env: Schedule, l: Approach<S>)
  {
    && Rest(l.env, env) && l.v.retired >= v.retired && (v.retired >= target ==> l.entries == [])
    && (v.pending.None? ==> l.v.pending.None?)
    && InForce(l.entries, v.pending.None?)
    && (l.r.Ok? ==> l.v.retired == target && l.r.value == Stop(target, g.rip(l.v.state)))
    && (l.r.Err? && l.r.error.Overshoot? ==> l.v.retired > target && l.r.error.counted == l.v.retired)
    && (l.v.debugEnabled <==>
         l.r.Err? && SkipsCleanup(l.r.error) && (if l.entries == [] then stepping else EndedStepping(l.entries)))
  }

  lemma KeepsMore<S>(g: Guest<S>, v: Vcpu<S>, stepping: bool, target: nat, env: Schedule, round: Round<S>,
                     l: Approach<S>)
    requires |env| > 0 && round.Again? && RoundKeeps(g, v, target, round)
    requires LandKeeps(g, round.v, round.stepping, target, env[1..], l)
    ensures LandKeeps(g, v, stepping, target, env, l.(entries := round.entries + l.entries)) == true
  {}

  lemma {:induction false} KeepsLand<S>(g: Guest<S>, v: Vcpu<S>, stepping: bool, target: nat, margins: Margins,
                                        env: Schedule)
    requires Ready(v, stepping)
    ensures LandKeeps(g, v, stepping, target, env, Land(g, v, stepping, target, margins, env)) == true
    decreases |env|
  {
    if |env| > 0 {
      KeepsRound(g, v, stepping, target, margins, env[0]);
      RoundDebug(g, v, stepping, target, margins, env[0]);
      var round := LandRound(g, v, stepping, target, margins, env[0]);
      if round.Again? {
        KeepsLand(g, round.v, round.stepping, target, margins, env[1..]);
        KeepsMore(g, v, stepping, target, env, round, Land(g, round.v, round.stepping, target, margins, env[1..]));
      }
    }
  }

  // ---- along the guest's own path ---------------------------------------------------------------

  /** The handler refuses none of the exits among the first `n` micro-states. */
  ghost predicate Unrefused<S>(g: Guest<S>, s: S, n: nat)
  {
    forall j: nat :: j < n && g.kind(Iter(g, s, j)).Exit? ==> g.refuses(Iter(g, s, j)).None?
  }

  /** Micro-state `m` is the first exit that the handler refuses. */
  ghost predicate FirstRefusal<S>(g: Guest<S>, s: S, m: nat)
  {
    g.kind(Iter(g, s, m)).Exit? && g.refuses(Iter(g, s, m)).Some? && Unrefused(g, s, m)
  }

  ghost predicate OnPath<S>(g: Guest<S>, s0: S, c0: nat, v: Vcpu<S>, n: nat)
  {
    && v.pending.None? && v.state == Iter(g, s0, n) && v.retired == c0 + Retired(g, s0, n)
    && Unrefused(g, s0, n)
  }

  /** The handler refused the exit at micro-state `m`. */
  ghost predicate RefusedAt<S>(g: Guest<S>, s0: S, c0: nat, v: Vcpu<S>, m: nat, why: Refusal)
  {
    && FirstRefusal(g, s0, m) && g.refuses(Iter(g, s0, m)) == Some(why)
    && v.pending.None? && v.state == Iter(g, s0, m + 1) && v.retired == c0 + Retired(g, s0, m)
  }

  lemma {:induction false} NoExitOnTheWay<S>(g: Guest<S>, s: S, n: nat, quota: nat, j: nat)
    requires j < Advance(g, s, n, quota).steps
    ensures !g.kind(Iter(g, s, j)).Exit?
    decreases n
  {
    if j > 0 { NoExitOnTheWay(g, g.step(s), n - 1, quota - Ticks(g, s), j - 1); }
  }

  lemma FlightUnrefused<S>(g: Guest<S>, s0: S, n: nat, limit: nat, quota: nat)
    requires Unrefused(g, s0, n)
    ensures var f := Advance(g, Iter(g, s0, n), limit, quota);
            && Unrefused(g, s0, n + f.steps) && f.state == Iter(g, s0, n + f.steps)
            && Retired(g, s0, n + f.steps) == Retired(g, s0, n) + f.ticks
  {
    var f := Advance(g, Iter(g, s0, n), limit, quota);
    IterAdd(g, s0, n, f.steps);
    forall j: nat | j < n + f.steps && g.kind(Iter(g, s0, j)).Exit? ensures g.refuses(Iter(g, s0, j)).None? {
      if j >= n {
        IterAdd(g, s0, n, j - n);
        NoExitOnTheWay(g, Iter(g, s0, n), limit, quota, j - n);
      }
    }
  }

  /** Without a pending vector an entry is a flight: of one micro-step under single-step, else of `steps`. */
  lemma RunIsFlight<S>(g: Guest<S>, v: Vcpu<S>, p: Pick)
    requires v.pending.None? && !p.runFault && p.steps > 0
    ensures var (w, x) := KvmRun(g, v, p);
            var f := if Armed(v) then Advance(g, v.state, 1, 1) else Advance(g, v.state, p.steps, v.period + p.skid);
            w.pending.None? && w.state == f.state && w.retired == v.retired + f.ticks && x.Exited? == f.atExit
            && !x.Failed?
  {}

  /** One entry moves along the path, up to the next exit; under single-step by one micro-step. */
  lemma PathRun<S>(g: Guest<S>, s0: S, c0: nat, v: Vcpu<S>, n: nat, p: Pick) returns (n': nat)
    requires OnPath(g, s0, c0, v, n)
    ensures var (w, x) := KvmRun(g, v, p);
            && OnPath(g, s0, c0, w, n') && n <= n' && (x.Exited? ==> g.kind(w.state).Exit?)
            && (!Armed(v) ==> w.retired <= v.retired + v.period + p.skid)
            && (p.steps > 0 && (Armed(v) || v.period > 0) && !x.Failed? && !x.Exited? ==> n < n')
            && (p.steps == 1 || Armed(v) ==> n' <= n + 1 && (x.Exited? ==> n' == n))
            && (p.steps == 0 ==> n' == n && !x.Exited?)
  {
    n' := n;
    if !p.runFault && p.steps > 0 {
      var limit := if Armed(v) then 1 else p.steps;
      var quota := if Armed(v) then 1 else v.period + p.skid;
      RunIsFlight(g, v, p);
      FlightUnrefused(g, s0, n, limit, quota);
      n' := n + Advance(g, v.state, limit, quota).steps;
    }
  }

  /** The servicing of an exit is a micro-step that retires nothing. */
  lemma PathService<S>(g: Guest<S>, s0: S, c0: nat, v: Vcpu<S>, n: nat)
    requires OnPath(g, s0, c0, v, n) && g.kind(v.state).Exit?
    ensures var (w, e) := Service(g, v);
            match g.refuses(v.state)
            case None => e.None? && OnPath(g, s0, c0, w, n + 1) && w.retired == v.retired
            case Some(why) => e == Some(Refused(why)) && RefusedAt(g, s0, c0, w, n, why)
  {
    IterAdd(g, s0, n, 1);
    assert Iter(g, v.state, 1) == g.step(v.state);
    assert Retired(g, v.state, 1) == 0;
  }

  /** Where an entry of the loop leaves the guest. */
  ghost predicate EntryOnPath<S>(g: Guest<S>, s0: S, c0: nat, v: Vcpu<S>, n: nat, w: Vcpu<S>, e: Option<LandError>,
                                 n': nat)
  {
    && n <= n'
    && match e
       case None => OnPath(g, s0, c0, w, n')
       case Some(Refused(why)) => RefusedAt(g, s0, c0, w, n', why)
       case Some(_) => true
  }

  lemma FarOnPath<S>(g: Guest<S>, s0: S, c0: nat, v: Vcpu<S>, n: nat, p: Pick) returns (n': nat)
    requires OnPath(g, s0, c0, v, n) && !v.debugEnabled && v.period > 0
    ensures var (w, e) := FarRun(g, v, p);
            && EntryOnPath(g, s0, c0, v, n, w, e, n')
            && w.retired <= v.retired + v.period + p.skid
            && (p.steps > 0 && e.None? ==> n < n')
            && (p.steps == 1 && (e.None? || e.value.Refused?) ==> n' == if e.None? then n + 1 else n)
            && (p.steps == 0 ==> n' == n)
  {
    n' := PathRun(g, s0, c0, v, n, p);
    var (w, x) := KvmRun(g, v, p);
    if x.Exited? {
      PathService(g, s0, c0, w, n');
      if g.refuses(w.state).None? { n' := n' + 1; }
    }
  }

  lemma StepOnPath<S>(g: Guest<S>, s0: S, c0: nat, v: Vcpu<S>, n: nat, p: Pick) returns (n': nat)
    requires OnPath(g, s0, c0, v, n) && Armed(v)
    ensures var (w, e) := StepRun(g, v, p);
            && EntryOnPath(g, s0, c0, v, n, w, e, n')
            && (p.steps > 0 && e.None? ==> n' == n + 1)
            && (e.Some? && e.value.Refused? ==> n' == n)
            && n' <= n + 1
  {
    n' := PathRun(g, s0, c0, v, n, p);
    var (w, x) := KvmRun(g, v, p);
    if x.Exited? {
      PathService(g, s0, c0, w, n');
      if g.refuses(w.state).None? { n' := n' + 1; }
    }
  }

  // ---- a calm landing --------------------------------------------------------------------------

  /** On the way to the target: not past it, and at it only as the first moment with that count. */
  ghost predicate OnTrack<S>(g: Guest<S>, s0: S, c0: nat, target: nat, v: Vcpu<S>, n: nat)
  {
    && OnPath(g, s0, c0, v, n) && v.retired <= target
    && (v.retired == target ==> IsLanding(g, s0, n, target - c0))
  }

  /** A single micro-step that reaches the target retires there. */
  lemma StepReaches<S>(g: Guest<S>, s0: S, c0: nat, target: nat, v: Vcpu<S>, n: nat, w: Vcpu<S>, n': nat)
    requires OnPath(g, s0, c0, v, n) && v.retired < target && OnPath(g, s0, c0, w, n') && n <= n' <= n + 1
    ensures OnTrack(g, s0, c0, target, w, n')
  {
    if n' == n + 1 {
      IterAdd(g, s0, n, 1);
      assert Retired(g, v.state, 1) == Ticks(g, v.state);
    }
  }

  /** What one round of a calm landing does. */
  ghost predicate RoundOnTrack<S>(g: Guest<S>, s0: S, c0: nat, target: nat, n: nat, p: Pick, round: Round<S>, n': nat)
  {
    && n <= n'
    && match round
       case Again(w, _, _) => OnTrack(g, s0, c0, target, w, n') && (p.steps > 0 ==> n < n')
       case Done(w, r, _) =>
         && (r.Ok? ==> n' == n && IsLanding(g, s0, n, target - c0) && w.state == Iter(g, s0, n) && Unrefused(g, s0, n))
         && (r.Err? && r.error.Refused? ==> RefusedAt(g, s0, c0, w, n', r.error.why) && w.retired < target)
         && (r.Err? ==> !r.error.Overshoot? && (Sound(p) ==> r.error.Refused?))
  }

  lemma FarOnTrack<S>(g: Guest<S>, s0: S, c0: nat, target: nat, v: Vcpu<S>, n: nat, p: Pick) returns (n': nat)
    requires OnPath(g, s0, c0, v, n) && !v.debugEnabled && v.period > 0 && v.retired + v.period + p.skid < target
    ensures RoundOnTrack(g, s0, c0, target, n, p, FarRound(g, v, p), n') == true
  {
    n' := FarOnPath(g, s0, c0, v, n, p);
  }

  /** Nor does a far entry of one micro-step pass the target, whatever the skid. */
  lemma HopOnTrack<S>(g: Guest<S>, s0: S, c0: nat, target: nat, v: Vcpu<S>, n: nat, p: Pick) returns (n': nat)
    requires OnPath(g, s0, c0, v, n) && !v.debugEnabled && v.period > 0 && v.retired < target && p.steps <= 1
    ensures RoundOnTrack(g, s0, c0, target, n, p, FarRound(g, v, p), n') == true
  {
    n' := FarOnPath(g, s0, c0, v, n, p);
    var (w, e) := FarRun(g, v, p);
    if e.None? { StepReaches(g, s0, c0, target, v, n, w, n'); }
  }

  lemma StepOnTrack<S>(g: Guest<S>, s0: S, c0: nat, target: nat, v: Vcpu<S>, n: nat, p: Pick) returns (n': nat)
    requires OnPath(g, s0, c0, v, n) && Armed(v) && v.retired < target
    ensures RoundOnTrack(g, s0, c0, target, n, p, StepRound(g, v, p), n') == true
  {
    n' := StepOnPath(g, s0, c0, v, n, p);
    var (w, e) := StepRun(g, v, p);
    if e.None? { StepReaches(g, s0, c0, target, v, n, w, n'); }
  }

  lemma FarStays<S>(g: Guest<S>, s0: S, c0: nat, target: nat, v: Vcpu<S>, margins: Margins, n: nat, p: Pick)
    returns (n': nat)
    requires OnPath(g, s0, c0, v, n) && !v.debugEnabled && Tame(p, margins.skidMargin)
    requires IsFar(v.retired, target, margins) && v.period == target - v.retired - margins.skidMargin
    ensures RoundOnTrack(g, s0, c0, target, n, p, FarRound(g, v, p), n') == true
  {
    if p.skid < margins.skidMargin {
      n' := FarOnTrack(g, s0, c0, target, v, n, p);
    } else {
      n' := HopOnTrack(g, s0, c0, target, v, n, p);
    }
  }

  /** One round keeps a calm landing on track: it cannot pass the target, and it can only reach it by
      retiring an instruction as the last thing it does. */
  lemma StayOnTrack<S>(g: Guest<S>, s0: S, c0: nat, v: Vcpu<S>, stepping: bool, target: nat, margins: Margins, p: Pick,
                       n: nat)
    returns (n': nat)
    requires Ready(v, stepping) && OnTrack(g, s0, c0, target, v, n) && Tame(p, margins.skidMargin)
    ensures RoundOnTrack(g, s0, c0, target, n, p, LandRound(g, v, stepping, target, margins, p), n') == true
  {
    n' := n;
    if v.retired < target && !p.readFault {
      if stepping {
        n' := StepOnTrack(g, s0, c0, target, v, n, p);
      } else if !p.armFault {
        if IsFar(v.retired, target, margins) {
          n' := FarStays(g, s0, c0, target, v.(period := target - v.retired - margins.skidMargin), margins, n, p);
        } else if !p.debugFault {
          n' := StepOnTrack(g, s0, c0, target, SetSingleStep(v.(period := NEVER_FIRES_PERIOD), true), n, p);
        }
      }
    }
  }

  /** Where a calm landing ends, at micro-state `m`, and how many rounds it takes if every entry runs. */
  ghost predicate LandOnTrack<S>(g: Guest<S>, s0: S, c0: nat, target: nat, n: nat, env: Schedule, l: Approach<S>,
                                 m: nat)
  {
    && n <= m
    && (l.r.Ok? ==> IsLanding(g, s0, m, target - c0) && l.v.state == Iter(g, s0, m) && Unrefused(g, s0, m))
    && (l.r.Err? && l.r.error.Refused? ==> RefusedAt(g, s0, c0, l.v, m, l.r.error.why) && l.v.retired < target)
    && (l.r.Err? ==> !l.r.error.Overshoot?)
    && (AllSound(env) && l.r.Err? ==> l.r.error.Refused? || l.r.error.InFlight?)
    && (Productive(env) && (l.r.Ok? || l.r.error.Refused?) ==> |env| - |l.env| <= m - n + 1)
    && (l.r.Err? && l.r.error.InFlight? ==> OnTrack(g, s0, c0, target, l.v, m) && (Productive(env) ==> |env| <= m - n))
  }

  lemma {:induction false} CalmLand<S>(g: Guest<S>, s0: S, c0: nat, v: Vcpu<S>, stepping: bool, target: nat,
                                       margins: Margins, env: Schedule, n: nat) returns (m: nat)
    requires Ready(v, stepping) && OnTrack(g, s0, c0, target, v, n) && SkidBelow(env, margins.skidMargin)
    ensures LandOnTrack(g, s0, c0, target, n, env, Land(g, v, stepping, target, margins, env), m) == true
    decreases |env|
  {
    m := n;
    if |env| > 0 {
      var p, rest := env[0], env[1..];
      assert p in env && forall q :: q in rest ==> q in env;
      KeepsRound(g, v, stepping, target, margins, p);
      var n' := StayOnTrack(g, s0, c0, v, stepping, target, margins, p, n);
      var round := LandRound(g, v, stepping, target, margins, p);
      m := n';
      if round.Again? { m := CalmLand(g, s0, c0, round.v, round.stepping, target, margins, rest, n'); }
    }
  }

  ghost predicate NoLandingBefore<S>(g: Guest<S>, s: S, k: int, bound: nat)
  {
    forall n: nat :: IsLanding(g, s, n, k) ==> bound <= n
  }

  lemma PassedLanding<S>(g: Guest<S>, s0: S, c0: nat, target: nat, v: Vcpu<S>, n: nat)
    requires OnTrack(g, s0, c0, target, v, n)
    ensures NoLandingBefore(g, s0, target - c0, n)
  {
    var k := target - c0;
    forall m: nat | IsLanding(g, s0, m, k) ensures n <= m {
      if m < n {
        IterAdd(g, s0, m, n - m);
        LandingUnique(g, s0, n, m, k);
      }
    }
  }

  /** The schedules of which landings are promised: calm, with no failing call, and with every entry running. */
  predicate Smooth<S>(v: Vcpu<S>, margins: Margins, env: Schedule)
  {
    Calm(v, margins, env) && AllSound(env) && Productive(env)
  }

  /** A smooth landing that is possible within the schedule: micro-state `n` is the landing, and no exit on
      the way is refused. */
  ghost predicate CanLand<S>(g: Guest<S>, v: Vcpu<S>, target: nat, margins: Margins, env: Schedule, n: nat)
  {
    && Smooth(v, margins, env) && v.retired <= target
    && IsLanding(g, v.state, n, target - v.retired) && Unrefused(g, v.state, n) && n < |env|
  }

  /** The landing at micro-state `n`. */
  ghost predicate LandsAt<S>(g: Guest<S>, v: Vcpu<S>, target: nat, margins: Margins, env: Schedule, n: nat,
                             l: Approach<S>)
  {
    && l.r == Ok(Stop(target, g.rip(l.v.state))) && l.v.state == Iter(g, v.state, n) && l.v.retired == target
    && !l.v.debugEnabled && Smooth(l.v, margins, l.env) && |l.env| >= |env| - n - 1
  }

  /** A smooth landing that meets a refused exit first, at micro-state `n`. */
  ghost predicate WillRefuse<S>(g: Guest<S>, v: Vcpu<S>, target: nat, margins: Margins, env: Schedule, n: nat)
  {
    Smooth(v, margins, env) && FirstRefusal(g, v.state, n) && v.retired + Retired(g, v.state, n) < target && n < |env|
  }

  ghost predicate StopsAt<S>(g: Guest<S>, v: Vcpu<S>, env: Schedule, n: nat, l: Approach<S>)
  {
    && l.r.Err? && l.r.error.Refused? && RefusedAt(g, v.state, v.retired, l.v, n, l.r.error.why)
    && Rest(l.env, env) && |l.env| >= |env| - n - 1
  }

  lemma StartOnTrack<S>(g: Guest<S>, v: Vcpu<S>, target: nat)
    requires v.pending.None? && v.retired <= target
    ensures OnTrack(g, v.state, v.retired, target, v, 0)
  {
    assert v.retired == target ==> IsLanding(g, v.state, 0, 0);
  }

  /** A smooth landing with a landing ahead ends there. */
  lemma EndsThere<S>(g: Guest<S>, s: S, c: nat, target: nat, env: Schedule, l: Approach<S>, m: nat, n: nat)
    requires LandOnTrack(g, s, c, target, 0, env, l, m) && AllSound(env) && Productive(env)
    requires IsLanding(g, s, n, target - c) && Unrefused(g, s, n) && n < |env|
    ensures l.r.Ok? && m == n
  {
    if l.r.Ok? {
      LandingUnique(g, s, n, m, target - c);
    } else if l.r.error.InFlight? {
      PassedLanding(g, s, c, target, l.v, m);
    } else if m >= n {
      IterAdd(g, s, n, m - n);
    }
  }

  /** A smooth landing with a refused exit ahead ends there. */
  lemma RefusedThere<S>(g: Guest<S>, s: S, c: nat, target: nat, env: Schedule, l: Approach<S>, m: nat, n: nat)
    requires LandOnTrack(g, s, c, target, 0, env, l, m) && AllSound(env) && Productive(env)
    requires FirstRefusal(g, s, n) && c + Retired(g, s, n) < target && n < |env|
    ensures l.r.Err? && l.r.error.Refused? && m == n
  {
    if l.r.Ok? && m <= n { IterAdd(g, s, m, n - m); }
  }

  /** A landing that exists is made, within one round more than there are micro-steps on the way. */
  lemma LandsOk<S>(g: Guest<S>, v: Vcpu<S>, target: nat, margins: Margins, env: Schedule, n: nat)
    requires !v.debugEnabled && CanLand(g, v, target, margins, env, n)
    ensures LandsAt(g, v, target, margins, env, n, Land(g, v, false, target, margins, env))
  {
    StartOnTrack(g, v, target);
    var m := CalmLand(g, v.state, v.retired, v, false, target, margins, env, 0);
    EndsThere(g, v.state, v.retired, target, env, Land(g, v, false, target, margins, env), m, n);
    KeepsLand(g, v, false, target, margins, env);
  }

  /** An exit that the handler refuses on the way ends the landing there. */
  lemma LandsRefused<S>(g: Guest<S>, v: Vcpu<S>, target: nat, margins: Margins, env: Schedule, n: nat)
    requires !v.debugEnabled && WillRefuse(g, v, target, margins, env, n)
    ensures StopsAt(g, v, env, n, Land(g, v, false, target, margins, env))
  {
    StartOnTrack(g, v, target);
    var m := CalmLand(g, v.state, v.retired, v, false, target, margins, env, 0);
    RefusedThere(g, v.state, v.retired, target, env, Land(g, v, false, target, margins, env), m, n);
    KeepsLand(g, v, false, target, margins, env);
  }

  // ---- when single-step is left on ----------------------------------------------------------------

  predicate IsNear(distance: int, margins: Margins)
  {
    distance <= margins.skidMargin + margins.resyncSlack
  }

  /** No exit that the handler refuses comes up within the margins of the target. */
  ghost predicate NoRefusalNear<S>(g: Guest<S>, s: S, k: int, margins: Margins)
  {
    forall m: nat :: FirstRefusal(g, s, m) && Retired(g, s, m) < k ==> !IsNear(k - Retired(g, s, m), margins)
  }

  /** Where a sound round leaves single-step on. */
  ghost predicate RoundOff<S>(g: Guest<S>, s0: S, c0: nat, target: nat, margins: Margins, n: nat, round: Round<S>,
                              n': nat)
  {
    match round
    case Again(w, on, _) => OnPath(g, s0, c0, w, n') && (on ==> IsNear(target - w.retired, margins))
    case Done(w, r, _) =>
      w.debugEnabled ==>
        FirstRefusal(g, s0, n') && c0 + Retired(g, s0, n') < target && IsNear(target - c0 - Retired(g, s0, n'), margins)
  }

  lemma SoundRound<S>(g: Guest<S>, s0: S, c0: nat, v: Vcpu<S>, stepping: bool, target: nat, margins: Margins, p: Pick,
                      n: nat)
    returns (n': nat)
    requires Ready(v, stepping) && OnPath(g, s0, c0, v, n) && Sound(p)
    requires (stepping ==> IsNear(target - v.retired, margins))
    ensures RoundOff(g, s0, c0, target, margins, n, LandRound(g, v, stepping, target, margins, p), n') == true
  {
    n' := n;
    if v.retired < target {
      if stepping {
        n' := StepOnPath(g, s0, c0, v, n, p);
      } else if IsFar(v.retired, target, margins) {
        n' := FarOnPath(g, s0, c0, v.(period := target - v.retired - margins.skidMargin), n, p);
      } else {
        n' := StepOnPath(g, s0, c0, SetSingleStep(v.(period := NEVER_FIRES_PERIOD), true), n, p);
      }
    }
  }

  lemma {:induction false} SoundLand<S>(g: Guest<S>, s0: S, c0: nat, v: Vcpu<S>, stepping: bool, target: nat,
                                        margins: Margins, env: Schedule, n: nat)
    requires Ready(v, stepping) && OnPath(g, s0, c0, v, n) && AllSound(env)
    requires (stepping ==> IsNear(target - v.retired, margins))
    requires NoRefusalNear(g, s0, target - c0, margins)
    ensures var l := Land(g, v, stepping, target, margins, env);
            l.v.debugEnabled ==> l.r.Err? && l.r.error.InFlight?
    decreases |env|
  {
    if |env| > 0 {
      var p, rest := env[0], env[1..];
      assert p in env && forall q :: q in rest ==> q in env;
      KeepsRound(g, v, stepping, target, margins, p);
      var n' := SoundRound(g, s0, c0, v, stepping, target, margins, p, n);
      var round := LandRound(g, v, stepping, target, margins, p);
      if round.Again? { SoundLand(g, s0, c0, round.v, round.stepping, target, margins, rest, n'); }
    }
  }

  /** One micro-step, no skid, and nothing fails. */
  const ONE := Pick(1, 0, false, false, false, false, false, false, false)

  /** A host that kicks after every micro-step goes from one micro-state to the next, and has single-step on
      at a refused exit near the target. */
  lemma WalkOne<S>(g: Guest<S>, s0: S, c0: nat, v: Vcpu<S>, stepping: bool, target: nat, margins: Margins, n: nat)
    requires Ready(v, stepping) && OnPath(g, s0, c0, v, n) && v.retired < target
    ensures var round := LandRound(g, v, stepping, target, margins, ONE);
            && (Unrefused(g, s0, n + 1) ==> round.Again? && OnPath(g, s0, c0, round.v, n + 1))
            && (FirstRefusal(g, s0, n) && IsNear(target - v.retired, margins) ==>
                 round.Done? && round.v.debugEnabled && round.r.Err? && round.r.error.Refused?)
  {
    var n';
    if stepping {
      n' := StepOnPath(g, s0, c0, v, n, ONE);
    } else if IsFar(v.retired, target, margins) {
      n' := FarOnPath(g, s0, c0, v.(period := target - v.retired - margins.skidMargin), n, ONE);
    } else {
      n' := StepOnPath(g, s0, c0, SetSingleStep(v.(period := NEVER_FIRES_PERIOD), true), n, ONE);
    }
    assert FirstRefusal(g, s0, n) ==> !Unrefused(g, s0, n + 1);
  }

  lemma {:induction false} WalkUp<S>(g: Guest<S>, s0: S, c0: nat, v: Vcpu<S>, stepping: bool, target: nat,
                                     margins: Margins, n: nat, m: nat)
    returns (env: Schedule)
    requires Ready(v, stepping) && OnPath(g, s0, c0, v, n) && n <= m && FirstRefusal(g, s0, m)
    requires c0 + Retired(g, s0, m) < target && IsNear(target - c0 - Retired(g, s0, m), margins)
    ensures AllSound(env)
    ensures var l := Land(g, v, stepping, target, margins, env); l.v.debugEnabled && l.r.Err? && l.r.error.Refused?
    decreases m - n
  {
    IterAdd(g, s0, n, m - n);
    WalkOne(g, s0, c0, v, stepping, target, margins, n);
    env := [ONE];
    if n < m {
      KeepsRound(g, v, stepping, target, margins, ONE);
      var round := LandRound(g, v, stepping, target, margins, ONE);
      var rest := WalkUp(g, s0, c0, round.v, round.stepping, target, margins, n + 1, m);
      env := [ONE] + rest;
      assert env[0] == ONE && env[1..] == rest;
    }
  }

  /** Single-step is off whenever a landing returns, under every schedule in which no call fails, if and
      only if the guest takes no exit that the handler refuses within the margins of the target. */
  lemma OffExactly<S>(g: Guest<S>, v: Vcpu<S>, target: nat, margins: Margins)
    requires !v.debugEnabled && v.pending.None?
    ensures (forall env: Schedule :: AllSound(env) ==>
              var l := Land(g, v, false, target, margins, env);
              l.v.debugEnabled ==> l.r.Err? && l.r.error.InFlight?)
            <==> NoRefusalNear(g, v.state, target - v.retired, margins)
  {
    if NoRefusalNear(g, v.state, target - v.retired, margins) {
      forall env: Schedule | AllSound(env)
        ensures var l := Land(g, v, false, target, margins, env); l.v.debugEnabled ==> l.r.Err? && l.r.error.InFlight?
      {
        SoundLand(g, v.state, v.retired, v, false, target, margins, env, 0);
      }
    } else {
      var m: nat :| FirstRefusal(g, v.state, m) && Retired(g, v.state, m) < target - v.retired
                    && IsNear(target - v.retired - Retired(g, v.state, m), margins);
      var env := WalkUp(g, v.state, v.retired, v, false, target, margins, 0, m);
    }
  }

  // ---- land_at ------------------------------------------------------------------------------------

  /** Every failure names a call that failed. */
  ghost predicate Blamed(r: Result<Stop, LandError>, env: Schedule)
  {
    match r
    case Err(CounterFault) => exists p :: p in env && (p.readFault || p.armFault)
    case Err(RunFault) => exists p :: p in env && p.runFault
    case Err(RegsFault) => exists p :: p in env && p.regsFault
    case Err(DebugFault) => exists p :: p in env && (p.debugFault || p.dropFault)
    case _ => true
  }

  lemma {:induction false} BlamesLand<S>(g: Guest<S>, v: Vcpu<S>, stepping: bool, target: nat, margins: Margins,
                                         env: Schedule)
    requires Ready(v, stepping)
    ensures Blamed(Land(g, v, stepping, target, margins, env).r, env)
    decreases |env|
  {
    if |env| > 0 {
      var p, rest := env[0], env[1..];
      assert p in env && forall q :: q in rest ==> q in env;
      KeepsRound(g, v, stepping, target, margins, p);
      var round := LandRound(g, v, stepping, target, margins, p);
      if round.Again? { BlamesLand(g, round.v, round.stepping, target, margins, rest); }
    }
  }

  /** Nor is an exit refused that no handler refuses. */
  lemma {:induction false} NeverRefused<S(!new)>(g: Guest<S>, v: Vcpu<S>, stepping: bool, target: nat, margins: Margins,
                                                 env: Schedule)
    requires Ready(v, stepping) && forall s: S :: g.refuses(s).None?
    ensures var l := Land(g, v, stepping, target, margins, env); l.r.Err? ==> !l.r.error.Refused?
    decreases |env|
  {
    if |env| > 0 {
      KeepsRound(g, v, stepping, target, margins, env[0]);
      var round := LandRound(g, v, stepping, target, margins, env[0]);
      if round.Again? { NeverRefused(g, round.v, round.stepping, target, margins, env[1..]); }
    }
  }

  /** What a calm landing promises. */
  ghost predicate CalmPromise<S>(g: Guest<S>, v: Vcpu<S>, target: nat, env: Schedule, l: Approach<S>)
  {
    && (l.r.Ok? ==> IsBoundary(g, v.state, target - v.retired, l.v.state))
    && (l.r.Err? ==> !l.r.error.Overshoot?)
    && (l.r.Err? && l.r.error.InFlight? && Productive(env) ==> NoLandingBefore(g, v.state, target - v.retired, |env|))
  }

  lemma CalmFacts<S>(g: Guest<S>, v: Vcpu<S>, target: nat, margins: Margins, env: Schedule)
    requires !v.debugEnabled && Calm(v, margins, env) && v.retired <= target
    ensures CalmPromise(g, v, target, env, Land(g, v, false, target, margins, env))
  {
    StartOnTrack(g, v, target);
    var m := CalmLand(g, v.state, v.retired, v, false, target, margins, env, 0);
    CalmEnd(g, v.state, v.retired, target, env, Land(g, v, false, target, margins, env), m);
  }

  lemma CalmEnd<S>(g: Guest<S>, s: S, c: nat, target: nat, env: Schedule, l: Approach<S>, m: nat)
    requires LandOnTrack(g, s, c, target, 0, env, l, m)
    ensures l.r.Ok? ==> IsBoundary(g, s, target - c, l.v.state)
    ensures l.r.Err? && l.r.error.InFlight? && Productive(env) ==> NoLandingBefore(g, s, target - c, |env|)
  {
    if l.r.Err? && l.r.error.InFlight? { PassedLanding(g, s, c, target, l.v, m); }
  }

  function Prefixed<S>(entries: seq<Entry>, l: Approach<S>): Approach<S>
  {
    l.(entries := entries + l.entries)
  }

  /** The first round, and the others. */
  lemma LandUnrolls<S>(g: Guest<S>, v: Vcpu<S>, stepping: bool, target: nat, margins: Margins, env: Schedule)
    requires Ready(v, stepping) && |env| > 0
    ensures var round := LandRound(g, v, stepping, target, margins, env[0]);
            var l := Land(g, v, stepping, target, margins, env);
            if round.Done? then l == Approach(round.v, round.r, env[1..], round.entries)
            else && Ready(round.v, round.stepping)
                 && l == Prefixed(round.entries, Land(g, round.v, round.stepping, target, margins, env[1..]))
  {
    KeepsRound(g, v, stepping, target, margins, env[0]);
  }

  lemma PrefixedTwice<S>(a: seq<Entry>, b: seq<Entry>, l: Approach<S>)
    ensures Prefixed(a, Prefixed(b, l)) == Prefixed(a + b, l)
  {
    assert a + (b + l.entries) == (a + b) + l.entries;
  }

  lemma PrefixedNone<S>(l: Approach<S>)
    ensures Prefixed([], l) == l
  {
    assert [] + l.entries == l.entries;
  }

  /** The loop of `land_at`. */
  method LandLoop<S>(g: Guest<S>, v0: Vcpu<S>, target: nat, margins: Margins, env0: Schedule)
    returns (v: Vcpu<S>, r: Result<Stop, LandError>, env: Schedule, entries: seq<Entry>)
    requires !v0.debugEnabled
    ensures Approach(v, r, env, entries) == Land(g, v0, false, target, margins, env0)
  {
    v, env, entries := v0, env0, [];
    var stepping := false;
    ghost var whole := Land(g, v0, false, target, margins, env0);
    PrefixedNone(whole);
    while |env| > 0
      invariant Ready(v, stepping)
      invariant whole == Prefixed(entries, Land(g, v, stepping, target, margins, env))
      decreases |env|
    {
      var round := LandRound(g, v, stepping, target, margins, env[0]);
      LandUnrolls(g, v, stepping, target, margins, env);
      match round {
        case Done(w, end, last) => return w, end, env[1..], entries + last;
        case Again(w, on, entry) =>
          PrefixedTwice(entries, entry, Land(g, w, on, target, margins, env[1..]));
          v, stepping, entries, env := w, on, entries + entry, env[1..];
      }
    }
    return v, Err(InFlight), env, entries;
  }

  // ---- step_one_entry ------------------------------------------------------------------------------

  /** How one entry under single-step ends. */
  datatype Single<S> = Single(v: Vcpu<S>, r: Result<Stop, LandError>, env: Schedule)

  /** After the loop: single-step is dropped, also when the exit was refused, and then the boundary read. */
  function StepEnd<S>(g: Guest<S>, v: Vcpu<S>, p: Pick, e: Option<LandError>, env: Schedule): Single<S>
  {
    if p.dropFault then
      Single(v, Err(if e.Some? && e.value.Refused? then DroppedAfter(e.value.why) else DebugFault), env)
    else
      var w := SetSingleStep(v, false);
      if e.Some? then Single(w, Err(e.value), env)
      else if p.readFault then Single(w, Err(CounterFault), env)
      else if p.regsFault then Single(w, Err(RegsFault), env)
      else Single(w, Ok(Stop(w.retired, g.rip(w.state))), env)
  }

  function StepOn<S>(g: Guest<S>, v: Vcpu<S>, env: Schedule): (r: Single<S>)
    requires Armed(v)
    ensures |r.env| <= |env| && (r.r.Ok? ==> !r.v.debugEnabled && r.r.value.icount == r.v.retired)
    decreases |env|
  {
    if |env| == 0 then Single(v, Err(InFlight), env)
    else
      var p, rest := env[0], env[1..];
      var (w, x) := KvmRun(g, v, p);
      match x
      case Debugged => StepEnd(g, w, p, None, rest)
      case Failed => StepEnd(g, w, p, Some(RunFault), rest)
      case Kicked => StepOn(g, w, rest)
      case Exited =>
        var (u, e) := Service(g, w);
        if e.Some? then StepEnd(g, u, p, e, rest)
        else if p.debugFault then Single(u, Err(DebugFault), rest)
        else StepOn(g, SetSingleStep(u, true), rest)
  }

  function StepOne<S>(g: Guest<S>, v: Vcpu<S>, env: Schedule): (r: Single<S>)
    ensures |r.env| <= |env| && (r.r.Ok? ==> !r.v.debugEnabled && r.r.value.icount == r.v.retired)
  {
    if |env| == 0 then Single(v, Err(InFlight), env)
    else if env[0].debugFault then Single(v, Err(DebugFault), env[1..])
    else StepOn(g, SetSingleStep(v, true), env)
  }

  /** What one entry promises, whatever the host does. */
  ghost predicate StepKeeps<S>(g: Guest<S>, v: Vcpu<S>, env: Schedule, x: Single<S>)
  {
    && Rest(x.env, env) && x.v.retired >= v.retired
    && (x.v.debugEnabled ==> x.r.Err? && (x.r.error.DebugFault? || x.r.error.DroppedAfter? || x.r.error.InFlight?))
    && (x.r.Ok? ==> !x.v.debugEnabled && x.v.pending.None? && x.r.value == Stop(x.v.retired, g.rip(x.v.state)))
  }

  lemma {:induction false} KeepsStepOn<S>(g: Guest<S>, v: Vcpu<S>, env: Schedule)
    requires Armed(v)
    ensures StepKeeps(g, v, env, StepOn(g, v, env)) == true
    decreases |env|
  {
    if |env| > 0 {
      var p, rest := env[0], env[1..];
      assert forall q :: q in rest ==> q in env;
      var (w, x) := KvmRun(g, v, p);
      if x.Kicked? { KeepsStepOn(g, w, rest); }
      if x.Exited? {
        var (u, e) := Service(g, w);
        if e.None? && !p.debugFault { KeepsStepOn(g, SetSingleStep(u, true), rest); }
      }
    }
  }

  // ---- the engine ------------------------------------------------------------------------------------

  /** The boundary engine of one guest and one choice of margins, as its callers see it. */
  datatype Engine<!S> = Engine(land: (Vcpu<S>, nat, Schedule) -> Approach<S>, step: (Vcpu<S>, Schedule) -> Single<S>)

  function EngineOf<S>(g: Guest<S>, margins: Margins): Engine<S>
  {
    Engine((v: Vcpu<S>, target: nat, env: Schedule) =>
             if v.debugEnabled then Approach(v, Err(InFlight), env, []) else Land(g, v, false, target, margins, env),
           (v: Vcpu<S>, env: Schedule) => StepOne(g, v, env))
  }

  ghost predicate Runs<S(!new)>(e: Engine<S>, g: Guest<S>, margins: Margins)
  {
    && (forall v: Vcpu<S>, target: nat, env: Schedule {:trigger Land(g, v, false, target, margins, env)} ::
         !v.debugEnabled ==> e.land(v, target, env) == Land(g, v, false, target, margins, env))
    && (forall v: Vcpu<S>, env: Schedule {:trigger StepOne(g, v, env)} :: e.step(v, env) == StepOne(g, v, env))
  }

  lemma EngineRuns<S(!new)>(g: Guest<S>, margins: Margins)
    ensures Runs(EngineOf(g, margins), g, margins)
  {}

  /** What `land_at` promises, whatever the host does. */
  lemma EngineKeeps<S(!new)>(e: Engine<S>, g: Guest<S>, margins: Margins, v: Vcpu<S>, target: nat, env: Schedule)
    requires Runs(e, g, margins) && !v.debugEnabled
    ensures LandKeeps(g, v, false, target, env, e.land(v, target, env)) == true
    ensures Blamed(e.land(v, target, env).r, env)
  {
    KeepsLand(g, v, false, target, margins, env);
    BlamesLand(g, v, false, target, margins, env);
  }

  lemma EngineSteps<S(!new)>(e: Engine<S>, g: Guest<S>, margins: Margins, v: Vcpu<S>, env: Schedule)
    requires Runs(e, g, margins) && !v.debugEnabled
    ensures StepKeeps(g, v, env, e.step(v, env)) == true
  {
    assert e.step(v, env) == StepOne(g, v, env);
    if |env| > 0 && !env[0].debugFault { KeepsStepOn(g, SetSingleStep(v, true), env); }
  }

  lemma EngineCalm<S(!new)>(e: Engine<S>, g: Guest<S>, margins: Margins, v: Vcpu<S>, target: nat, env: Schedule)
    requires Runs(e, g, margins) && !v.debugEnabled && Calm(v, margins, env) && v.retired <= target
    ensures CalmPromise(g, v, target, env, e.land(v, target, env)) == true
  {
    CalmFacts(g, v, target, margins, env);
  }

  /** A calm landing ends at its landing, at the first refused exit before it, or in a fault. */
  lemma EngineTrack<S(!new)>(e: Engine<S>, g: Guest<S>, margins: Margins, v: Vcpu<S>, target: nat, env: Schedule)
    returns (m: nat)
    requires Runs(e, g, margins) && !v.debugEnabled && Calm(v, margins, env) && v.retired <= target
    ensures LandOnTrack(g, v.state, v.retired, target, 0, env, e.land(v, target, env), m) == true
  {
    StartOnTrack(g, v, target);
    m := CalmLand(g, v.state, v.retired, v, false, target, margins, env, 0);
  }

  lemma EngineLands<S(!new)>(e: Engine<S>, g: Guest<S>, margins: Margins, v: Vcpu<S>, target: nat, env: Schedule,
                             n: nat)
    requires Runs(e, g, margins) && !v.debugEnabled && CanLand(g, v, target, margins, env, n)
    ensures LandsAt(g, v, target, margins, env, n, e.land(v, target, env)) == true
  {
    LandsOk(g, v, target, margins, env, n);
  }

  lemma EngineRefused<S(!new)>(e: Engine<S>, g: Guest<S>, margins: Margins, v: Vcpu<S>, target: nat, env: Schedule,
                               n: nat)
    requires Runs(e, g, margins) && !v.debugEnabled && WillRefuse(g, v, target, margins, env, n)
    ensures StopsAt(g, v, env, n, e.land(v, target, env)) == true
  {
    LandsRefused(g, v, target, margins, env, n);
  }

  /** `land_at`. */
  method LandAt<S(!new)>(g: Guest<S>, v0: Vcpu<S>, target: nat, margins: Margins, env0: Schedule,
                         ghost engine: Engine<S>)
    returns (v: Vcpu<S>, r: Result<Stop, LandError>, env: Schedule, entries: seq<Entry>)
    requires !v0.debugEnabled && Runs(engine, g, margins)
    ensures Approach(v, r, env, entries) == engine.land(v0, target, env0)
    // Ok is exact, whatever the skid; overshoot is loud and never absorbed.
    ensures r.Ok? ==> v.retired == target && r.value == Stop(target, g.rip(v.state))
    ensures r.Err? && r.error.Overshoot? ==> v.retired > target && r.error.counted == v.retired
    ensures v0.retired > target ==> v == v0 && r.Err? && (r.error.Overshoot? || SkipsCleanup(r.error))
    // Any other error names a call that failed, or an exit that was refused.
    ensures Blamed(r, env0) && v.retired >= v0.retired
    ensures (forall s: S :: g.refuses(s).None?) ==> !(r.Err? && r.error.Refused?)
    // Single-step is in force at every stepping entry.
    ensures InForce(entries, v0.pending.None?)
    // It is left on exactly by the results that bypass the cleanup after a stepping entry; see `OffExactly`.
    ensures v.debugEnabled <==> r.Err? && SkipsCleanup(r.error) && EndedStepping(entries)
    // Margin independence: a calm landing ends at the first state with `target` retirements, or in
    // a fault; it never overshoots.
    ensures Calm(v0, margins, env0) && r.Ok? ==> IsBoundary(g, v0.state, target - v0.retired, v.state)
    ensures Calm(v0, margins, env0) && v0.retired <= target && r.Err? ==> !r.error.Overshoot?
    ensures v0.pending.None? ==> v.pending.None?
    // Progress: on a schedule whose entries all run, the landing ends within as many rounds as there
    // are micro-steps on the way; if also no call fails, it succeeds unless an exit on the way is refused.
    ensures r.Err? && r.error.InFlight? && Calm(v0, margins, env0) && Productive(env0) && v0.retired <= target ==>
              NoLandingBefore(g, v0.state, target - v0.retired, |env0|)
    ensures (exists n: nat :: CanLand(g, v0, target, margins, env0, n)) ==> r.Ok? && !v.debugEnabled
    ensures (exists n: nat :: WillRefuse(g, v0, target, margins, env0, n)) ==> r.Err? && r.error.Refused?
    ensures Rest(env, env0)
  {
    v, r, env, entries := LandLoop(g, v0, target, margins, env0);
    KeepsLand(g, v0, false, target, margins, env0);
    BlamesLand(g, v0, false, target, margins, env0);
    if forall s: S :: g.refuses(s).None? { NeverRefused(g, v0, false, target, margins, env0); }
    if Calm(v0, margins, env0) && v0.retired <= target { CalmFacts(g, v0, target, margins, env0); }
    forall n: nat | CanLand(g, v0, target, margins, env0, n) ensures r.Ok? && !v.debugEnabled {
      LandsOk(g, v0, target, margins, env0, n);
    }
    forall n: nat | WillRefuse(g, v0, target, margins, env0, n) ensures r.Err? && r.error.Refused? {
      LandsRefused(g, v0, target, margins, env0, n);
    }
  }

  /** Two landings of the same target from the same state, under any margins and any schedules of
      kicks, skids and exits, leave the guest in the same state. */
  method LandTwice<S(!new)>(g: Guest<S>, v: Vcpu<S>, target: nat, m1: Margins, m2: Margins, e1: Schedule, e2: Schedule)
    returns (v1: Vcpu<S>, r1: Result<Stop, LandError>, v2: Vcpu<S>, r2: Result<Stop, LandError>)
    requires !v.debugEnabled && Calm(v, m1, e1) && Calm(v, m2, e2)
    ensures (exists n: nat :: CanLand(g, v, target, m1, e1, n)) &&
            (exists n: nat :: CanLand(g, v, target, m2, e2, n)) ==>
              r1.Ok? && r2.Ok?
    ensures r1.Ok? && r2.Ok? ==> r1 == r2 && v1.state == v2.state && v1.retired == v2.retired
  {
    var env, entries;
    EngineRuns(g, m1);
    v1, r1, env, entries := LandAt(g, v, target, m1, e1, EngineOf(g, m1));
    EngineRuns(g, m2);
    v2, r2, env, entries := LandAt(g, v, target, m2, e2, EngineOf(g, m2));
    if r1.Ok? && r2.Ok? {
      BoundaryUnique(g, v.state, target - v.retired, v1.state, v2.state);
    }
  }

  /** Without a pending vector one entry moves on along the guest's own path, by one retirement at most. */
  lemma {:induction false} StepOnMoves<S>(g: Guest<S>, s0: S, v: Vcpu<S>, n: nat, env: Schedule) returns (m: nat)
    requires Armed(v) && v.pending.None? && v.state == Iter(g, s0, n)
    ensures var x := StepOn(g, v, env);
            && x.v.pending.None? && x.v.retired <= v.retired + 1
            && (x.r.Ok? ==>
                  && m > n && x.v.state == Iter(g, s0, m)
                  && x.v.retired - v.retired == Retired(g, s0, m) - Retired(g, s0, n))
    decreases |env|
  {
    m := n + 1;
    if |env| > 0 {
      var p, rest := env[0], env[1..];
      StepOnce(g, s0, v, n, p);
      var (w, x) := KvmRun(g, v, p);
      if x.Kicked? { m := StepOnMoves(g, s0, w, n, rest); }
      if x.Exited? {
        var (u, e) := Service(g, w);
        if e.None? && !p.debugFault { m := StepOnMoves(g, s0, SetSingleStep(u, true), n + 1, rest); }
      }
    }
  }

  lemma StepOneMoves<S>(g: Guest<S>, v: Vcpu<S>, env: Schedule)
    requires v.pending.None?
    ensures var x := StepOne(g, v, env);
            && x.v.pending.None? && x.v.retired <= v.retired + 1
            && (x.r.Ok? ==>
                  exists n: nat ::
                    n > 0 && x.v.state == Iter(g, v.state, n) && x.v.retired == v.retired + Retired(g, v.state, n))
  {
    if |env| > 0 && !env[0].debugFault { var m := StepOnMoves(g, v.state, SetSingleStep(v, true), 0, env); }
  }

  /** `step_one_entry`: enter under single-step and return at the first debug trap. Unlike `LandAt`,
      a refused exit leaves through the cleanup. */
  method StepOneEntry<S(!new)>(g: Guest<S>, v0: Vcpu<S>, env0: Schedule, ghost margins: Margins,
                               ghost engine: Engine<S>)
    returns (v: Vcpu<S>, r: Result<Stop, LandError>, env: Schedule)
    requires !v0.debugEnabled && Runs(engine, g, margins)
    ensures Single(v, r, env) == engine.step(v0, env0)
    ensures v.retired >= v0.retired
    ensures r.Ok? ==> r.value == Stop(v.retired, g.rip(v.state)) && v.pending.None?
    ensures v.debugEnabled ==> r.Err? && (r.error.DebugFault? || r.error.DroppedAfter? || r.error.InFlight?)
    ensures v0.pending.None? ==> v.pending.None? && v.retired <= v0.retired + 1
    ensures v0.pending.None? && r.Ok? ==>
              exists n: nat ::
                n > 0 && v.state == Iter(g, v0.state, n) && v.retired == v0.retired + Retired(g, v0.state, n)
    ensures Rest(env, env0)
  {
    v, r, env := StepLoop(g, v0, env0);
    EngineSteps(engine, g, margins, v0, env0);
    if v0.pending.None? { StepOneMoves(g, v0, env0); }
  }

  /** The loop of `step_one_entry`. */
  method StepLoop<S>(g: Guest<S>, v0: Vcpu<S>, env0: Schedule) returns (v: Vcpu<S>, r: Result<Stop, LandError>,
                                                                        env: Schedule)
    ensures Single(v, r, env) == StepOne(g, v0, env0)
  {
    v, env := v0, env0;
    if |env| == 0 { return v, Err(InFlight), env; }
    if env[0].debugFault { return v, Err(DebugFault), env[1..]; }
    v := SetSingleStep(v, true);
    while |env| > 0
      invariant Armed(v) && StepOne(g, v0, env0) == StepOn(g, v, env)
      decreases |env|
    {
      var p := env[0];
      env := env[1..];
      var run := KvmRun(g, v, p);
      v := run.0;
      var error := None;
      match run.1 {
        case Debugged =>
        case Failed => error := Some(RunFault);
        case Kicked => continue;
        case Exited =>
          var (served, refused) := Service(g, v);
          v, error := served, refused;
          if error.None? {
            if p.debugFault { return v, Err(DebugFault), env; }
            v := SetSingleStep(v, true);
            continue;
          }
      }
      if p.dropFault {
        return v, Err(if error.Some? && error.value.Refused? then DroppedAfter(error.value.why) else DebugFault), env;
      }
      v := SetSingleStep(v, false);
      if error.Some? { return v, Err(error.value), env; }
      if p.readFault { return v, Err(CounterFault), env; }
      if p.regsFault { return v, Err(RegsFault), env; }
      return v, Ok(Stop(v.retired, g.rip(v.state))), env;
    }
    return v, Err(InFlight), env;
  }

  /** An armed entry without a pending vector is one micro-step further along the guest's own path. */
  lemma StepOnce<S>(g: Guest<S>, s0: S, v: Vcpu<S>, n: nat, p: Pick)
    requires Armed(v) && v.pending.None? && v.state == Iter(g, s0, n)
    ensures var (w, x) := KvmRun(g, v, p);
            && (x.Debugged? ==>
                  && w.state == Iter(g, s0, n + 1)
                  && w.retired - v.retired == Retired(g, s0, n + 1) - Retired(g, s0, n) <= 1)
            && (x.Exited? ==>
                  && g.step(w.state) == Iter(g, s0, n + 1) && w.retired == v.retired
                  && Retired(g, s0, n + 1) == Retired(g, s0, n))
            && (x.Kicked? ==> w == v)
  {
    IterAdd(g, s0, n, 1);
    assert Iter(g, v.state, 1) == g.step(v.state);
    assert Retired(g, v.state, 1) == Ticks(g, v.state);
    var f := Advance(g, v.state, 1, 1);
    assert f.steps == 0 || f.steps == 1;
  }

  // ---- a schedule that leaves single-step on --------------------------------------------------------

  /** A guest whose first micro-state is a terminal halt. */
  function HaltsAtOnce(): Guest<int>
  {
    Guest((s: int) => Exit, (s: int) => s + 1, (s: int) => Some(Halted), (s: int) => false,
          (s: int, x: byte) => s, (s: int) => 0, (s: int) => 0)
  }

  lemma LeftOn()
    ensures var l := Land(HaltsAtOnce(), Vcpu(0, 0, None, false, false, 0), false, 1, Margins(1, 0), [ONE]);
            l.r == Err(Refused(Halted)) && l.v.debugEnabled
  {
    var g, v := HaltsAtOnce(), Vcpu(0, 0, None, true, true, NEVER_FIRES_PERIOD);
    assert KvmRun(g, v, ONE) == (v, Exited);
  }
}
