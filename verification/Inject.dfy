/** Deterministic interrupt injection: deliver a vector at the first injectable boundary
    (crates/dh-vmm/src/inject.rs). */
module Inject {
  import opened Common
  import opened Machine
  import opened Boundary

  datatype Injection = Injection(vector: byte, requested: nat, delivered: nat, rip: u64)

  datatype InjectError =
    | Landing(error: LandError)
    | KvmFault
    | WindowNeverOpened(stepped: nat)
    | BadVector(vector: byte)

  /** None of the first `n` boundaries starting at `s` is injectable. */
  ghost predicate ClosedFor<S>(g: Guest<S>, s: S, n: nat)
  {
    forall j: nat, m: nat :: j < n && IsLanding(g, s, m, j) ==> !g.open(Iter(g, s, m))
  }

  /** `t` is the first injectable boundary at or after `s`, `k` boundaries further on. */
  ghost predicate FirstOpen<S>(g: Guest<S>, s: S, k: nat, t: S)
  {
    IsBoundary(g, s, k, t) && g.open(t) && ClosedFor(g, s, k)
  }

  lemma ClosedOneMore<S>(g: Guest<S>, s: S, k: nat, t: S)
    requires ClosedFor(g, s, k) && IsBoundary(g, s, k, t) && !g.open(t)
    ensures ClosedFor(g, s, k + 1)
  {
    forall j: nat, m: nat | j < k + 1 && IsLanding(g, s, m, j) ensures !g.open(Iter(g, s, m)) {
      if j == k { BoundaryUnique(g, s, k, t, Iter(g, s, m)); }
    }
  }

  /** How an injection ends. */
  datatype Injected<S> = Injected(v: Vcpu<S>, r: Result<Injection, InjectError>, env: Schedule)

  /** The deferral loop from the boundary `at`, `stepped` boundaries past `from`: one pick to ask whether the
      guest is injectable there, and then either the vector or a landing one instruction on. */
  function InjectFrom<S>(engine: Engine<S>, g: Guest<S>, v: Vcpu<S>, vector: byte, from: nat, at: Stop, stepped: nat,
                         maxDefer: nat, env: Schedule): Injected<S>
    requires stepped <= maxDefer
    decreases maxDefer - stepped
  {
    if |env| == 0 then Injected(v, Err(Landing(InFlight)), env)
    else
      var p, rest := env[0], env[1..];
      if p.regsFault then Injected(v, Err(KvmFault), rest)
      else if g.open(v.state) then
        if vector < 32 then Injected(v, Err(BadVector(vector)), rest)
        else if p.runFault then Injected(v, Err(KvmFault), rest)
        else Injected(v.(pending := Some(vector)), Ok(Injection(vector, from, at.icount, at.rip)), rest)
      else if stepped == maxDefer then Injected(v, Err(WindowNeverOpened(stepped)), rest)
      else
        var l := engine.land(v, at.icount + 1, rest);
        if l.r.Err? then Injected(l.v, Err(Landing(l.r.error)), l.env)
        else InjectFrom(engine, g, l.v, vector, from, l.r.value, stepped + 1, maxDefer, l.env)
  }

  // ---- the window opens ------------------------------------------------------------------------------

  /** The first retirement on the way to the `k`-th. */
  lemma {:induction false} FirstRetirement<S>(g: Guest<S>, s: S, n: nat, k: nat) returns (m: nat)
    requires IsLanding(g, s, n, k) && k > 0
    ensures 0 < m <= n && IsLanding(g, s, m, 1) && IsLanding(g, Iter(g, s, m), n - m, k - 1)
  {
    if g.kind(s).Retire? {
      m := 1;
      assert Retired(g, s, 1) == 1;
      IterAdd(g, s, 1, n - 1);
      if n > 1 { IterAdd(g, s, 1, n - 2); }
    } else {
      assert n > 1;
      m := FirstRetirement(g, g.step(s), n - 1, k);
      m := m + 1;
    }
  }

  lemma LaterBoundary<S>(g: Guest<S>, s: S, m: nat, k: nat)
    requires ClosedFor(g, s, k) && k > 0 && IsLanding(g, s, m, 1)
    ensures ClosedFor(g, Iter(g, s, m), k - 1)
  {
    var t := Iter(g, s, m);
    forall j: nat, i: nat | j < k - 1 && IsLanding(g, t, i, j) ensures !g.open(Iter(g, t, i)) {
      IterAdd(g, s, m, i);
      if i > 0 { IterAdd(g, s, m, i - 1); }
      assert IsLanding(g, s, m + i, j + 1);
    }
  }

  lemma TailUnrefused<S>(g: Guest<S>, s: S, m: nat, n: nat)
    requires m <= n && Unrefused(g, s, n)
    ensures Unrefused(g, s, m) && Unrefused(g, Iter(g, s, m), n - m)
  {
    forall j: nat | j < n - m && g.kind(Iter(g, Iter(g, s, m), j)).Exit?
      ensures g.refuses(Iter(g, Iter(g, s, m), j)).None?
    {
      IterAdd(g, s, m, j);
    }
  }

  /** The window opens at the `k`-th boundary, micro-state `n`, and the schedule suffices to get there: two
      picks per boundary and one per micro-step. */
  ghost predicate CanInject<S>(g: Guest<S>, v: Vcpu<S>, vector: byte, margins: Margins, maxDefer: nat, env: Schedule,
                               k: nat, n: nat)
  {
    && vector >= 32 && k <= maxDefer && Smooth(v, margins, env) && |env| > n + 2 * k
    && IsLanding(g, v.state, n, k) && Unrefused(g, v.state, n) && g.open(Iter(g, v.state, n))
       && ClosedFor(g, v.state, k)
  }

  lemma SmoothTail<S>(v: Vcpu<S>, margins: Margins, env: Schedule)
    requires Smooth(v, margins, env) && |env| > 0
    ensures Smooth(v, margins, env[1..]) && Sound(env[0])
  {
    assert env[0] in env && forall p :: p in env[1..] ==> p in env;
  }

  /** A window that opens within the deferral budget gets the vector. */
  lemma {:induction false} WindowOpens<S(!new)>(engine: Engine<S>, g: Guest<S>, v: Vcpu<S>, vector: byte, from: nat,
                                                at: Stop, stepped: nat, margins: Margins, maxDefer: nat, env: Schedule,
                                                k: nat, n: nat)
    requires Runs(engine, g, margins) && !v.debugEnabled && at.icount == v.retired && stepped <= maxDefer
    requires CanInject(g, v, vector, margins, maxDefer - stepped, env, k, n)
    ensures InjectFrom(engine, g, v, vector, from, at, stepped, maxDefer, env).r.Ok?
    decreases k
  {
    assert IsLanding(g, v.state, 0, 0);
    SmoothTail(v, margins, env);
    if k == 0 {
      LandingUnique(g, v.state, 0, n, 0);
    } else {
      assert !g.open(Iter(g, v.state, 0));
      var m := FirstRetirement(g, v.state, n, k);
      IterAdd(g, v.state, m, n - m);
      LaterBoundary(g, v.state, m, k);
      TailUnrefused(g, v.state, m, n);
      EngineLands(engine, g, margins, v, at.icount + 1, env[1..], m);
      var l := engine.land(v, at.icount + 1, env[1..]);
      WindowOpens(engine, g, l.v, vector, from, l.r.value, stepped + 1, margins, maxDefer, l.env, k - 1, n - m);
    }
  }

  // ---- what every injection keeps ---------------------------------------------------------------------

  lemma EarlierBoundary<S>(g: Guest<S>, s: S, t: S, k: nat)
    requires IsBoundary(g, s, 1, t) && ClosedFor(g, t, k) && !g.open(s)
    ensures ClosedFor(g, s, k + 1)
  {
    var m: nat :| IsLanding(g, s, m, 1) && t == Iter(g, s, m);
    assert IsLanding(g, s, 0, 0);
    forall j: nat, i: nat | j < k + 1 && IsLanding(g, s, i, j) ensures !g.open(Iter(g, s, i)) {
      if j == 0 {
        LandingUnique(g, s, 0, i, 0);
      } else {
        var m' := FirstRetirement(g, s, i, j);
        LandingUnique(g, s, m, m', 1);
        IterAdd(g, s, m, i - m);
        assert !g.open(Iter(g, t, i - m));
      }
    }
  }

  ghost predicate InjectKeeps<S>(g: Guest<S>, v: Vcpu<S>, vector: byte, from: nat, at: Stop, left: nat, env: Schedule,
                                 x: Injected<S>)
  {
    && Rest(x.env, env) && x.v.retired >= v.retired
    && (x.v.debugEnabled ==> x.r.Err? && x.r.error.Landing? && SkipsCleanup(x.r.error.error))
    && match x.r
       case Ok(inj) =>
         && vector >= 32 && x.v.pending == Some(vector) && g.open(x.v.state)
            && v.retired <= x.v.retired <= v.retired + left
         && (x.v.retired == v.retired ==> x.v.state == v.state)
         && inj == Injection(vector, from, x.v.retired, if x.v.retired == v.retired then at.rip else g.rip(x.v.state))
       case Err(BadVector(_)) => vector < 32
       case Err(WindowNeverOpened(_)) => x.v.retired == v.retired + left
       case Err(_) => true
  }

  /** Where a calm injection ends. */
  ghost predicate InjectCalm<S>(g: Guest<S>, v: Vcpu<S>, left: nat, x: Injected<S>)
  {
    && (x.r.Ok? ==> v.retired <= x.v.retired && FirstOpen(g, v.state, x.v.retired - v.retired, x.v.state))
    && (x.r.Err? && x.r.error.WindowNeverOpened? ==>
          IsBoundary(g, v.state, left, x.v.state) && ClosedFor(g, v.state, left + 1))
  }

  lemma {:induction false} KeepsInject<S(!new)>(engine: Engine<S>, g: Guest<S>, v: Vcpu<S>, vector: byte, from: nat,
                                                at: Stop, stepped: nat, margins: Margins, maxDefer: nat, env: Schedule)
    requires Runs(engine, g, margins) && !v.debugEnabled && at.icount == v.retired && stepped <= maxDefer
    ensures var x := InjectFrom(engine, g, v, vector, from, at, stepped, maxDefer, env);
            && (InjectKeeps(g, v, vector, from, at, maxDefer - stepped, env, x) == true)
            && (x.r.Err? && x.r.error.WindowNeverOpened? ==> x.r.error.stepped == maxDefer)
    decreases maxDefer - stepped
  {
    if |env| > 0 && !env[0].regsFault && !g.open(v.state) && stepped < maxDefer {
      var rest := env[1..];
      assert forall p :: p in rest ==> p in env;
      EngineKeeps(engine, g, margins, v, at.icount + 1, rest);
      var l := engine.land(v, at.icount + 1, rest);
      if l.r.Ok? {
        KeepsInject(engine, g, l.v, vector, from, l.r.value, stepped + 1, margins, maxDefer, l.env);
      }
    }
  }

  /** A calm landing one instruction on. */
  lemma CalmDeferral<S(!new)>(engine: Engine<S>, g: Guest<S>, v: Vcpu<S>, margins: Margins,
                              env: Schedule) returns (l: Approach<S>)
    requires Runs(engine, g, margins) && !v.debugEnabled && Calm(v, margins, env) && |env| > 0
    ensures l == engine.land(v, v.retired + 1, env[1..])
    ensures l.r.Ok? ==>
              !l.v.debugEnabled && l.v.retired == v.retired + 1 == l.r.value.icount && Calm(l.v, margins, l.env)
    ensures l.r.Ok? ==> IsBoundary(g, v.state, 1, l.v.state)
  {
    var rest := env[1..];
    assert forall p :: p in rest ==> p in env;
    EngineKeeps(engine, g, margins, v, v.retired + 1, rest);
    EngineCalm(engine, g, margins, v, v.retired + 1, rest);
    l := engine.land(v, v.retired + 1, rest);
  }

  lemma {:induction false} CalmInject<S(!new)>(engine: Engine<S>, g: Guest<S>, v: Vcpu<S>, vector: byte, from: nat,
                                               at: Stop, stepped: nat, margins: Margins, maxDefer: nat, env: Schedule)
    requires Runs(engine, g, margins) && !v.debugEnabled && at.icount == v.retired && stepped <= maxDefer
    requires Calm(v, margins, env)
    ensures InjectCalm(g, v, maxDefer - stepped, InjectFrom(engine, g, v, vector, from, at, stepped, maxDefer,
                                                            env)) == true
    decreases maxDefer - stepped
  {
    BoundarySelf(g, v.state);
    if |env| > 0 && !env[0].regsFault && !g.open(v.state) {
      ClosedOneMore(g, v.state, 0, v.state);
      if stepped < maxDefer {
        var l := CalmDeferral(engine, g, v, margins, env);
        if l.r.Ok? {
          CalmInject(engine, g, l.v, vector, from, l.r.value, stepped + 1, margins, maxDefer, l.env);
          DeferredCalm(g, v, l.v, maxDefer - stepped, InjectFrom(engine, g, l.v, vector, from, l.r.value, stepped + 1,
                                                                 maxDefer, l.env));
        }
      }
    }
  }

  lemma DeferredCalm<S>(g: Guest<S>, v: Vcpu<S>, w: Vcpu<S>, left: nat, x: Injected<S>)
    requires left > 0 && !g.open(v.state) && w.retired == v.retired + 1 && IsBoundary(g, v.state, 1, w.state)
    requires InjectCalm(g, w, left - 1, x)
    ensures InjectCalm(g, v, left, x)
  {
    if x.r.Ok? {
      BoundaryCompose(g, v.state, 1, w.state, x.v.retired - w.retired, x.v.state);
      EarlierBoundary(g, v.state, w.state, x.v.retired - w.retired);
    } else if x.r.error.WindowNeverOpened? {
      BoundaryCompose(g, v.state, 1, w.state, left - 1, x.v.state);
      EarlierBoundary(g, v.state, w.state, left);
    }
  }

  /** `inject_at_boundary`. */
  method InjectAt<S(!new)>(g: Guest<S>, v0: Vcpu<S>, vector: byte, at: Stop, margins: Margins,
                           maxDefer: nat, env0: Schedule, ghost engine: Engine<S>)
    returns (v: Vcpu<S>, r: Result<Injection, InjectError>, env: Schedule)
    requires !v0.debugEnabled && at.icount == v0.retired && Runs(engine, g, margins)
    ensures Injected(v, r, env) == InjectFrom(engine, g, v0, vector, at.icount, at, 0, maxDefer, env0)
    ensures (exists k: nat, n: nat :: CanInject(g, v0, vector, margins, maxDefer, env0, k, n)) ==> r.Ok?
    ensures r.Ok? ==> vector >= 32 && v.pending == Some(vector) && !v.debugEnabled && g.open(v.state)
    ensures r.Ok? ==> r.value == Injection(vector, at.icount, v.retired,
                                           if v.retired == at.icount then at.rip else g.rip(v.state))
    ensures r.Ok? ==> at.icount <= v.retired <= at.icount + maxDefer
    ensures r.Err? && r.error.BadVector? ==> vector < 32
    ensures r.Err? && r.error.WindowNeverOpened? ==> r.error.stepped == maxDefer && v.retired == at.icount + maxDefer
    ensures Calm(v0, margins, env0) && r.Ok? ==> FirstOpen(g, v0.state, v.retired - at.icount, v.state)
    ensures Calm(v0, margins, env0) && r.Err? && r.error.WindowNeverOpened? ==>
              IsBoundary(g, v0.state, maxDefer, v.state) && ClosedFor(g, v0.state, maxDefer + 1)
    ensures v.debugEnabled ==> r.Err? && r.error.Landing? && SkipsCleanup(r.error.error)
    ensures Rest(env, env0)
  {
    v, r, env := InjectLoop(g, v0, vector, at, margins, maxDefer, env0, engine);
    KeepsInject(engine, g, v0, vector, at.icount, at, 0, margins, maxDefer, env0);
    if Calm(v0, margins, env0) { CalmInject(engine, g, v0, vector, at.icount, at, 0, margins, maxDefer, env0); }
    forall k: nat, n: nat | CanInject(g, v0, vector, margins, maxDefer, env0, k, n) ensures r.Ok? {
      WindowOpens(engine, g, v0, vector, at.icount, at, 0, margins, maxDefer, env0, k, n);
    }
  }

  /** The loop of `inject_at_boundary`. */
  method InjectLoop<S(!new)>(g: Guest<S>, v0: Vcpu<S>, vector: byte, at: Stop, margins: Margins, maxDefer: nat,
                             env0: Schedule, ghost engine: Engine<S>)
    returns (v: Vcpu<S>, r: Result<Injection, InjectError>, env: Schedule)
    requires !v0.debugEnabled && Runs(engine, g, margins)
    ensures Injected(v, r, env) == InjectFrom(engine, g, v0, vector, at.icount, at, 0, maxDefer, env0)
  {
    v, env := v0, env0;
    var current, stepped := at, 0;
    while |env| > 0
      invariant !v.debugEnabled && stepped <= maxDefer
      invariant InjectFrom(engine, g, v0, vector, at.icount, at, 0, maxDefer, env0)
                == InjectFrom(engine, g, v, vector, at.icount, current, stepped, maxDefer, env)
      decreases |env|
    {
      var p := env[0];
      env := env[1..];
      if p.regsFault { return v, Err(KvmFault), env; }
      if g.open(v.state) {
        if vector < 32 { return v, Err(BadVector(vector)), env; }
        if p.runFault { return v, Err(KvmFault), env; }
        return v.(pending := Some(vector)), Ok(Injection(vector, at.icount, current.icount, current.rip)), env;
      }
      if stepped >= maxDefer { return v, Err(WindowNeverOpened(stepped)), env; }
      var landed, entries;
      v, landed, env, entries := LandAt(g, v, current.icount + 1, margins, env, engine);
      if landed.Err? { return v, Err(Landing(landed.error)), env; }
      current, stepped := landed.value, stepped + 1;
    }
    return v, Err(Landing(InFlight)), env;
  }
}
