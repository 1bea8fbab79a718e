/** The guest as run control sees it: a deterministic machine of micro-steps, of which only some
    retire an instruction. REP iterations and serviced exits are micro-steps that do not. */
module Machine {
  import opened Common

  datatype Micro = Retire | RepIteration | Exit

  /** Why the exit wrapper unwinds a flight instead of returning to the guest. */
  datatype Refusal = Halted | FrameSinkStop | EventStop | Fault

  /** `step` of an `Exit` state includes the servicing of that exit by the host's handler;
      `refuses` is the handler's error, if it returns one. `open` is injectability. */
  datatype Guest<!S> = Guest(
    kind: S -> Micro,
    step: S -> S,
    refuses: S -> Option<Refusal>,
    open: S -> bool,
    deliver: (S, byte) -> S,
    isr: S -> nat,
    rip: S -> u64)

  function Ticks<S>(g: Guest<S>, s: S): nat
  {
    if g.kind(s).Retire? then 1 else 0
  }

  /** The state after `n` micro-steps. */
  function Iter<S>(g: Guest<S>, s: S, n: nat): S
    decreases n
  {
    if n == 0 then s else Iter(g, g.step(s), n - 1)
  }

  /** Instructions retired by the first `n` micro-steps. */
  function Retired<S>(g: Guest<S>, s: S, n: nat): nat
    decreases n
  {
    if n == 0 then 0 else Ticks(g, s) + Retired(g, g.step(s), n - 1)
  }

  /** `n` micro-steps from `s` is the first moment at which `k` instructions have retired. */
  ghost predicate IsLanding<S>(g: Guest<S>, s: S, n: nat, k: int)
  {
    Retired(g, s, n) == k && (n == 0 || g.kind(Iter(g, s, n - 1)).Retire?)
  }

  /** `t` is the state at the `k`-th instruction boundary after `s`. */
  ghost predicate IsBoundary<S>(g: Guest<S>, s: S, k: int, t: S)
  {
    exists n: nat :: IsLanding(g, s, n, k) && t == Iter(g, s, n)
  }

  lemma {:induction false} IterAdd<S>(g: Guest<S>, s: S, a: nat, b: nat)
    ensures Iter(g, s, a + b) == Iter(g, Iter(g, s, a), b)
    ensures Retired(g, s, a + b) == Retired(g, s, a) + Retired(g, Iter(g, s, a), b)
    decreases a
  {
    if a > 0 { IterAdd(g, g.step(s), a - 1, b); }
  }

  lemma LandingUnique<S>(g: Guest<S>, s: S, n: nat, m: nat, k: int)
    requires IsLanding(g, s, n, k) && IsLanding(g, s, m, k)
    ensures n == m
  {
    if n < m {
      NoEarlierLanding(g, s, n, m);
    } else if m < n {
      NoEarlierLanding(g, s, m, n);
    }
  }

  /** A micro-step count that ends in a retirement has strictly more retirements than any smaller one. */
  lemma NoEarlierLanding<S>(g: Guest<S>, s: S, n: nat, m: nat)
    requires n < m && g.kind(Iter(g, s, m - 1)).Retire?
    ensures Retired(g, s, n) < Retired(g, s, m)
  {
    IterAdd(g, s, m - 1, 1);
    IterAdd(g, s, n, m - 1 - n);
    assert Retired(g, Iter(g, s, m - 1), 1) == 1;
  }

  lemma BoundaryUnique<S>(g: Guest<S>, s: S, k: int, t: S, u: S)
    requires IsBoundary(g, s, k, t) && IsBoundary(g, s, k, u)
    ensures t == u
  {
    var n: nat :| IsLanding(g, s, n, k) && t == Iter(g, s, n);
    var m: nat :| IsLanding(g, s, m, k) && u == Iter(g, s, m);
    LandingUnique(g, s, n, m, k);
  }

  /** Landing in two hops is landing in one: an extra stop on the way changes nothing. */
  lemma BoundaryCompose<S>(g: Guest<S>, s: S, j: int, t: S, k: int, u: S)
    requires IsBoundary(g, s, j, t) && IsBoundary(g, t, k, u)
    ensures IsBoundary(g, s, j + k, u)
  {
    var n: nat :| IsLanding(g, s, n, j) && t == Iter(g, s, n);
    var m: nat :| IsLanding(g, t, m, k) && u == Iter(g, t, m);
    IterAdd(g, s, n, m);
    if m > 0 { IterAdd(g, s, n, m - 1); }
    assert IsLanding(g, s, n + m, j + k);
  }

  lemma BoundarySelf<S>(g: Guest<S>, s: S)
    ensures IsBoundary(g, s, 0, s)
  {
    assert IsLanding(g, s, 0, 0);
  }
}
