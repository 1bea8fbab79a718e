/** Virtual time is a fixed rational function of the instruction count
    (crates/dh-vmm/src/vt.rs, the timer rule of runctl.rs, crates/dh-devices/src/clock.rs). */
module VirtualTime {
  import opened Common

  datatype Ratio = Ratio(num: u32, den: u32)

  type ClockRatio = c: Ratio | c.num > 0 && c.den > 0 witness Ratio(1, 1)

  /** Exact virtual nanoseconds at an instruction count: truncating, before any width check. */
  function Floor(c: ClockRatio, icount: nat): nat
  {
    MulNonNegative(icount, c.num);
    icount * c.num / c.den
  }

  function CeilDiv(a: nat, b: nat): nat
    requires b > 0
  {
    a / b + (if a % b == 0 then 0 else 1)
  }

  /** `vns_from_icount` */
  function VnsFromIcount(c: ClockRatio, icount: u64): (r: Option<u64>)
  {
    var v := Floor(c, icount);
    if v <= U64_MAX then Some(v) else None
  }

  /** `icount_for_vns_target` */
  function IcountForVns(c: ClockRatio, vns: u64): (r: Option<u64>)
  {
    MulNonNegative(vns, c.den);
    var i := CeilDiv(vns * c.den, c.num);
    if i <= U64_MAX then Some(i) else None
  }

  /** The two conversions of a clock. */
  datatype Clock = Clock(vns: u64 -> Option<u64>, icount: u64 -> Option<u64>)

  function ClockOf(c: ClockRatio): Clock
  {
    Clock((i: u64) => VnsFromIcount(c, i), (v: u64) => IcountForVns(c, v))
  }

  lemma MulNonNegative(a: nat, b: nat)
    ensures a * b >= 0
  {}

  lemma MulMonotone(a: nat, b: nat, c: nat)
    requires a <= b
    ensures a * c <= b * c
  {}

  /** Division by `b` is the greatest quotient: `q <= a / b` says `q * b <= a`. */
  lemma QuotientBound(a: nat, b: nat, q: nat)
    requires b > 0
    ensures q <= a / b <==> q * b <= a
  {
    var d := a / b;
    assert a == d * b + a % b;
    if q <= d { MulMonotone(q, d, b); } else { MulMonotone(d + 1, q, b); }
  }

  lemma CeilBound(a: nat, b: nat, q: nat)
    requires b > 0
    ensures CeilDiv(a, b) <= q <==> a <= q * b
  {
    var d := a / b;
    assert a == d * b + a % b;
    if q <= d {
      MulMonotone(q, d, b);
      if q < d { MulMonotone(q + 1, d, b); }
    } else {
      MulMonotone(d + 1, q, b);
    }
  }

  /** The two conversions are adjoint: an instruction count reaches a deadline exactly when it is at
      or past the deadline's conversion. */
  lemma Adjunction(c: ClockRatio, vns: nat, icount: nat)
    ensures vns <= Floor(c, icount) <==> vns * c.den <= icount * c.num
    ensures CeilDiv(vns * c.den, c.num) <= icount <==> vns <= Floor(c, icount)
  {
    MulNonNegative(icount, c.num);
    MulNonNegative(vns, c.den);
    QuotientBound(icount * c.num, c.den, vns);
    CeilBound(vns * c.den, c.num, icount);
  }

  /** `i` is the least instruction count above `floor` whose virtual time reaches `vns`. */
  ghost predicate LeastReaching(c: ClockRatio, vns: nat, floor: int, i: nat)
  {
    && floor < i
    && vns <= Floor(c, i)
    && forall j: nat :: floor < j < i ==> Floor(c, j) < vns
  }

  /** The deadline conversion is the least instruction count reaching the deadline, and fails only
      when no 64-bit count reaches it. */
  lemma IcountForVnsIsLeast(c: ClockRatio, vns: u64)
    ensures IcountForVns(c, vns).Some? ==> LeastReaching(c, vns, -1, IcountForVns(c, vns).value)
    ensures IcountForVns(c, vns).None? <==> forall i: u64 :: Floor(c, i) < vns
  {
    MulNonNegative(vns, c.den);
    var i := CeilDiv(vns * c.den, c.num);
    Adjunction(c, vns, i);
    forall j: nat | j < i ensures Floor(c, j) < vns {
      Adjunction(c, vns, j);
    }
    if IcountForVns(c, vns).Some? {
      assert Floor(c, i as u64) >= vns;
    }
  }

  lemma FloorMonotone(c: ClockRatio, i: nat, j: nat)
    requires i <= j
    ensures Floor(c, i) <= Floor(c, j)
  {
    MulNonNegative(i, c.num);
    MulNonNegative(j, c.num);
    MulMonotone(i, j, c.num);
    Adjunction(c, Floor(c, i), i);
    Adjunction(c, Floor(c, i), j);
  }

  datatype TimerArm = TimerArm(deadline: u64, vector: byte)

  datatype ScheduledInjection = ScheduledInjection(icount: u64, vector: byte)

  /** `timer_to_injection`; the source's `start_icount + 1` overflows at the last count. */
  function TimerToInjection(timer: TimerArm, clock: Clock, start: u64): (r: Option<ScheduledInjection>)
    requires start < U64_MAX
  {
    match clock.icount(timer.deadline)
    case None => None
    case Some(i) => Some(ScheduledInjection(Max(i, start + 1), timer.vector))
  }

  /** A timer fires at the first instruction after the segment start that reaches its deadline. */
  lemma TimerIsLeast(timer: TimerArm, c: ClockRatio, start: u64)
    requires start < U64_MAX
    ensures var r := TimerToInjection(timer, ClockOf(c), start);
            && (r.Some? ==> r.value.vector == timer.vector && LeastReaching(c, timer.deadline, start, r.value.icount))
            && (r.None? <==> forall i: u64 :: Floor(c, i) < timer.deadline)
  {
    IcountForVnsIsLeast(c, timer.deadline);
    match IcountForVns(c, timer.deadline)
    case None =>
    case Some(i) =>
      if i < start + 1 { FloorMonotone(c, i, start + 1); }
      var k: u64 := i;
      assert Floor(c, k) >= timer.deadline;
  }

  /** Guest time over a lineage: each segment adds the truncated time of its own instruction count. */
  function SplitVns(c: ClockRatio, segments: seq<nat>): nat
  {
    if |segments| == 0 then 0
    else SplitVns(c, segments[..|segments| - 1]) + Floor(c, segments[|segments| - 1])
  }

  function Total(segments: seq<nat>): nat
  {
    if |segments| == 0 then 0 else Total(segments[..|segments| - 1]) + segments[|segments| - 1]
  }

  lemma Distribute(a: nat, b: nat, d: nat)
    ensures (a + b) * d == a * d + b * d
  {}

  lemma QuotientSum(x: nat, y: nat, d: nat)
    requires d > 0
    ensures x / d + y / d <= (x + y) / d <= x / d + y / d + 1
  {
    var a, b := x / d, y / d;
    Distribute(a, b, d);
    Distribute(a + b, 2, d);
    QuotientBound(x, d, a);
    QuotientBound(x, d, a + 1);
    QuotientBound(y, d, b);
    QuotientBound(y, d, b + 1);
    Distribute(a, 1, d);
    Distribute(b, 1, d);
    QuotientBound(x + y, d, a + b);
    QuotientBound(x + y, d, a + b + 2);
  }

  lemma FloorSum(c: ClockRatio, i: nat, j: nat)
    ensures Floor(c, i) + Floor(c, j) <= Floor(c, i + j) <= Floor(c, i) + Floor(c, j) + 1
  {
    MulNonNegative(i, c.num);
    MulNonNegative(j, c.num);
    assert (i + j) * c.num == i * c.num + j * c.num;
    QuotientSum(i * c.num, j * c.num, c.den);
  }

  /** Restores cost at most one nanosecond each: the guest's clock lags the clock of an unsplit run by
      no less than zero and no more than the number of restores. */
  lemma {:induction false} RestoreLag(c: ClockRatio, segments: seq<nat>)
    requires |segments| > 0
    ensures SplitVns(c, segments) <= Floor(c, Total(segments)) <= SplitVns(c, segments) + |segments| - 1
  {
    var n := |segments| - 1;
    if n == 0 {
      assert Total(segments[..0]) == 0 && SplitVns(c, segments[..0]) == 0;
    } else {
      RestoreLag(c, segments[..n]);
      FloorSum(c, Total(segments[..n]), segments[n]);
    }
  }

  /** pv-clock. */
  class PvClock {
    const clock: ClockRatio
    var vnsBase: u64
    var deadline: u64
    var vector: byte

    constructor (clock: ClockRatio)
      ensures this.clock == clock && vnsBase == 0 && deadline == 0 && vector == 0x30
    {
      this.clock := clock;
      vnsBase, deadline, vector := 0, 0, 0x30;
    }

    /** Guest-visible time: the base plus the segment's own time, saturating. */
    function Vns(icount: u64): (v: u64)
      reads this
      ensures v == Min(vnsBase + Floor(clock, icount), U64_MAX)
    {
      var own := match VnsFromIcount(clock, icount) case Some(x) => x case None => U64_MAX;
      Min(vnsBase + own, U64_MAX)
    }

    method SetVnsBase(base: u64)
      modifies this`vnsBase
      ensures vnsBase == base
    {
      vnsBase := base;
    }

    function Armed(): (r: Option<TimerArm>)
      reads this
      ensures r.Some? <==> deadline > 0
      ensures r.Some? ==> r.value.deadline == deadline && r.value.vector == vector
    {
      if deadline != 0 then Some(TimerArm(deadline, vector)) else None
    }

    method Disarm()
      modifies this`deadline
      ensures Armed().None?
    {
      deadline := 0;
    }

    /** Take a snapshot after `icount` instructions and restore it: the counter restarts at zero and
        guest time neither jumps nor runs backwards. */
    method Restore(icount: u64)
      modifies this`vnsBase
      ensures vnsBase == old(Vns(icount)) && Vns(0) == old(Vns(icount))
      ensures forall i: u64 :: i <= icount ==> old(Vns(i)) <= Vns(0)
    {
      SetVnsBase(Vns(icount));
      assert Floor(clock, 0) == 0;
      forall i: u64 | i <= icount ensures old(Vns(i)) <= Vns(0) {
        FloorMonotone(clock, i, icount);
      }
    }

    /** A whole lineage: absent saturation the clock is the sum over segments, so `RestoreLag` bounds
        its distance from the unsplit clock. */
    method RunLineage(segments: seq<u64>)
      requires vnsBase == 0 && Floor(clock, Total(segments)) <= U64_MAX
      modifies this`vnsBase
      ensures vnsBase == SplitVns(clock, segments)
      ensures |segments| > 0 ==> vnsBase <= Floor(clock, Total(segments)) <= vnsBase + |segments| - 1
    {
      for k := 0 to |segments|
        invariant vnsBase == SplitVns(clock, segments[..k])
      {
        var done: seq<nat> := segments[..k];
        assert segments[..k + 1][..k] == segments[..k];
        TotalPrefix(segments, k + 1);
        RestoreLag(clock, segments[..k + 1]);
        FloorMonotone(clock, Total(segments[..k + 1]), Total(segments));
        Restore(segments[k]);
      }
      assert segments[..|segments|] == segments;
      if |segments| > 0 { RestoreLag(clock, segments); }
    }
  }

  lemma {:induction false} TotalPrefix(segments: seq<nat>, k: nat)
    requires k <= |segments|
    ensures Total(segments[..k]) <= Total(segments)
    decreases |segments|
  {
    if k == |segments| {
      assert segments[..k] == segments;
    } else {
      var init := segments[..|segments| - 1];
      TotalPrefix(init, k);
      assert init[..k] == segments[..k];
    }
  }
}
